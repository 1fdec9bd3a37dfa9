/** The Python string operations the scraper and the analysis rely on:
    `str.strip()`, `str.split(sep)` with a one-character separator, the
    substring test `needle in hay`, and `int()` / `str()` on integers. */
module Text {
  import opened Results

  /** The characters Python's `str.strip()` removes when called without
      arguments (those for which `str.isspace()` holds). */
  const SpaceChars: set<char> := {
    ' ', '\t', '\n', '\r', '\U{000B}', '\U{000C}',
    '\U{001C}', '\U{001D}', '\U{001E}', '\U{001F}',
    '\U{0085}', '\U{00A0}', '\U{1680}',
    '\U{2000}', '\U{2001}', '\U{2002}', '\U{2003}', '\U{2004}', '\U{2005}',
    '\U{2006}', '\U{2007}', '\U{2008}', '\U{2009}', '\U{200A}',
    '\U{2028}', '\U{2029}', '\U{202F}', '\U{205F}', '\U{3000}'
  }

  predicate IsSpace(c: char) {
    c in SpaceChars
  }

  /** No whitespace at either end. */
  predicate IsTrimmed(s: string) {
    |s| == 0 || (!IsSpace(s[0]) && !IsSpace(s[|s| - 1]))
  }

  predicate AllSpace(s: string) {
    forall k :: 0 <= k < |s| ==> IsSpace(s[k])
  }

  /** Python `s.strip()`: drops whitespace from both ends. */
  function Strip(s: string): string
    decreases |s|
  {
    if |s| > 0 && IsSpace(s[0]) then Strip(s[1..])
    else if |s| > 0 && IsSpace(s[|s| - 1]) then Strip(s[..|s| - 1])
    else s
  }

  /** What `strip()` leaves has no whitespace at either end. */
  lemma {:induction false} StripTrimmed(s: string)
    ensures IsTrimmed(Strip(s))
    decreases |s|
  {
    if |s| > 0 && IsSpace(s[0]) {
      StripTrimmed(s[1..]);
    } else if |s| > 0 && IsSpace(s[|s| - 1]) {
      StripTrimmed(s[..|s| - 1]);
    }
  }

  lemma PadFront(c: char, pre: string, mid: string, post: string)
    requires IsSpace(c) && AllSpace(pre)
    ensures AllSpace([c] + pre)
    ensures [c] + (pre + mid + post) == ([c] + pre) + mid + post
  {
    assert forall k :: 1 <= k < |[c] + pre| ==> ([c] + pre)[k] == pre[k - 1];
  }

  lemma PadBack(pre: string, mid: string, post: string, c: char)
    requires IsSpace(c) && AllSpace(post)
    ensures AllSpace(post + [c])
    ensures (pre + mid + post) + [c] == pre + mid + (post + [c])
  {
    assert forall k :: 0 <= k < |post| ==> (post + [c])[k] == post[k];
  }

  /** `strip()` removes only whitespace, and only at the ends: the input is
      its result between a whitespace-only prefix and suffix. */
  lemma {:induction false} StripShape(s: string)
    ensures exists pre, post :: AllSpace(pre) && AllSpace(post) && s == pre + Strip(s) + post
    decreases |s|
  {
    if |s| > 0 && IsSpace(s[0]) {
      var rest := s[1..];
      StripShape(rest);
      var pre, post :| AllSpace(pre) && AllSpace(post) && rest == pre + Strip(rest) + post;
      assert s == [s[0]] + rest;
      PadFront(s[0], pre, Strip(rest), post);
      assert AllSpace([s[0]] + pre) && s == ([s[0]] + pre) + Strip(s) + post;
    } else if |s| > 0 && IsSpace(s[|s| - 1]) {
      var init := s[..|s| - 1];
      StripShape(init);
      var pre, post :| AllSpace(pre) && AllSpace(post) && init == pre + Strip(init) + post;
      assert s == init + [s[|s| - 1]];
      PadBack(pre, Strip(init), post, s[|s| - 1]);
      assert AllSpace(post + [s[|s| - 1]]) && s == pre + Strip(s) + (post + [s[|s| - 1]]);
    } else {
      var e: string := [];
      assert Strip(s) == s && AllSpace(e);
      assert s == e + Strip(s) + e;
    }
  }

  /** Stripping is determined by the padding alone: whatever whitespace
      surrounds a trimmed text, `strip()` gives that text back. */
  lemma {:induction false} StripPadded(pre: string, t: string, post: string)
    requires AllSpace(pre) && AllSpace(post) && IsTrimmed(t)
    ensures Strip(pre + t + post) == t
    decreases |pre| + |post|
  {
    var s := pre + t + post;
    if |pre| > 0 {
      assert s[1..] == pre[1..] + t + post;
      StripPadded(pre[1..], t, post);
    } else if |post| > 0 {
      assert pre + t == t;
      if |t| > 0 {
        assert s[0] == t[0];
      } else {
        assert s[0] == post[0];
        assert s[1..] == pre + t + post[1..];
        StripPadded(pre, t, post[1..]);
        return;
      }
      assert s[..|s| - 1] == pre + t + post[..|post| - 1];
      StripPadded(pre, t, post[..|post| - 1]);
    } else {
      assert s == t;
    }
  }

  /** Number of occurrences of `c` in `s`. */
  function Count(s: string, c: char): nat {
    if |s| == 0 then 0
    else (if s[0] == c then 1 else 0) + Count(s[1..], c)
  }

  lemma {:induction false} CountAppend(a: string, b: string, c: char)
    ensures Count(a + b, c) == Count(a, c) + Count(b, c)
  {
    if |a| > 0 {
      assert (a + b)[1..] == a[1..] + b;
      CountAppend(a[1..], b, c);
    } else {
      assert a + b == b;
    }
  }

  lemma {:induction false} CountZero(s: string, c: char)
    requires c !in s
    ensures Count(s, c) == 0
  {
    if |s| > 0 {
      assert c !in s[1..];
      CountZero(s[1..], c);
    }
  }

  lemma CountAround(a: string, b: string, c: char)
    ensures Count(a + [c] + b, c) == Count(a, c) + 1 + Count(b, c)
  {
    CountAppend(a + [c], b, c);
    CountAppend(a, [c], c);
  }

  /** Position of the first `c` in `s`, or `|s|` when there is none. */
  function IndexOf(s: string, c: char): (k: nat)
    ensures k <= |s|
    ensures k < |s| ==> s[k] == c
    ensures forall i :: 0 <= i < k ==> s[i] != c
  {
    if |s| == 0 || s[0] == c then 0
    else 1 + IndexOf(s[1..], c)
  }

  /** Glues the parts back together with `c` between neighbours. */
  function Join(parts: seq<string>, c: char): string {
    if |parts| == 0 then ""
    else if |parts| == 1 then parts[0]
    else parts[0] + [c] + Join(parts[1..], c)
  }

  lemma JoinThree(a: string, b: string, d: string, c: char)
    ensures Join([a, b, d], c) == a + [c] + b + [c] + d
  {
    assert [a, b, d][1..] == [b, d];
    assert [b, d][1..] == [d];
    assert Join([b, d], c) == b + [c] + d;
    assert Join([a, b, d], c) == a + [c] + (b + [c] + d);
    assert a + [c] + (b + [c] + d) == a + [c] + b + [c] + d;
  }

  /** Python `s.split(c)` for a one-character separator: every occurrence
      cuts, and empty pieces are kept. */
  function Split(s: string, c: char): (parts: seq<string>)
    ensures |parts| >= 1
    decreases |s|
  {
    var k := IndexOf(s, c);
    if k == |s| then [s]
    else [s[..k]] + Split(s[k + 1..], c)
  }

  /** `split` cuts at every separator and loses nothing: there is one piece
      more than there are separators, no piece holds a separator, and
      joining the pieces gives `s` back. */
  lemma {:induction false} SplitShape(s: string, c: char)
    ensures |Split(s, c)| == Count(s, c) + 1
    ensures forall i :: 0 <= i < |Split(s, c)| ==> c !in Split(s, c)[i]
    ensures Join(Split(s, c), c) == s
    decreases |s|
  {
    var k := IndexOf(s, c);
    if k == |s| {
      assert s[..k] == s;
      CountZero(s, c);
    } else {
      var rest := Split(s[k + 1..], c);
      SplitShape(s[k + 1..], c);
      assert s == s[..k] + [c] + s[k + 1..];
      CountAppend(s[..k] + [c], s[k + 1..], c);
      CountAppend(s[..k], [c], c);
      CountZero(s[..k], c);
      assert Split(s, c) == [s[..k]] + rest;
      assert Split(s, c)[1..] == rest;
    }
  }

  /** The first `c` after a `c`-free prefix is the one right after it. */
  lemma IndexAfterFree(p: string, c: char, t: string)
    requires c !in p
    ensures IndexOf(p + [c] + t, c) == |p|
  {
    var s := p + [c] + t;
    assert s[|p|] == c;
    assert forall i :: 0 <= i < |p| ==> s[i] == p[i];
  }

  /** Splitting what `Join` built gives the parts back, provided no part
      contains the separator. */
  lemma {:induction false} SplitJoin(parts: seq<string>, c: char)
    requires |parts| >= 1
    requires forall i :: 0 <= i < |parts| ==> c !in parts[i]
    ensures Split(Join(parts, c), c) == parts
  {
    var s := Join(parts, c);
    if |parts| == 1 {
      assert IndexOf(s, c) == |s|;
    } else {
      var p, tail := parts[0], parts[1..];
      var t := Join(tail, c);
      assert s == p + [c] + t;
      assert c !in p;
      IndexAfterFree(p, c, t);
      assert s[..|p|] == p;
      assert s[|p| + 1..] == t;
      assert forall i :: 0 <= i < |tail| ==> c !in tail[i] by {
        forall i | 0 <= i < |tail| ensures c !in tail[i] {
          assert tail[i] == parts[i + 1];
        }
      }
      SplitJoin(tail, c);
      assert Split(s, c) == [p] + Split(t, c);
      assert parts == [p] + tail;
    }
  }

  /** `needle` occurs in `hay` starting at position `i`. */
  ghost predicate OccursAt(hay: string, needle: string, i: int) {
    0 <= i && i + |needle| <= |hay| && hay[i..i + |needle|] == needle
  }

  /** Python `needle in hay` on strings. */
  function Contains(hay: string, needle: string): bool
    decreases |hay|
  {
    if |needle| > |hay| then false
    else if hay[..|needle|] == needle then true
    else Contains(hay[1..], needle)
  }

  /** `Contains` answers exactly the question "is there a position where
      `needle` occurs?". */
  lemma {:induction false} ContainsIffOccurs(hay: string, needle: string)
    ensures Contains(hay, needle) <==> exists i :: OccursAt(hay, needle, i)
    decreases |hay|
  {
    if |needle| > |hay| {
    } else if hay[..|needle|] == needle {
      assert OccursAt(hay, needle, 0);
    } else {
      ContainsIffOccurs(hay[1..], needle);
      if Contains(hay[1..], needle) {
        var i :| OccursAt(hay[1..], needle, i);
        assert hay[1..][i..i + |needle|] == hay[i + 1..i + 1 + |needle|];
        assert OccursAt(hay, needle, i + 1);
      }
      forall i | OccursAt(hay, needle, i)
        ensures OccursAt(hay[1..], needle, i - 1)
      {
        assert i != 0;
        assert hay[1..][i - 1..i - 1 + |needle|] == hay[i..i + |needle|];
      }
    }
  }

  predicate IsDigit(c: char) {
    '0' <= c <= '9'
  }

  predicate AllDigits(s: string) {
    forall k :: 0 <= k < |s| ==> IsDigit(s[k])
  }

  /** The value of a run of decimal digits, most significant first. */
  function DigitsValue(s: string): nat
    requires AllDigits(s)
  {
    if |s| == 0 then 0
    else DigitsValue(s[..|s| - 1]) * 10 + (s[|s| - 1] as int - '0' as int)
  }

  /** Python `int(s)` restricted to an optional `+` or `-` followed by one
      or more ASCII digits; `None` stands for the `ValueError` Python raises. */
  function ParseInt(s: string): Option<int> {
    if |s| > 0 && (s[0] == '+' || s[0] == '-') then
      if |s| > 1 && AllDigits(s[1..]) then
        var v: int := DigitsValue(s[1..]);
        Some(if s[0] == '-' then -v else v)
      else None
    else if |s| > 0 && AllDigits(s) then Some(DigitsValue(s))
    else None
  }

  /** A decimal numeral as `str()` prints it: one or more digits, with no
      leading zero unless the numeral is `0` itself. */
  predicate Canonical(d: string) {
    |d| >= 1 && AllDigits(d) && (d[0] == '0' ==> |d| == 1)
  }

  /** Python `str(n)` for a natural number: its decimal digits with no
      leading zero. */
  function NatToString(n: nat): (r: string)
    ensures Canonical(r) && DigitsValue(r) == n
    ensures r[0] == '0' <==> n == 0
  {
    var d := [('0' as int + n % 10) as char];
    if n < 10 then d
    else
      var r := NatToString(n / 10) + d;
      assert r[..|r| - 1] == NatToString(n / 10);
      r
  }

  /** A numeral's value is at least its leading digit. */
  lemma {:induction false} LeadingDigitBound(s: string)
    requires |s| >= 1 && AllDigits(s)
    ensures DigitsValue(s) >= s[0] as int - '0' as int
  {
    if |s| > 1 {
      var init := s[..|s| - 1];
      assert init[0] == s[0];
      LeadingDigitBound(init);
    }
  }

  /** `str()` is the only canonical numeral of its value: any digit string
      without a leading zero is exactly what `str()` prints for it. */
  lemma {:induction false} CanonicalIsNatToString(d: string)
    requires Canonical(d)
    ensures NatToString(DigitsValue(d)) == d
  {
    if |d| > 1 {
      var init := d[..|d| - 1];
      assert init[0] == d[0];
      assert Canonical(init);
      LeadingDigitBound(init);
      CanonicalIsNatToString(init);
      var v := DigitsValue(d);
      assert v / 10 == DigitsValue(init) && v % 10 == d[|d| - 1] as int - '0' as int;
      assert d == init + [d[|d| - 1]];
    }
  }

  /** Python `str(n)` for any integer: a minus sign for negatives. */
  function IntToString(n: int): (r: string)
    ensures ParseInt(r) == Some(n)
    ensures n < 0 ==> r[0] == '-' && Canonical(r[1..])
    ensures n >= 0 ==> Canonical(r)
  {
    if n < 0 then
      var r := "-" + NatToString(-n);
      assert r[1..] == NatToString(-n);
      r
    else NatToString(n)
  }

  /** An explicit `+` sign is read back by `int()` as well. */
  lemma PlusSignedRoundTrip(n: nat)
    ensures ParseInt("+" + NatToString(n)) == Some(n)
  {
    assert ("+" + NatToString(n))[1..] == NatToString(n);
  }
}
