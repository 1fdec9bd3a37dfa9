/** An abstract view of the parsed HTML the extractors walk. CSS matching is
    not modelled: each element records, per selector of the configuration,
    the node `select_one` finds (a key is absent when nothing matches), and
    the elements `select` finds for the row, round and match selectors. */
module Dom {
  import opened Text

  /** Per-field selectors of the standings page. */
  datatype TableField =
    | Nome | Escudo | Posicao | Pontos | Jogos | Vitorias | Empates
    | Derrotas | GolsPro | GolsContra | SaldoGols | Aproveitamento

  /** Per-field selectors of the fixtures page. */
  datatype RoundField =
    | DataRodada | Titulo | TimesMeta | GolsCasa | GolsFora | DataPartida | Local

  /** A matched tag: its text content (descendant strings, untrimmed) and its
      string-valued attributes. */
  datatype Node = Node(text: string, attrs: map<string, string>)

  /** A standings row (`table > tbody > tr`). */
  datatype Row = Row(find: map<TableField, Node>)

  /** A fixture element (`li.match`) inside a round. */
  datatype MatchElement = MatchElement(find: map<RoundField, Node>)

  /** A round container (`ul.rounds > li`): its class list, its per-field
      lookups, and the fixture elements below it in page order. */
  datatype RoundElement = RoundElement(
    classes: seq<string>,
    find: map<RoundField, Node>,
    matches: seq<MatchElement>)

  /** The standings page as seen through the row selector, in page order. */
  datatype StandingsPage = StandingsPage(rows: seq<Row>)

  /** The fixtures page as seen through the round selector, in page order. */
  datatype FixturesPage = FixturesPage(rounds: seq<RoundElement>)

  /** What a text field holds: the trimmed text of the node the selector
      finds, or the empty string when it finds none. */
  ghost predicate IsTextOf<K>(find: map<K, Node>, key: K, value: string) {
    && (key in find ==> value == Strip(find[key].text))
    && (key !in find ==> value == "")
  }

  /** What an attribute field holds: the attribute's value when both the
      node and the attribute exist, and the empty string otherwise. */
  ghost predicate IsAttrOf<K>(find: map<K, Node>, key: K, attr: string, value: string) {
    && (key in find && attr in find[key].attrs ==> value == find[key].attrs[attr])
    && (key !in find || attr !in find[key].attrs ==> value == "")
  }

  /** The `get_text` helper: trimmed text or `''`, never an error. */
  function GetText<K>(find: map<K, Node>, key: K): (r: string)
    ensures IsTextOf(find, key, r)
  {
    if key in find then Strip(find[key].text) else ""
  }

  /** What `get_text` returns, stated without `Strip`: `''` when the
      selector finds nothing; otherwise the node's text with surrounding
      whitespace removed and none left at either end. */
  lemma GetTextShape<K>(find: map<K, Node>, key: K)
    ensures key !in find ==> GetText(find, key) == ""
    ensures key in find ==>
              && IsTrimmed(GetText(find, key))
              && exists pre, post :: AllSpace(pre) && AllSpace(post)
                                     && find[key].text == pre + GetText(find, key) + post
  {
    if key in find {
      StripTrimmed(find[key].text);
      StripShape(find[key].text);
    }
  }

  /** The `get_attr` helper: attribute value or `''`, never an error. */
  function GetAttr<K>(find: map<K, Node>, key: K, attr: string): (r: string)
    ensures IsAttrOf(find, key, attr, r)
  {
    if key in find && attr in find[key].attrs then find[key].attrs[attr] else ""
  }
}
