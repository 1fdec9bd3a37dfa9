/** Conversion of the records into the JSON-shaped dictionaries that get
    saved, and the two score formatters. A Python dict keeps insertion
    order, so an object is an ordered list of key/value pairs. */
module Utils {
  import opened Results
  import opened Text
  import opened Models

  datatype Json =
    | JString(str: string)
    | JBool(b: bool)
    | JArray(items: seq<Json>)
    | JObject(fields: seq<(string, Json)>)

  function Keys(fields: seq<(string, Json)>): (ks: seq<string>)
    ensures |ks| == |fields|
    ensures forall i :: 0 <= i < |fields| ==> ks[i] == fields[i].0
  {
    if |fields| == 0 then [] else [fields[0].0] + Keys(fields[1..])
  }

  predicate Distinct(ks: seq<string>) {
    forall i, k :: 0 <= i < k < |ks| ==> ks[i] != ks[k]
  }

  function Lookup(fields: seq<(string, Json)>, key: string): Option<Json> {
    if |fields| == 0 then None
    else if fields[0].0 == key then Some(fields[0].1)
    else Lookup(fields[1..], key)
  }

  /** With distinct keys, every pair is found under its own key. */
  lemma {:induction false} LookupDistinct(fields: seq<(string, Json)>)
    requires Distinct(Keys(fields))
    ensures forall i :: 0 <= i < |fields| ==> Lookup(fields, fields[i].0) == Some(fields[i].1)
  {
    if |fields| > 0 {
      assert Keys(fields[1..]) == Keys(fields)[1..];
      LookupDistinct(fields[1..]);
      forall i | 1 <= i < |fields|
        ensures Lookup(fields, fields[i].0) == Some(fields[i].1)
      {
        assert Keys(fields)[0] != Keys(fields)[i];
        assert fields[1..][i - 1] == fields[i];
      }
    }
  }

  /** `obj[key]`: the value stored under `key`, if any. */
  function Get(j: Json, key: string): Option<Json> {
    if j.JObject? then Lookup(j.fields, key) else None
  }

  function GetString(j: Json, key: string): Option<string> {
    match Get(j, key)
    case Some(JString(s)) => Some(s)
    case _ => None
  }

  function GetBool(j: Json, key: string): Option<bool> {
    match Get(j, key)
    case Some(JBool(b)) => Some(b)
    case _ => None
  }

  function GetArray(j: Json, key: string): Option<seq<Json>> {
    match Get(j, key)
    case Some(JArray(items)) => Some(items)
    case _ => None
  }

  const TimeKeys: seq<string> := [
    "nome", "escudo", "posicao", "pontos", "jogos", "vitorias", "empates",
    "derrotas", "gols_pro", "gols_contra", "saldo_gols", "aproveitamento"]

  const PartidaKeys: seq<string> := [
    "partida", "data", "local", "time_casa", "time_fora", "gols_casa",
    "gols_fora", "resultado_texto"]

  const RodadaKeys: seq<string> := ["rodada", "inicio", "rodada_atual", "partidas"]

  lemma KeyListsDistinct()
    ensures Distinct(TimeKeys) && Distinct(PartidaKeys) && Distinct(RodadaKeys)
  {
  }

  // ---------------------------------------------------------------------
  // Reading a dictionary back, field by field: the consumers' view of the
  // saved shape, used to state that the conversion loses nothing.

  /** The string values stored under `keys`, in order; `None` as soon as
      one is missing or not a string. */
  function GetStrings(j: Json, keys: seq<string>): (r: Option<seq<string>>)
    ensures r.Some? ==> |r.value| == |keys|
  {
    if |keys| == 0 then Some([])
    else
      var v :- GetString(j, keys[0]);
      var rest :- GetStrings(j, keys[1..]);
      Some([v] + rest)
  }

  function TimeFromDict(j: Json): Option<Time> {
    var v :- GetStrings(j, TimeKeys);
    Some(Time(v[0], v[1], v[2], v[3], v[4], v[5], v[6], v[7], v[8], v[9], v[10], v[11]))
  }

  function PartidaFromDict(j: Json): Option<Partida> {
    var v :- GetStrings(j, PartidaKeys);
    Some(Partida(v[0], v[1], v[2], v[3], v[4], v[5], v[6], v[7]))
  }

  function Decode<T>(items: seq<Json>, f: Json -> Option<T>): Option<seq<T>> {
    if |items| == 0 then Some([])
    else
      var x :- f(items[0]);
      var rest :- Decode(items[1..], f);
      Some([x] + rest)
  }

  function RodadaFromDict(j: Json): Option<Rodada> {
    var rodada :- GetString(j, "rodada");
    var inicio :- GetString(j, "inicio");
    var rodadaAtual :- GetBool(j, "rodada_atual");
    var items :- GetArray(j, "partidas");
    var partidas :- Decode(items, PartidaFromDict);
    Some(Rodada(rodada, inicio, rodadaAtual, partidas))
  }

  function TabelaFromDict(j: Json): Option<TabelaClassificacao> {
    if !j.JArray? then None
    else
      var times :- Decode(j.items, TimeFromDict);
      Some(TabelaClassificacao(times))
  }

  /** A missing `rodadas` key reads back as no rounds at all. */
  function DadosFromDict(j: Json): Option<DadosBrasileirao> {
    var t :- Get(j, "tabela");
    var tabela :- TabelaFromDict(t);
    match Get(j, "rodadas")
    case None => Some(DadosBrasileirao(tabela, None))
    case Some(JArray(items)) =>
      var rodadas :- Decode(items, RodadaFromDict);
      Some(DadosBrasileirao(tabela, Some(rodadas)))
    case Some(_) => None
  }

  // ---------------------------------------------------------------------
  // DataConverter

  /** Each key paired with its string value, in order. */
  function StringFields(keys: seq<string>, vals: seq<string>): (fields: seq<(string, Json)>)
    requires |keys| == |vals|
    ensures |fields| == |keys|
    ensures forall i :: 0 <= i < |keys| ==> fields[i] == (keys[i], JString(vals[i]))
  {
    if |keys| == 0 then [] else [(keys[0], JString(vals[0]))] + StringFields(keys[1..], vals[1..])
  }

  /** With distinct keys, every value paired with a key is read back under
      that key. */
  lemma {:induction false} StringFieldsRoundTrip(keys: seq<string>, vals: seq<string>)
    requires |keys| == |vals| && Distinct(keys)
    ensures GetStrings(JObject(StringFields(keys, vals)), keys) == Some(vals)
  {
    var fields := StringFields(keys, vals);
    assert Keys(fields) == keys;
    LookupDistinct(fields);
    ReadSuffix(JObject(fields), keys, vals, 0);
    assert keys[0..] == keys && vals[0..] == vals;
  }

  lemma {:induction false} ReadSuffix(j: Json, keys: seq<string>, vals: seq<string>, n: nat)
    requires |keys| == |vals| && n <= |keys|
    requires forall i :: 0 <= i < |keys| ==> GetString(j, keys[i]) == Some(vals[i])
    ensures GetStrings(j, keys[n..]) == Some(vals[n..])
    decreases |keys| - n
  {
    if n < |keys| {
      ReadSuffix(j, keys, vals, n + 1);
      assert keys[n..][0] == keys[n] && keys[n..][1..] == keys[n + 1..];
      assert GetString(j, keys[n..][0]) == Some(vals[n]);
      assert vals[n..] == [vals[n]] + vals[n + 1..];
    }
  }

  function TimeValues(t: Time): (vs: seq<string>)
    ensures |vs| == |TimeKeys|
  {
    [t.nome, t.escudo, t.posicao, t.pontos, t.jogos, t.vitorias, t.empates,
     t.derrotas, t.golsPro, t.golsContra, t.saldoGols, t.aproveitamento]
  }

  function PartidaValues(p: Partida): (vs: seq<string>)
    ensures |vs| == |PartidaKeys|
  {
    [p.partida, p.data, p.local, p.timeCasa, p.timeFora, p.golsCasa, p.golsFora, p.resultadoTexto]
  }

  /** `time_to_dict`: the twelve fields under their own names, in
      declaration order, values unchanged. */
  function TimeToDict(t: Time): (j: Json)
    ensures j.JObject? && Keys(j.fields) == TimeKeys
    ensures forall i :: 0 <= i < |TimeKeys| ==> j.fields[i].1 == JString(TimeValues(t)[i])
    ensures TimeFromDict(j) == Some(t)
  {
    var fields := StringFields(TimeKeys, TimeValues(t));
    assert Keys(fields) == TimeKeys;
    KeyListsDistinct();
    StringFieldsRoundTrip(TimeKeys, TimeValues(t));
    JObject(fields)
  }

  /** `partida_to_dict`: the eight fields under their own names, in
      declaration order, values unchanged. */
  function PartidaToDict(p: Partida): (j: Json)
    ensures j.JObject? && Keys(j.fields) == PartidaKeys
    ensures forall i :: 0 <= i < |PartidaKeys| ==> j.fields[i].1 == JString(PartidaValues(p)[i])
    ensures PartidaFromDict(j) == Some(p)
  {
    var fields := StringFields(PartidaKeys, PartidaValues(p));
    assert Keys(fields) == PartidaKeys;
    KeyListsDistinct();
    StringFieldsRoundTrip(PartidaKeys, PartidaValues(p));
    JObject(fields)
  }

  function PartidasToJson(ps: seq<Partida>): (items: seq<Json>)
    ensures |items| == |ps|
    ensures forall i :: 0 <= i < |ps| ==> items[i] == PartidaToDict(ps[i])
  {
    if |ps| == 0 then [] else [PartidaToDict(ps[0])] + PartidasToJson(ps[1..])
  }

  lemma {:induction false} PartidasRoundTrip(ps: seq<Partida>)
    ensures Decode(PartidasToJson(ps), PartidaFromDict) == Some(ps)
  {
    if |ps| > 0 {
      assert [ps[0]] + ps[1..] == ps;
      PartidasRoundTrip(ps[1..]);
      assert PartidasToJson(ps)[1..] == PartidasToJson(ps[1..]);
    }
  }

  /** `rodada_to_dict`: title, start date and flag copied, fixtures
      converted one by one in the same order. */
  function RodadaToDict(r: Rodada): (j: Json)
    ensures j.JObject? && Keys(j.fields) == RodadaKeys
    ensures GetArray(j, "partidas").Some?
    ensures |GetArray(j, "partidas").value| == |r.partidas|
    ensures forall i :: 0 <= i < |r.partidas| ==>
              GetArray(j, "partidas").value[i] == PartidaToDict(r.partidas[i])
    ensures RodadaFromDict(j) == Some(r)
  {
    PartidasRoundTrip(r.partidas);
    var fields := [
      ("rodada", JString(r.rodada)),
      ("inicio", JString(r.inicio)),
      ("rodada_atual", JBool(r.rodadaAtual)),
      ("partidas", JArray(PartidasToJson(r.partidas)))];
    assert Keys(fields) == RodadaKeys;
    KeyListsDistinct();
    LookupDistinct(fields);
    assert Lookup(fields, "rodada") == Some(fields[0].1);
    assert Lookup(fields, "inicio") == Some(fields[1].1);
    assert Lookup(fields, "rodada_atual") == Some(fields[2].1);
    assert Lookup(fields, "partidas") == Some(fields[3].1);
    JObject(fields)
  }

  function TimesToJson(ts: seq<Time>): (items: seq<Json>)
    ensures |items| == |ts|
    ensures forall i :: 0 <= i < |ts| ==> items[i] == TimeToDict(ts[i])
  {
    if |ts| == 0 then [] else [TimeToDict(ts[0])] + TimesToJson(ts[1..])
  }

  lemma {:induction false} TimesRoundTrip(ts: seq<Time>)
    ensures Decode(TimesToJson(ts), TimeFromDict) == Some(ts)
  {
    if |ts| > 0 {
      assert [ts[0]] + ts[1..] == ts;
      TimesRoundTrip(ts[1..]);
      assert TimesToJson(ts)[1..] == TimesToJson(ts[1..]);
    }
  }

  /** `tabela_to_dict`: one dictionary per team, same length and order. */
  function TabelaToDict(t: TabelaClassificacao): (j: Json)
    ensures j.JArray? && |j.items| == |t.times|
    ensures forall i :: 0 <= i < |t.times| ==> j.items[i] == TimeToDict(t.times[i])
    ensures TabelaFromDict(j) == Some(t)
  {
    TimesRoundTrip(t.times);
    JArray(TimesToJson(t.times))
  }

  function RodadasToJson(rs: seq<Rodada>): (items: seq<Json>)
    ensures |items| == |rs|
    ensures forall i :: 0 <= i < |rs| ==> items[i] == RodadaToDict(rs[i])
  {
    if |rs| == 0 then [] else [RodadaToDict(rs[0])] + RodadasToJson(rs[1..])
  }

  lemma {:induction false} RodadasRoundTrip(rs: seq<Rodada>)
    ensures Decode(RodadasToJson(rs), RodadaFromDict) == Some(rs)
  {
    if |rs| > 0 {
      assert [rs[0]] + rs[1..] == rs;
      RodadasRoundTrip(rs[1..]);
      assert RodadasToJson(rs)[1..] == RodadasToJson(rs[1..]);
    }
  }

  /** Python truthiness of `dados.rodadas`: present and non-empty. */
  predicate HasRounds(d: DadosBrasileirao) {
    d.rodadas.Some? && |d.rodadas.value| > 0
  }

  /** `dados_brasileirao_to_dict`: `tabela` always comes first; `rodadas`
      follows exactly when there are rounds to report. */
  function DadosToDict(d: DadosBrasileirao): (j: Json)
    ensures j.JObject? && |j.fields| >= 1 && j.fields[0] == ("tabela", TabelaToDict(d.tabela))
    ensures Get(j, "rodadas").Some? <==> HasRounds(d)
    ensures HasRounds(d) ==> Keys(j.fields) == ["tabela", "rodadas"]
    ensures !HasRounds(d) ==> Keys(j.fields) == ["tabela"]
  {
    var tabela := ("tabela", TabelaToDict(d.tabela));
    if HasRounds(d) then
      var rodadas := ("rodadas", JArray(RodadasToJson(d.rodadas.value)));
      var fields := [tabela, rodadas];
      assert fields[0].0 != "rodadas";
      assert fields[1..] == [rodadas];
      assert Lookup(fields, "rodadas") == Lookup([rodadas], "rodadas");
      JObject(fields)
    else
      var fields := [tabela];
      assert fields[0].0 != "rodadas";
      assert fields[1..] == [];
      assert Lookup(fields, "rodadas") == Lookup([], "rodadas");
      JObject(fields)
  }

  /** Reading the saved snapshot back gives the same snapshot, except that
      an empty round list is indistinguishable from no round list. */
  lemma DadosRoundTrip(d: DadosBrasileirao)
    ensures d.rodadas != Some([]) ==> DadosFromDict(DadosToDict(d)) == Some(d)
    ensures d.rodadas == Some([]) ==> DadosFromDict(DadosToDict(d)) == Some(DadosBrasileirao(d.tabela, None))
  {
    var j := DadosToDict(d);
    assert Get(j, "tabela") == Some(TabelaToDict(d.tabela));
    if HasRounds(d) {
      RodadasRoundTrip(d.rodadas.value);
      assert j.fields[0].0 != "rodadas";
      assert j.fields[1..] == [("rodadas", JArray(RodadasToJson(d.rodadas.value)))];
      assert Get(j, "rodadas") == Lookup(j.fields[1..], "rodadas");
    } else {
      assert j.fields[1..] == [];
    }
  }

  // ---------------------------------------------------------------------
  // FormatUtils

  /** `format_saldo_gols`: the goal difference with an explicit `+` when
      positive, or `"0"` when either input is not an integer. */
  function FormatSaldoGols(golsPro: string, golsContra: string): (r: string)
    ensures ParseInt(golsPro).Some? && ParseInt(golsContra).Some? ==>
              var saldo := ParseInt(golsPro).value - ParseInt(golsContra).value;
              && ParseInt(r) == Some(saldo)
              && (saldo > 0 ==> r[0] == '+' && Canonical(r[1..]))
              && (saldo < 0 ==> r[0] == '-' && Canonical(r[1..]))
              && (saldo == 0 ==> r == "0")
    ensures ParseInt(golsPro).None? || ParseInt(golsContra).None? ==> r == "0"
  {
    match (ParseInt(golsPro), ParseInt(golsContra))
    case (Some(p), Some(c)) =>
      var saldo := p - c;
      if saldo > 0 then
        PlusSignedRoundTrip(saldo);
        "+" + IntToString(saldo)
      else IntToString(saldo)
    case _ => "0"
  }

  /** Formatting the rendered totals of a team reads back as their
      difference. */
  lemma SaldoOfRenderedTotals(golsPro: int, golsContra: int)
    ensures ParseInt(FormatSaldoGols(IntToString(golsPro), IntToString(golsContra))) == Some(golsPro - golsContra)
  {
  }

  /** What `format_aproveitamento` returns: the fixed `"0%"` fallback, or
      the computed percentage of `pontos` over `3 * jogos` (whose rounded
      text is not modelled). */
  datatype Aproveitamento = Fallback | Computed(pontos: int, jogos: int)

  /** `format_aproveitamento`'s integer branches: `"0%"` when either input
      is not an integer or when `jogos` is zero; otherwise the percentage is
      computed from the two parsed integers. */
  function FormatAproveitamento(pontos: string, jogos: string): (r: Aproveitamento)
    ensures r.Fallback? <==> ParseInt(pontos).None? || ParseInt(jogos).None? || ParseInt(jogos) == Some(0)
    ensures r.Computed? ==> ParseInt(pontos) == Some(r.pontos) && ParseInt(jogos) == Some(r.jogos) && r.jogos != 0
  {
    match (ParseInt(pontos), ParseInt(jogos))
    case (Some(p), Some(j)) => if j == 0 then Fallback else Computed(p, j)
    case _ => Fallback
  }

  /** Rendered integers always reach the computed branch unless no game
      was played. */
  lemma AproveitamentoOfRenderedTotals(pontos: int, jogos: int)
    ensures jogos == 0 ==> FormatAproveitamento(IntToString(pontos), IntToString(jogos)) == Fallback
    ensures jogos != 0 ==> FormatAproveitamento(IntToString(pontos), IntToString(jogos)) == Computed(pontos, jogos)
  {
  }
}
