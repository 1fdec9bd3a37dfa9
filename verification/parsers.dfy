/** The two extractors: standings rows into `Time` records, and round
    containers into `Rodada` records with their `Partida` fixtures. */
module Parsers {
  import opened Results
  import opened Text
  import opened Models
  import opened Dom

  /** Why a round or a fixture could not be extracted; each stands for the
      exception the Python code raises at that point. */
  datatype ParseError =
    | MissingRoundDate            // no date anchor, or no `data-date` on it
    | MalformedDate(parts: nat)   // the date did not split into three parts
    | MissingTeamsMeta            // no team meta node, or no `content` on it
    | MalformedTeamPair(parts: nat) // the label did not split into two parts

  /** The result text of a fixture is its four display fields joined as
      `casa gols_casa x gols_fora fora`, whatever the goal texts are. */
  predicate ResultTextConsistent(p: Partida) {
    p.resultadoTexto == p.timeCasa + " " + p.golsCasa + " x " + p.golsFora + " " + p.timeFora
  }

  // ---------------------------------------------------------------------
  // Standings

  /** One standings row. No field is ever missing: text fields degrade to
      `''`, attribute fields to `''`, and the percentage always gets a `%`. */
  function ParseRow(row: Row): (t: Time)
    ensures IsAttrOf(row.find, Nome, "title", t.nome)
    ensures IsAttrOf(row.find, Escudo, "src", t.escudo)
    ensures IsTextOf(row.find, Posicao, t.posicao)
    ensures IsTextOf(row.find, Pontos, t.pontos)
    ensures IsTextOf(row.find, Jogos, t.jogos)
    ensures IsTextOf(row.find, Vitorias, t.vitorias)
    ensures IsTextOf(row.find, Empates, t.empates)
    ensures IsTextOf(row.find, Derrotas, t.derrotas)
    ensures IsTextOf(row.find, GolsPro, t.golsPro)
    ensures IsTextOf(row.find, GolsContra, t.golsContra)
    ensures IsTextOf(row.find, SaldoGols, t.saldoGols)
    ensures |t.aproveitamento| >= 1 && t.aproveitamento[|t.aproveitamento| - 1] == '%'
    ensures IsTextOf(row.find, Aproveitamento, t.aproveitamento[..|t.aproveitamento| - 1])
    ensures Aproveitamento !in row.find ==> t.aproveitamento == "%"
  {
    var f := row.find;
    var pct := GetText(f, Aproveitamento);
    assert (pct + "%")[..|pct|] == pct;
    Time(
      nome := GetAttr(f, Nome, "title"),
      escudo := GetAttr(f, Escudo, "src"),
      posicao := GetText(f, Posicao),
      pontos := GetText(f, Pontos),
      jogos := GetText(f, Jogos),
      vitorias := GetText(f, Vitorias),
      empates := GetText(f, Empates),
      derrotas := GetText(f, Derrotas),
      golsPro := GetText(f, GolsPro),
      golsContra := GetText(f, GolsContra),
      saldoGols := GetText(f, SaldoGols),
      aproveitamento := pct + "%")
  }

  /** The standings table: one record per matched row, in page order; a page
      with no rows gives an empty table rather than an error. */
  method ParseStandings(page: StandingsPage) returns (tabela: TabelaClassificacao)
    ensures |tabela.times| == |page.rows|
    ensures forall i :: 0 <= i < |page.rows| ==> tabela.times[i] == ParseRow(page.rows[i])
  {
    var times: seq<Time> := [];
    var i := 0;
    while i < |page.rows|
      invariant 0 <= i <= |page.rows|
      invariant |times| == i
      invariant forall j :: 0 <= j < i ==> times[j] == ParseRow(page.rows[j])
    {
      times := times + [ParseRow(page.rows[i])];
      i := i + 1;
    }
    tabela := TabelaClassificacao(times);
  }

  // ---------------------------------------------------------------------
  // Rounds

  /** `s.split(" ")[0]`: the text before the first space (all of `s` when
      it has none). */
  function FirstWord(s: string): (w: string)
    ensures |w| <= |s| && s[..|w|] == w
    ensures ' ' !in w
    ensures |w| == |s| || s[|w|] == ' '
  {
    var k := IndexOf(s, ' ');
    assert Split(s, ' ')[0] == s[..k];
    s[..k]
  }

  /** The round's start date: the part of `data-date` before the first space
      is split on `-` and must give exactly three parts `ano`, `mes`, `dia`,
      which are reassembled as `dia/mes/ano`. */
  function ParseStartDate(dataCompleta: string): (r: Result<string, ParseError>)
    ensures r.Failure? <==> Count(FirstWord(dataCompleta), '-') != 2
    ensures r.Failure? ==> r.error == MalformedDate(Count(FirstWord(dataCompleta), '-') + 1)
    ensures r.Success? ==>
              exists ano, mes, dia ::
                && '-' !in ano && '-' !in mes && '-' !in dia
                && FirstWord(dataCompleta) == ano + "-" + mes + "-" + dia
                && r.value == dia + "/" + mes + "/" + ano
  {
    var w := FirstWord(dataCompleta);
    var parts := Split(w, '-');
    SplitShape(w, '-');
    if |parts| != 3 then Failure(MalformedDate(|parts|))
    else
      var ano, mes, dia := parts[0], parts[1], parts[2];
      assert parts == [ano, mes, dia];
      JoinThree(ano, mes, dia, '-');
      assert w == ano + "-" + mes + "-" + dia;
      Success(dia + "/" + mes + "/" + ano)
  }

  /** Conversely, every `ano-mes-dia` date, with or without a space-separated
      time after it, is rearranged to `dia/mes/ano`. */
  lemma {:induction false} StartDateOfWellFormed(ano: string, mes: string, dia: string, rest: string)
    requires '-' !in ano && '-' !in mes && '-' !in dia
    requires ' ' !in ano && ' ' !in mes && ' ' !in dia
    requires rest == "" || rest[0] == ' '
    ensures ParseStartDate(ano + "-" + mes + "-" + dia + rest) == Success(dia + "/" + mes + "/" + ano)
  {
    var date := ano + "-" + mes + "-" + dia;
    var s := date + rest;
    var w := FirstWord(s);
    assert forall i :: 0 <= i < |date| ==> s[i] == date[i] && s[i] != ' ';
    assert |rest| > 0 ==> s[|date|] == rest[0];
    assert IndexOf(s, ' ') == |date|;
    assert w == date;
    assert Join([ano, mes, dia], '-') == date by {
      assert Join([ano, mes, dia][1..], '-') == mes + ['-'] + dia by {
        assert [ano, mes, dia][1..][1..] == [dia];
      }
    }
    SplitJoin([ano, mes, dia], '-');
  }

  /** The extractor takes only the text before the first space, so an
      ISO timestamp with a `T` separator (`2025-09-09T15:00:00`) leaves its
      time in the day part. */
  lemma IsoTimestampKeepsTime(dataCompleta: string)
    requires dataCompleta == "2025" + "-" + "09" + "-" + "09T15:00:00"
    ensures ParseStartDate(dataCompleta) == Success("09T15:00:00" + "/" + "09" + "/" + "2025")
  {
    assert dataCompleta == "2025" + "-" + "09" + "-" + "09T15:00:00" + "";
    StartDateOfWellFormed("2025", "09", "09T15:00:00", "");
  }

  /** A space-separated time (`2025-09-09 15:00:00`) is dropped. */
  lemma SpacedTimestampDropsTime(dataCompleta: string)
    requires dataCompleta == "2025" + "-" + "09" + "-" + "09" + " 15:00:00"
    ensures ParseStartDate(dataCompleta) == Success("09" + "/" + "09" + "/" + "2025")
  {
    StartDateOfWellFormed("2025", "09", "09", " 15:00:00");
  }

  /** Home and away team names: the meta node and its `content` attribute
      are mandatory, and splitting the label on every `x` must give exactly
      two parts, each trimmed. */
  function ParseMatch(el: MatchElement): (r: Result<Partida, ParseError>)
    ensures r == Failure(MissingTeamsMeta) <==>
              TimesMeta !in el.find || "content" !in el.find[TimesMeta].attrs
    ensures r.Success? <==>
              TimesMeta in el.find && "content" in el.find[TimesMeta].attrs
              && Count(el.find[TimesMeta].attrs["content"], 'x') == 1
    ensures r.Failure? && TimesMeta in el.find && "content" in el.find[TimesMeta].attrs ==>
              r.error == MalformedTeamPair(Count(el.find[TimesMeta].attrs["content"], 'x') + 1)
    ensures r.Success? ==>
              && r.value.partida == el.find[TimesMeta].attrs["content"]
              && exists casa, fora :: && 'x' !in casa && 'x' !in fora
                                      && r.value.partida == casa + "x" + fora
                                      && r.value.timeCasa == Strip(casa) && r.value.timeFora == Strip(fora)
    ensures r.Success? ==>
              && IsTextOf(el.find, GolsCasa, r.value.golsCasa)
              && IsTextOf(el.find, GolsFora, r.value.golsFora)
              && IsTextOf(el.find, DataPartida, r.value.data)
              && IsTextOf(el.find, Local, r.value.local)
              && ResultTextConsistent(r.value)
  {
    if TimesMeta !in el.find || "content" !in el.find[TimesMeta].attrs then
      Failure(MissingTeamsMeta)
    else
      var times := el.find[TimesMeta].attrs["content"];
      var parts := Split(times, 'x');
      SplitShape(times, 'x');
      if |parts| != 2 then Failure(MalformedTeamPair(|parts|))
      else
        assert Join(parts, 'x') == parts[0] + "x" + parts[1];
        var timeCasa, timeFora := Strip(parts[0]), Strip(parts[1]);
        var golsCasa := GetText(el.find, GolsCasa);
        var golsFora := GetText(el.find, GolsFora);
        Success(Partida(
          partida := times,
          data := GetText(el.find, DataPartida),
          local := GetText(el.find, Local),
          timeCasa := timeCasa,
          timeFora := timeFora,
          golsCasa := golsCasa,
          golsFora := golsFora,
          resultadoTexto := timeCasa + " " + golsCasa + " x " + golsFora + " " + timeFora))
  }

  /** A label with a single `x` yields its two trimmed sides, whatever the
      spacing around the separator. */
  lemma {:induction false} MatchNamesFromLabel(el: MatchElement, pre1: string, casa: string, post1: string,
                                               pre2: string, fora: string, post2: string)
    requires TimesMeta in el.find
    requires "content" in el.find[TimesMeta].attrs
    requires el.find[TimesMeta].attrs["content"] == pre1 + casa + post1 + "x" + pre2 + fora + post2
    requires AllSpace(pre1) && AllSpace(post1) && AllSpace(pre2) && AllSpace(post2)
    requires IsTrimmed(casa) && IsTrimmed(fora) && 'x' !in casa && 'x' !in fora
    ensures ParseMatch(el).Success?
    ensures ParseMatch(el).value.timeCasa == casa && ParseMatch(el).value.timeFora == fora
  {
    var home := pre1 + casa + post1;
    var away := pre2 + fora + post2;
    assert forall k :: 0 <= k < |pre1| ==> pre1[k] != 'x';
    assert forall k :: 0 <= k < |post1| ==> post1[k] != 'x';
    assert forall k :: 0 <= k < |pre2| ==> pre2[k] != 'x';
    assert forall k :: 0 <= k < |post2| ==> post2[k] != 'x';
    assert 'x' !in home && 'x' !in away;
    assert Join([home, away], 'x') == home + "x" + away;
    assert el.find[TimesMeta].attrs["content"] == home + "x" + away;
    SplitJoin([home, away], 'x');
    StripPadded(pre1, casa, post1);
    StripPadded(pre2, fora, post2);
  }

  /** The labels the site prints split into their two names. */
  lemma PlainLabelSplits(el: MatchElement)
    requires TimesMeta in el.find && "content" in el.find[TimesMeta].attrs
    requires el.find[TimesMeta].attrs["content"] == "Flamengo x Vasco"
    ensures ParseMatch(el).Success?
    ensures ParseMatch(el).value.timeCasa == "Flamengo" && ParseMatch(el).value.timeFora == "Vasco"
  {
    var content := el.find[TimesMeta].attrs["content"];
    assert content == "" + "Flamengo" + " " + "x" + " " + "Vasco" + "";
    MatchNamesFromLabel(el, "", "Flamengo", " ", " ", "Vasco", "");
  }

  /** A label with a second separator fails the fixture. */
  lemma ThreeWayLabelFails(el: MatchElement)
    requires TimesMeta in el.find && "content" in el.find[TimesMeta].attrs
    requires el.find[TimesMeta].attrs["content"] == "Avai x Vasco x Extra"
    ensures ParseMatch(el) == Failure(MalformedTeamPair(4))
  {
    var content := el.find[TimesMeta].attrs["content"];
    var tail := " E" + "x" + "tra";
    CountZero(" E", 'x');
    CountZero("tra", 'x');
    CountAround(" E", "tra", 'x');
    assert Count(tail, 'x') == 1;
    var middle := " Vasco " + "x" + tail;
    CountZero(" Vasco ", 'x');
    CountAround(" Vasco ", tail, 'x');
    assert Count(middle, 'x') == 2;
    assert content == "Avai " + "x" + middle;
    CountZero("Avai ", 'x');
    CountAround("Avai ", middle, 'x');
    assert Count(content, 'x') == 3;
  }

  /** A team whose name contains a lower-case `x` cannot be extracted: the
      split is on every `x`, not on the ` x ` separator. */
  lemma NameWithXFails(el: MatchElement)
    requires TimesMeta in el.find && "content" in el.find[TimesMeta].attrs
    requires el.find[TimesMeta].attrs["content"] == "Mixto x Remo"
    ensures ParseMatch(el) == Failure(MalformedTeamPair(3))
  {
    var content := el.find[TimesMeta].attrs["content"];
    assert content == "Mi" + "x" + ("to " + "x" + " Remo");
    CountZero("Mi", 'x');
    CountZero("to ", 'x');
    CountZero(" Remo", 'x');
    CountAround("to ", " Remo", 'x');
    CountAround("Mi", "to " + "x" + " Remo", 'x');
  }

  /** An unplayed or half-known score is interpolated as is, leaving two
      spaces around the missing goal text. */
  lemma UnplayedResultText(el: MatchElement)
    requires ParseMatch(el).Success?
    requires ParseMatch(el).value.timeCasa == "TeamA" && ParseMatch(el).value.timeFora == "TeamB"
    requires GolsCasa in el.find && Strip(el.find[GolsCasa].text) == "2"
    requires GolsFora !in el.find
    ensures ParseMatch(el).value.resultadoTexto == "TeamA 2 x  TeamB"
  {
  }

  /** Every fixture of a round, in page order; the first failing fixture
      fails the round. */
  function ParseMatches(matches: seq<MatchElement>): (r: Result<seq<Partida>, ParseError>)
    ensures r.Success? <==> forall i :: 0 <= i < |matches| ==> ParseMatch(matches[i]).Success?
    ensures r.Success? ==> |r.value| == |matches|
    ensures r.Success? ==> forall i :: 0 <= i < |matches| ==> r.value[i] == ParseMatch(matches[i]).value
    ensures r.Failure? ==>
              exists k :: 0 <= k < |matches| && ParseMatch(matches[k]) == Failure(r.error)
                          && forall i :: 0 <= i < k ==> ParseMatch(matches[i]).Success?
  {
    Collect(matches, ParseMatch)
  }

  /** One round: the date anchor and its `data-date` attribute are
      mandatory, the title degrades to `''`, the current-round flag is the
      `round` class, and the fixtures follow in page order. */
  function ParseRound(el: RoundElement): (r: Result<Rodada, ParseError>)
    ensures r.Success? <==>
              && DataRodada in el.find && "data-date" in el.find[DataRodada].attrs
              && ParseStartDate(el.find[DataRodada].attrs["data-date"]).Success?
              && ParseMatches(el.matches).Success?
    ensures r == Failure(MissingRoundDate) <==>
              DataRodada !in el.find || "data-date" !in el.find[DataRodada].attrs
    ensures DataRodada in el.find && "data-date" in el.find[DataRodada].attrs ==>
              (var date := ParseStartDate(el.find[DataRodada].attrs["data-date"]);
               && (date.Failure? ==> r == Failure(date.error))
               && (r.Success? ==> date == Success(r.value.inicio)))
    ensures r.Success? ==>
              && (r.value.rodadaAtual <==> "round" in el.classes)
              && IsTextOf(el.find, Titulo, r.value.rodada)
              && ParseMatches(el.matches) == Success(r.value.partidas)
    ensures && DataRodada in el.find && "data-date" in el.find[DataRodada].attrs
            && ParseStartDate(el.find[DataRodada].attrs["data-date"]).Success?
            && ParseMatches(el.matches).Failure? ==>
              r == Failure(ParseMatches(el.matches).error)
  {
    if DataRodada !in el.find || "data-date" !in el.find[DataRodada].attrs then
      Failure(MissingRoundDate)
    else
      var inicio :- ParseStartDate(el.find[DataRodada].attrs["data-date"]);
      var titulo := GetText(el.find, Titulo);
      var rodadaAtual := "round" in el.classes;
      var partidas :- ParseMatches(el.matches);
      Success(Rodada(titulo, inicio, rodadaAtual, partidas))
  }

  /** All rounds of the fixtures page, in page order; the first round that
      fails aborts the whole extraction with its error. */
  function ParseRounds(page: FixturesPage): (r: Result<seq<Rodada>, ParseError>)
    ensures r.Success? <==> forall i :: 0 <= i < |page.rounds| ==> ParseRound(page.rounds[i]).Success?
    ensures r.Success? ==> |r.value| == |page.rounds|
    ensures r.Success? ==> forall i :: 0 <= i < |page.rounds| ==> r.value[i] == ParseRound(page.rounds[i]).value
    ensures r.Failure? ==>
              exists k :: 0 <= k < |page.rounds| && ParseRound(page.rounds[k]) == Failure(r.error)
                          && forall i :: 0 <= i < k ==> ParseRound(page.rounds[i]).Success?
  {
    Collect(page.rounds, ParseRound)
  }
}
