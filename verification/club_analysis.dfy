/** The integer side of the club report: selecting the club's fixtures from
    the saved rounds, and tallying played fixtures per opponent and per
    home/away side. The club is fixed to Remo, as in the report script. */
module ClubAnalysis {
  import opened Results
  import opened Text
  import opened Models

  const Club: string := "Remo"

  // ---------------------------------------------------------------------
  // Selecting the club's fixtures

  /** One of the club's fixtures, with its round title copied in. */
  datatype ClubMatch = ClubMatch(
    rodada: string,
    data: string,
    partida: string,
    local: string,
    timeCasa: string,
    timeFora: string,
    golsCasa: string,
    golsFora: string,
    resultadoTexto: string)

  function CopyMatch(r: Rodada, p: Partida): ClubMatch {
    ClubMatch(r.rodada, p.data, p.partida, p.local, p.timeCasa, p.timeFora,
              p.golsCasa, p.golsFora, p.resultadoTexto)
  }

  /** The selection test: the club's name occurs in the raw label. */
  predicate Mentions(p: Partida) {
    Contains(p.partida, Club)
  }

  /** The selected fixtures among the first `ps` of round `r`, in order. */
  function SelectInRound(r: Rodada, ps: seq<Partida>): seq<ClubMatch> {
    if |ps| == 0 then []
    else
      var last := ps[|ps| - 1];
      SelectInRound(r, ps[..|ps| - 1]) + (if Mentions(last) then [CopyMatch(r, last)] else [])
  }

  /** The selected fixtures of all rounds: round order, then fixture order. */
  function ClubMatches(rounds: seq<Rodada>): seq<ClubMatch> {
    if |rounds| == 0 then []
    else
      var last := rounds[|rounds| - 1];
      ClubMatches(rounds[..|rounds| - 1]) + SelectInRound(last, last.partidas)
  }

  lemma {:induction false} SelectInRoundMembers(r: Rodada, ps: seq<Partida>, m: ClubMatch)
    ensures m in SelectInRound(r, ps) <==>
              exists k :: 0 <= k < |ps| && Mentions(ps[k]) && m == CopyMatch(r, ps[k])
  {
    if |ps| > 0 {
      var init := ps[..|ps| - 1];
      SelectInRoundMembers(r, init, m);
      if exists k :: 0 <= k < |init| && Mentions(init[k]) && m == CopyMatch(r, init[k]) {
        var k :| 0 <= k < |init| && Mentions(init[k]) && m == CopyMatch(r, init[k]);
        assert ps[k] == init[k];
      }
      if exists k :: 0 <= k < |ps| && Mentions(ps[k]) && m == CopyMatch(r, ps[k]) {
        var k :| 0 <= k < |ps| && Mentions(ps[k]) && m == CopyMatch(r, ps[k]);
        if k < |init| {
          assert init[k] == ps[k];
        }
      }
    }
  }

  /** A record is selected exactly when it is the copy of some fixture, in
      some round, whose label mentions the club. */
  lemma {:induction false} ClubMatchesMembers(rounds: seq<Rodada>, m: ClubMatch)
    ensures m in ClubMatches(rounds) <==>
              exists i, k :: && 0 <= i < |rounds| && 0 <= k < |rounds[i].partidas|
                             && Mentions(rounds[i].partidas[k])
                             && m == CopyMatch(rounds[i], rounds[i].partidas[k])
  {
    if |rounds| > 0 {
      var init := rounds[..|rounds| - 1];
      var last := rounds[|rounds| - 1];
      ClubMatchesMembers(init, m);
      SelectInRoundMembers(last, last.partidas, m);
      if exists i, k :: && 0 <= i < |init| && 0 <= k < |init[i].partidas|
                        && Mentions(init[i].partidas[k]) && m == CopyMatch(init[i], init[i].partidas[k]) {
        var i, k :| && 0 <= i < |init| && 0 <= k < |init[i].partidas|
                    && Mentions(init[i].partidas[k]) && m == CopyMatch(init[i], init[i].partidas[k]);
        assert rounds[i] == init[i];
      }
      if m in SelectInRound(last, last.partidas) {
        var k :| 0 <= k < |last.partidas| && Mentions(last.partidas[k]) && m == CopyMatch(last, last.partidas[k]);
        assert rounds[|rounds| - 1] == last;
      }
      if exists i, k :: && 0 <= i < |rounds| && 0 <= k < |rounds[i].partidas|
                        && Mentions(rounds[i].partidas[k]) && m == CopyMatch(rounds[i], rounds[i].partidas[k]) {
        var i, k :| && 0 <= i < |rounds| && 0 <= k < |rounds[i].partidas|
                    && Mentions(rounds[i].partidas[k]) && m == CopyMatch(rounds[i], rounds[i].partidas[k]);
        if i < |init| {
          assert init[i] == rounds[i];
        }
      }
    }
  }

  /** The selection loop of `carregar_dados_remo`: rounds in order, and
      within each round its fixtures in order. */
  method CollectClubMatches(rounds: seq<Rodada>) returns (out: seq<ClubMatch>)
    ensures out == ClubMatches(rounds)
  {
    out := [];
    var i := 0;
    while i < |rounds|
      invariant 0 <= i <= |rounds|
      invariant out == ClubMatches(rounds[..i])
    {
      var r := rounds[i];
      var k := 0;
      while k < |r.partidas|
        invariant 0 <= k <= |r.partidas|
        invariant out == ClubMatches(rounds[..i]) + SelectInRound(r, r.partidas[..k])
      {
        var p := r.partidas[k];
        if Contains(p.partida, Club) {
          out := out + [CopyMatch(r, p)];
        }
        assert r.partidas[..k + 1][..k] == r.partidas[..k];
        k := k + 1;
      }
      assert r.partidas[..k] == r.partidas;
      assert rounds[..i + 1][..i] == rounds[..i];
      i := i + 1;
    }
    assert rounds[..i] == rounds;
  }

  /** The club's own standings row: the first row named exactly like the
      club, if any. */
  function FindClubRow(times: seq<Time>): (r: Option<Time>)
    ensures r.None? <==> forall i :: 0 <= i < |times| ==> times[i].nome != Club
    ensures r.Some? ==>
              exists i :: 0 <= i < |times| && times[i] == r.value && times[i].nome == Club
                          && forall k :: 0 <= k < i ==> times[k].nome != Club
  {
    if |times| == 0 then None
    else if times[0].nome == Club then Some(times[0])
    else
      var r := FindClubRow(times[1..]);
      assert forall i :: 1 <= i < |times| ==> times[1..][i - 1] == times[i];
      if r.Some? then
        var i :| 0 <= i < |times[1..]| && times[1..][i] == r.value && times[1..][i].nome == Club
                 && forall k :: 0 <= k < i ==> times[1..][k].nome != Club;
        assert times[i + 1] == r.value;
        r
      else r
  }

  // ---------------------------------------------------------------------
  // From fixtures to games

  /** A fixture with a result: both goal texts are non-empty. */
  predicate Played(m: ClubMatch) {
    m.golsCasa != "" && m.golsFora != ""
  }

  /** The played fixtures, in order. */
  function PlayedMatches(ms: seq<ClubMatch>): (r: seq<ClubMatch>)
    ensures |r| <= |ms|
  {
    if |ms| == 0 then []
    else PlayedMatches(ms[..|ms| - 1]) + (if Played(ms[|ms| - 1]) then [ms[|ms| - 1]] else [])
  }

  /** A fixture is kept exactly when it is one of the input and played. */
  lemma {:induction false} PlayedMatchesMembers(ms: seq<ClubMatch>)
    ensures forall m :: m in PlayedMatches(ms) <==> m in ms && Played(m)
  {
    if |ms| > 0 {
      var init := ms[..|ms| - 1];
      PlayedMatchesMembers(init);
      assert ms == init + [ms[|ms| - 1]];
    }
  }

  /** A played fixture seen from the club's side. */
  datatype Game = Game(rodada: string, opponent: string, atHome: bool, pro: int, contra: int)

  /** `int()` failed on a goal text: the report script stops there. */
  datatype GoalError = NotAnInteger(text: string)

  /** A played fixture from the club's side. The club's own goal text is
      read first, as in the script. */
  function ToGame(m: ClubMatch): Result<Game, GoalError> {
    var atHome := m.timeCasa == Club;
    var own := if atHome then m.golsCasa else m.golsFora;
    var theirs := if atHome then m.golsFora else m.golsCasa;
    match (ParseInt(own), ParseInt(theirs))
    case (None, _) => Failure(NotAnInteger(own))
    case (_, None) => Failure(NotAnInteger(theirs))
    case (Some(pro), Some(contra)) =>
      Success(Game(m.rodada, if atHome then m.timeFora else m.timeCasa, atHome, pro, contra))
  }

  /** The side test, the opponent and the club's goals: when the home team
      is the club, the club scored the home goals and the opponent is the
      away team; otherwise the reverse. A goal text that is not an integer
      fails, and the club's own text is the one reported when both are. */
  lemma ToGameSides(m: ClubMatch)
    ensures ToGame(m).Success? <==> ParseInt(m.golsCasa).Some? && ParseInt(m.golsFora).Some?
    ensures ToGame(m).Success? ==>
              var g := ToGame(m).value;
              && g.rodada == m.rodada
              && (g.atHome <==> m.timeCasa == Club)
              && (g.atHome ==> g.opponent == m.timeFora
                               && Some(g.pro) == ParseInt(m.golsCasa)
                               && Some(g.contra) == ParseInt(m.golsFora))
              && (!g.atHome ==> g.opponent == m.timeCasa
                                && Some(g.pro) == ParseInt(m.golsFora)
                                && Some(g.contra) == ParseInt(m.golsCasa))
    ensures ToGame(m).Failure? ==>
              var (own, theirs) := if m.timeCasa == Club then (m.golsCasa, m.golsFora)
                                   else (m.golsFora, m.golsCasa);
              ToGame(m).error == NotAnInteger(if ParseInt(own).None? then own else theirs)
  {
  }

  /** The played fixtures as games, in order; a goal text that is not an
      integer stops the whole report. */
  function Games(ms: seq<ClubMatch>): (r: Result<seq<Game>, GoalError>)
    ensures r.Success? <==> forall i :: 0 <= i < |PlayedMatches(ms)| ==> ToGame(PlayedMatches(ms)[i]).Success?
    ensures r.Success? ==>
              && |r.value| == |PlayedMatches(ms)|
              && forall i :: 0 <= i < |r.value| ==> r.value[i] == ToGame(PlayedMatches(ms)[i]).value
    ensures r.Failure? ==>
              exists k :: 0 <= k < |PlayedMatches(ms)| && ToGame(PlayedMatches(ms)[k]) == Failure(r.error)
                          && forall i :: 0 <= i < k ==> ToGame(PlayedMatches(ms)[i]).Success?
  {
    CollectGames(ms);
    Collect(PlayedMatches(ms), ToGame)
  }

  lemma CollectGames(ms: seq<ClubMatch>)
    ensures Collect(PlayedMatches(ms), ToGame).Success? <==>
              forall i :: 0 <= i < |PlayedMatches(ms)| ==> ToGame(PlayedMatches(ms)[i]).Success?
  {
    var played := PlayedMatches(ms);
    var f := ToGame;
    var r := Collect(played, f);
    if r.Failure? {
      var k :| 0 <= k < |played| && f(played[k]) == Failure(r.error);
      assert !ToGame(played[k]).Success?;
    } else {
      forall i | 0 <= i < |played|
        ensures ToGame(played[i]).Success?
      {
        assert f(played[i]).Success?;
      }
    }
  }

  // ---------------------------------------------------------------------
  // Goal evolution (`criar_grafico_gols`)

  datatype GoalSeries = GoalSeries(golsPro: seq<int>, golsContra: seq<int>, rodadas: seq<string>)

  /** Three index-aligned series over the played fixtures: the club's goals,
      the opponent's goals and the round title. */
  method GoalEvolution(ms: seq<ClubMatch>) returns (r: Result<GoalSeries, GoalError>)
    ensures r.Success? <==> Games(ms).Success?
    ensures r.Failure? ==> r.error == Games(ms).error
    ensures r.Success? ==>
              var played := PlayedMatches(ms);
              && |r.value.golsPro| == |played|
              && |r.value.golsContra| == |played|
              && |r.value.rodadas| == |played|
              && forall i :: 0 <= i < |played| ==>
                   && r.value.rodadas[i] == played[i].rodada
                   && (played[i].timeCasa == Club ==>
                         Some(r.value.golsPro[i]) == ParseInt(played[i].golsCasa)
                         && Some(r.value.golsContra[i]) == ParseInt(played[i].golsFora))
                   && (played[i].timeCasa != Club ==>
                         Some(r.value.golsPro[i]) == ParseInt(played[i].golsFora)
                         && Some(r.value.golsContra[i]) == ParseInt(played[i].golsCasa))
  {
    var played := PlayedMatches(ms);
    var golsPro: seq<int> := [];
    var golsContra: seq<int> := [];
    var rodadas: seq<string> := [];
    var i := 0;
    while i < |played|
      invariant 0 <= i <= |played|
      invariant |golsPro| == i && |golsContra| == i && |rodadas| == i
      invariant forall j :: 0 <= j < i ==>
                  && ToGame(played[j]).Success?
                  && golsPro[j] == ToGame(played[j]).value.pro
                  && golsContra[j] == ToGame(played[j]).value.contra
                  && rodadas[j] == played[j].rodada
    {
      var game := ToGame(played[i]);
      if game.Failure? {
        return Failure(game.error);
      }
      golsPro := golsPro + [game.value.pro];
      golsContra := golsContra + [game.value.contra];
      rodadas := rodadas + [played[i].rodada];
      i := i + 1;
    }
    forall j | 0 <= j < |played| {
      ToGameSides(played[j]);
    }
    r := Success(GoalSeries(golsPro, golsContra, rodadas));
  }

  // ---------------------------------------------------------------------
  // Outcome counts

  predicate Won(g: Game) { g.pro > g.contra }
  predicate Drew(g: Game) { g.pro == g.contra }

  function Wins(gs: seq<Game>): nat {
    if |gs| == 0 then 0 else Wins(gs[..|gs| - 1]) + (if Won(gs[|gs| - 1]) then 1 else 0)
  }

  function Draws(gs: seq<Game>): nat {
    if |gs| == 0 then 0 else Draws(gs[..|gs| - 1]) + (if Drew(gs[|gs| - 1]) then 1 else 0)
  }

  function Losses(gs: seq<Game>): nat {
    if |gs| == 0 then 0
    else Losses(gs[..|gs| - 1]) + (if !Won(gs[|gs| - 1]) && !Drew(gs[|gs| - 1]) then 1 else 0)
  }

  function SumPro(gs: seq<Game>): int {
    if |gs| == 0 then 0 else SumPro(gs[..|gs| - 1]) + gs[|gs| - 1].pro
  }

  function SumContra(gs: seq<Game>): int {
    if |gs| == 0 then 0 else SumContra(gs[..|gs| - 1]) + gs[|gs| - 1].contra
  }

  /** Every game is exactly one of a win, a draw or a loss. */
  lemma {:induction false} OutcomesPartition(gs: seq<Game>)
    ensures Wins(gs) + Draws(gs) + Losses(gs) == |gs|
  {
    if |gs| > 0 {
      OutcomesPartition(gs[..|gs| - 1]);
    }
  }

  // ---------------------------------------------------------------------
  // Per-opponent tally (`criar_grafico_performance_adversarios`)

  datatype Stats = Stats(jogos: nat, vitorias: nat, empates: nat, derrotas: nat, golsPro: int, golsContra: int)

  const NoStats := Stats(0, 0, 0, 0, 0, 0)

  /** What the tally should hold for a set of games: independent counts and
      sums over them. */
  function StatsOf(gs: seq<Game>): Stats {
    Stats(|gs|, Wins(gs), Draws(gs), Losses(gs), SumPro(gs), SumContra(gs))
  }

  /** One game added to an opponent's entry: one more game, exactly one
      outcome counter, and both goal sums. */
  function Record(s: Stats, g: Game): (t: Stats)
    ensures t.jogos == s.jogos + 1
    ensures t.vitorias + t.empates + t.derrotas == s.vitorias + s.empates + s.derrotas + 1
    ensures t.vitorias == s.vitorias + (if g.pro > g.contra then 1 else 0)
    ensures t.empates == s.empates + (if g.pro == g.contra then 1 else 0)
    ensures t.derrotas == s.derrotas + (if g.pro < g.contra then 1 else 0)
    ensures t.golsPro == s.golsPro + g.pro && t.golsContra == s.golsContra + g.contra
  {
    var s := s.(jogos := s.jogos + 1, golsPro := s.golsPro + g.pro, golsContra := s.golsContra + g.contra);
    if Won(g) then s.(vitorias := s.vitorias + 1)
    else if Drew(g) then s.(empates := s.empates + 1)
    else s.(derrotas := s.derrotas + 1)
  }

  lemma RecordExtends(gs: seq<Game>, g: Game)
    ensures Record(StatsOf(gs), g) == StatsOf(gs + [g])
  {
    assert (gs + [g])[..|gs|] == gs;
  }

  datatype Entry = Entry(opponent: string, stats: Stats)

  /** Position of `o`'s entry, or `|table|` when it has none yet. */
  function EntryIndex(table: seq<Entry>, o: string): (k: nat)
    ensures k <= |table|
    ensures k < |table| ==> table[k].opponent == o
    ensures k == |table| ==> forall i :: 0 <= i < |table| ==> table[i].opponent != o
  {
    if |table| == 0 then 0
    else if table[0].opponent == o then 0
    else
      assert forall i :: 1 <= i < |table| ==> table[1..][i - 1] == table[i];
      1 + EntryIndex(table[1..], o)
  }

  /** The dictionary update: the opponent's entry is updated in place, or a
      new entry is added at the end in first-seen order. */
  function AddGame(table: seq<Entry>, g: Game): seq<Entry> {
    var k := EntryIndex(table, g.opponent);
    if k < |table| then table[k := Entry(g.opponent, Record(table[k].stats, g))]
    else table + [Entry(g.opponent, Record(NoStats, g))]
  }

  /** The tally loop over the games, in order. */
  function Tally(gs: seq<Game>): seq<Entry> {
    if |gs| == 0 then [] else AddGame(Tally(gs[..|gs| - 1]), gs[|gs| - 1])
  }

  /** The games against opponent `o`, in order. */
  function Against(gs: seq<Game>, o: string): seq<Game> {
    if |gs| == 0 then []
    else Against(gs[..|gs| - 1], o) + (if gs[|gs| - 1].opponent == o then [gs[|gs| - 1]] else [])
  }

  predicate DistinctOpponents(table: seq<Entry>) {
    forall i, k :: 0 <= i < k < |table| ==> table[i].opponent != table[k].opponent
  }

  /** `o` has an entry in the table. */
  ghost predicate Listed(table: seq<Entry>, o: string) {
    exists i :: 0 <= i < |table| && table[i].opponent == o
  }

  /** The club met `o` in one of the games. */
  ghost predicate Met(gs: seq<Game>, o: string) {
    exists j :: 0 <= j < |gs| && gs[j].opponent == o
  }

  /** Adding a game keeps one entry per opponent and lists its opponent. */
  lemma AddGameListed(t: seq<Entry>, g: Game)
    requires DistinctOpponents(t)
    ensures DistinctOpponents(AddGame(t, g))
    ensures forall o :: Listed(AddGame(t, g), o) <==> Listed(t, o) || o == g.opponent
  {
    var k := EntryIndex(t, g.opponent);
    var u := AddGame(t, g);
    forall o
      ensures Listed(u, o) <==> Listed(t, o) || o == g.opponent
    {
      if Listed(u, o) {
        var i :| 0 <= i < |u| && u[i].opponent == o;
        if i < |t| && i != k {
          assert t[i].opponent == o;
        }
      }
      if Listed(t, o) {
        var i :| 0 <= i < |t| && t[i].opponent == o;
        assert u[i].opponent == o;
      }
      if o == g.opponent {
        if k < |t| {
          assert u[k].opponent == o;
        } else {
          assert u[|t|].opponent == o;
        }
      }
    }
  }

  lemma {:induction false} MetSnoc(gs: seq<Game>)
    requires |gs| > 0
    ensures forall o :: Met(gs, o) <==> Met(gs[..|gs| - 1], o) || gs[|gs| - 1].opponent == o
  {
    var init := gs[..|gs| - 1];
    forall o
      ensures Met(gs, o) <==> Met(init, o) || gs[|gs| - 1].opponent == o
    {
      if Met(gs, o) {
        var j :| 0 <= j < |gs| && gs[j].opponent == o;
        if j < |init| {
          assert init[j].opponent == o;
        }
      }
      if Met(init, o) {
        var j :| 0 <= j < |init| && init[j].opponent == o;
        assert gs[j].opponent == o;
      }
    }
  }

  /** The tally has exactly one entry per opponent met. */
  lemma {:induction false} TallyOpponents(gs: seq<Game>)
    ensures DistinctOpponents(Tally(gs))
    ensures forall o :: Listed(Tally(gs), o) <==> Met(gs, o)
  {
    if |gs| > 0 {
      TallyOpponents(gs[..|gs| - 1]);
      AddGameListed(Tally(gs[..|gs| - 1]), gs[|gs| - 1]);
      MetSnoc(gs);
    }
  }

  /** Without a game against `o` there is nothing against `o`. */
  lemma {:induction false} AgainstAbsent(gs: seq<Game>, o: string)
    requires !Met(gs, o)
    ensures Against(gs, o) == []
  {
    if |gs| > 0 {
      MetSnoc(gs);
      AgainstAbsent(gs[..|gs| - 1], o);
    }
  }

  /** Each entry of the tally holds exactly the counts and goal sums of the
      games against its opponent. */
  lemma {:induction false} TallyStats(gs: seq<Game>)
    ensures forall i :: 0 <= i < |Tally(gs)| ==>
              Tally(gs)[i].stats == StatsOf(Against(gs, Tally(gs)[i].opponent))
  {
    if |gs| > 0 {
      var init := gs[..|gs| - 1];
      var g := gs[|gs| - 1];
      var t := Tally(init);
      TallyStats(init);
      TallyOpponents(init);
      var k := EntryIndex(t, g.opponent);
      var u := AddGame(t, g);
      assert Tally(gs) == u;
      forall i | 0 <= i < |u|
        ensures u[i].stats == StatsOf(Against(gs, u[i].opponent))
      {
        var o := u[i].opponent;
        if o == g.opponent {
          assert Against(gs, o) == Against(init, o) + [g];
          if k < |t| {
            assert i == k;
            assert t[k].stats == StatsOf(Against(init, o));
            RecordExtends(Against(init, o), g);
            assert u[i].stats == Record(t[k].stats, g);
          } else {
            assert i == |t|;
            assert !Listed(t, o);
            AgainstAbsent(init, o);
            assert StatsOf([]) == NoStats;
            RecordExtends([], g);
            assert u[i].stats == Record(NoStats, g);
            assert Against(gs, o) == [] + [g];
          }
        } else {
          assert Against(gs, o) == Against(init, o);
          assert i < |t|;
          assert u[i] == t[i];
          assert t[i].stats == StatsOf(Against(init, o));
        }
      }
    }
  }

  /** Each opponent's entry balances: games = wins + draws + losses. */
  lemma TallyBalanced(gs: seq<Game>)
    ensures forall i :: 0 <= i < |Tally(gs)| ==>
              var s := Tally(gs)[i].stats;
              s.jogos == s.vitorias + s.empates + s.derrotas
  {
    TallyStats(gs);
    forall i | 0 <= i < |Tally(gs)|
      ensures Tally(gs)[i].stats.jogos ==
                Tally(gs)[i].stats.vitorias + Tally(gs)[i].stats.empates + Tally(gs)[i].stats.derrotas
    {
      OutcomesPartition(Against(gs, Tally(gs)[i].opponent));
    }
  }

  /** Every entry records at least one game, so the report never divides
      by zero when it turns an entry into a percentage. */
  lemma {:induction false} TallyEntriesPlayed(gs: seq<Game>)
    ensures forall i :: 0 <= i < |Tally(gs)| ==> Tally(gs)[i].stats.jogos >= 1
  {
    if |gs| > 0 {
      TallyEntriesPlayed(gs[..|gs| - 1]);
    }
  }

  /** The per-opponent table of the club's fixtures: it exists exactly when
      every played fixture's goals read as integers, and then lists each
      opponent once, with the tallies of the games against it. */
  function OpponentTable(ms: seq<ClubMatch>): (r: Result<seq<Entry>, GoalError>)
    ensures r.Success? <==> Games(ms).Success?
    ensures r.Failure? ==> r.error == Games(ms).error
    ensures r.Success? ==>
              && DistinctOpponents(r.value)
              && (forall o :: Listed(r.value, o) <==> Met(Games(ms).value, o))
              && forall i :: 0 <= i < |r.value| ==>
                   && r.value[i].stats == StatsOf(Against(Games(ms).value, r.value[i].opponent))
                   && r.value[i].stats.jogos >= 1
  {
    var gs :- Games(ms);
    TallyOpponents(gs);
    TallyStats(gs);
    TallyEntriesPlayed(gs);
    Success(Tally(gs))
  }

  // ---------------------------------------------------------------------
  // Home/away split (`criar_grafico_casa_fora`)

  datatype SideRecord = SideRecord(jogos: nat, vitorias: nat, empates: nat, derrotas: nat)

  /** The club's record at home and away. */
  datatype Sides = Sides(casa: SideRecord, fora: SideRecord)

  function RecordOf(gs: seq<Game>): SideRecord {
    SideRecord(|gs|, Wins(gs), Draws(gs), Losses(gs))
  }

  function HomeGames(gs: seq<Game>): seq<Game> {
    if |gs| == 0 then []
    else HomeGames(gs[..|gs| - 1]) + (if gs[|gs| - 1].atHome then [gs[|gs| - 1]] else [])
  }

  function AwayGames(gs: seq<Game>): seq<Game> {
    if |gs| == 0 then []
    else AwayGames(gs[..|gs| - 1]) + (if !gs[|gs| - 1].atHome then [gs[|gs| - 1]] else [])
  }

  lemma {:induction false} SidesStep(gs: seq<Game>, i: nat)
    requires i < |gs|
    ensures HomeGames(gs[..i + 1]) == HomeGames(gs[..i]) + (if gs[i].atHome then [gs[i]] else [])
    ensures AwayGames(gs[..i + 1]) == AwayGames(gs[..i]) + (if !gs[i].atHome then [gs[i]] else [])
  {
    assert gs[..i + 1][..i] == gs[..i];
  }

  /** One game added to a side's record: one more game and exactly one
      more outcome. */
  function Bump(s: SideRecord, g: Game): SideRecord {
    if Won(g) then SideRecord(s.jogos + 1, s.vitorias + 1, s.empates, s.derrotas)
    else if Drew(g) then SideRecord(s.jogos + 1, s.vitorias, s.empates + 1, s.derrotas)
    else SideRecord(s.jogos + 1, s.vitorias, s.empates, s.derrotas + 1)
  }

  /** The counts of a side grow by one game at a time. */
  lemma {:induction false} RecordOfSnoc(xs: seq<Game>, g: Game)
    ensures RecordOf(xs + [g]) == Bump(RecordOf(xs), g)
  {
    assert (xs + [g])[..|xs|] == xs;
  }

  /** The home/away loop: each game counts once, on its own side, with
      exactly one outcome on that side. */
  method TallySides(gs: seq<Game>) returns (sides: Sides)
    ensures sides.casa == RecordOf(HomeGames(gs)) && sides.fora == RecordOf(AwayGames(gs))
    ensures sides.casa.jogos + sides.fora.jogos == |gs|
    ensures sides.casa.jogos == sides.casa.vitorias + sides.casa.empates + sides.casa.derrotas
    ensures sides.fora.jogos == sides.fora.vitorias + sides.fora.empates + sides.fora.derrotas
  {
    sides := Sides(SideRecord(0, 0, 0, 0), SideRecord(0, 0, 0, 0));
    var i := 0;
    while i < |gs|
      invariant 0 <= i <= |gs|
      invariant sides.casa == RecordOf(HomeGames(gs[..i]))
      invariant sides.fora == RecordOf(AwayGames(gs[..i]))
      invariant sides.casa.jogos + sides.fora.jogos == i
    {
      var g := gs[i];
      SidesStep(gs, i);
      if g.atHome {
        RecordOfSnoc(HomeGames(gs[..i]), g);
        assert AwayGames(gs[..i + 1]) == AwayGames(gs[..i]);
        sides := sides.(casa := Bump(sides.casa, g));
      } else {
        RecordOfSnoc(AwayGames(gs[..i]), g);
        assert HomeGames(gs[..i + 1]) == HomeGames(gs[..i]);
        sides := sides.(fora := Bump(sides.fora, g));
      }
      i := i + 1;
    }
    assert gs[..i] == gs;
    OutcomesPartition(HomeGames(gs));
    OutcomesPartition(AwayGames(gs));
  }

  /** The home/away report over the club's fixtures: unplayed fixtures are
      skipped, and a goal text that is not an integer stops the report. */
  method HomeAwayReport(ms: seq<ClubMatch>) returns (r: Result<Sides, GoalError>)
    ensures r.Success? <==> Games(ms).Success?
    ensures r.Failure? ==> r.error == Games(ms).error
    ensures r.Success? ==>
              r.value == Sides(RecordOf(HomeGames(Games(ms).value)), RecordOf(AwayGames(Games(ms).value)))
  {
    var gs := Games(ms);
    if gs.Failure? {
      return Failure(gs.error);
    }
    var sides := TallySides(gs.value);
    r := Success(sides);
  }
}
