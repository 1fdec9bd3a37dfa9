# python-brasileirao in Dafny

A Dafny model of the pure logic of `python-brasileirao`. That library scrapes the Brazilian football championship's standings and fixtures, turns them into records and saves them as JSON. The model covers three parts:

- **Extraction rules** (`scrapers/parsers.py`, module `Parsers`). The model takes a parsed page and produces:
  - one `Time` per standings row;
  - one `Rodada` per round container, with its `Partida` fixtures.

  The parsed HTML is abstracted in module `Dom`. Each element records, per selector key, the node that `select_one` would find (the key is absent when nothing matches). It also records the child elements that `select` would find. Missing text and attribute fields degrade to `''`; `Dom.GetText` and `Dom.GetAttr` define the two helpers that do this. The mandatory fields (the round's `data-date`, the fixture's team meta `content`) and malformed values fail with a `ParseError`. That error stands for the exception the Python code raises.
- **Conversion and formatting** (`src/utils.py`, module `Utils`).
  - `DataConverter` is modelled as functions into a small JSON datatype. An object is an ordered list of key/value pairs, as a Python dict keeps insertion order. Each conversion is paired with a reader. Round-trip lemmas show that the saved shape loses nothing, apart from the one documented exception.
  - From `FormatUtils`, the model covers `format_saldo_gols` and the integer and fallback branches of `format_aproveitamento`.
- **The club report's tallies** (`scripts/analise_visual_remo.py`, module `ClubAnalysis`). The model covers:
  - selecting the club's fixtures and the club's standings row;
  - the goal-evolution series;
  - the per-opponent tally;
  - the home/away split.

  Each tally is connected to an independent reference count over the games.

Records (`src/models.py`) are the datatypes of module `Models`. Module `Results` defines `Option`, `Result` and `Collect`, which is "map in order and stop at the first exception". Module `Text` models the Python string operations the code relies on:
- `str.strip()` with Python's whitespace set;
- `str.split` on one character, and `join`;
- substring `in`;
- `int()` and `str()` on integers.

Three behaviours of the code that a reader might not expect, which the model keeps:
- **A round's date.** The date is taken from the text before the first space, split on `-`. So `"2025-09-09 15:00:00"` becomes `"09/09/2025"`. But the ISO form `"2025-09-09T15:00:00"` becomes `"09T15:00:00/09/2025"`, with the time left in the day part (`Parsers.IsoTimestampKeepsTime`).
- **Team names.** The two names are found by splitting the label on every lower-case `x`, not on the `" x "` separator. A team whose name contains an `x` therefore cannot be extracted (`Parsers.NameWithXFails`).
- **Selecting the club's fixtures.** The club's fixtures are those whose raw label contains `Remo` as a substring, exactly as the script tests it.

## Model

| member | source | states |
|---|---|---|
| Dom.GetTextShape | scrapers/parsers.py:46-48 | a text field is `''` when the selector finds no node; otherwise it is the node's text with only surrounding whitespace removed, so the text is the field between a whitespace-only prefix and suffix, and the field has no whitespace at either end |
| Parsers.ParseRow | scrapers/parsers.py:54-67 | `nome` comes from `title` and `escudo` from `src`, the nine counters are stripped texts, and `aproveitamento` always ends in `%`, its prefix being the stripped text, so a missing cell gives exactly `"%"` |
| Parsers.ParseStandings | scrapers/parsers.py:27-38 | one `Time` per row, in page order; no rows gives an empty table |
| Parsers.FirstWord | scrapers/parsers.py:110 | `split(" ")[0]` is the prefix up to the first space (the whole text when there is none) and contains no space |
| Parsers.ParseStartDate | scrapers/parsers.py:109-122 | fails with the part count exactly when the first word does not split on `-` into three parts; otherwise the first word is `ano-mes-dia` and the result is `dia/mes/ano` |
| Parsers.StartDateOfWellFormed | scrapers/parsers.py:109-122 | conversely, any `ano-mes-dia` date, optionally followed by a space and more text, gives `dia/mes/ano` |
| Parsers.IsoTimestampKeepsTime | scrapers/parsers.py:110-111 | `2025-09-09T15:00:00` gives `09T15:00:00/09/2025`: the time stays in the day part |
| Parsers.SpacedTimestampDropsTime | scrapers/parsers.py:110-111 | `2025-09-09 15:00:00` gives `09/09/2025` |
| Parsers.ParseMatch | scrapers/parsers.py:140-170 | fails when the meta node or its `content` is missing; otherwise succeeds exactly when the label has one `x`, else fails with the part count; on success `partida` is the raw label `casa + "x" + fora`, the names are the stripped sides, the other fields are stripped texts or `''`, and the result text is the plain interpolation |
| Parsers.MatchNamesFromLabel | scrapers/parsers.py:146-147 | a label with one `x`, padded with any whitespace around either name, yields exactly those two names |
| Parsers.PlainLabelSplits | scrapers/parsers.py:147 | `Flamengo x Vasco` yields `Flamengo` and `Vasco` |
| Parsers.ThreeWayLabelFails | scrapers/parsers.py:147 | `Avai x Vasco x Extra` splits into four parts and fails |
| Parsers.NameWithXFails | scrapers/parsers.py:147 | `Mixto x Remo` splits into three parts and fails |
| Parsers.UnplayedResultText | scrapers/parsers.py:169 | a missing away score leaves two spaces: `TeamA 2 x  TeamB` |
| Parsers.ParseMatches | scrapers/parsers.py:128-137 | all fixtures in page order, or the first fixture's failure |
| Parsers.ParseRound | scrapers/parsers.py:103-125 | succeeds exactly when the date anchor carries `data-date`, that date converts and every fixture parses; otherwise it fails with `MissingRoundDate` when the anchor or attribute is missing, else with the date's error, else with exactly the first failing fixture's error; on success the start date is the converted date, the current flag holds exactly when `round` is a class, the title is the stripped text or `''`, and the fixtures are those of `ParseMatches` |
| Parsers.ParseRounds | scrapers/parsers.py:86-97 | all rounds in page order, or the first failing round's error |
| Text.StripTrimmed | scrapers/parsers.py:48 | what `strip()` returns has no whitespace at either end |
| Text.StripShape | scrapers/parsers.py:48 | `strip()` removes only whitespace and only at the ends: the input is the result between a whitespace-only prefix and suffix |
| Text.StripPadded | scrapers/parsers.py:147 | stripping a trimmed text padded with whitespace gives back that text |
| Text.SplitShape | scrapers/parsers.py:110 | `split(c)` gives one more part than there are `c`s, no part contains `c`, and joining the parts with `c` gives back the input |
| Text.SplitJoin | scrapers/parsers.py:147 | splitting the join of parts free of `c` gives back the parts |
| Text.ContainsIffOccurs | scripts/analise_visual_remo.py:41 | substring `in` holds exactly when the needle occurs at some position |
| Text.NatToString | src/utils.py:165 | `str(n)` of a natural number is a canonical numeral (digits, no leading zero unless it is `0`) whose value is `n`; it starts with `0` exactly when `n` is zero |
| Text.IntToString | src/utils.py:165 | `str(n)` reads back as `n`; for negative `n` it is `-` followed by a canonical numeral, otherwise a canonical numeral |
| Text.CanonicalIsNatToString | src/utils.py:165 | every canonical numeral is exactly what `str()` prints for its value, so the canonical clauses above fix the text, not only its value |
| Text.PlusSignedRoundTrip | src/utils.py:163 | `"+" + str(n)` reads back as `n` |
| Utils.StringFieldsRoundTrip | src/utils.py:60-89 | a flat dictionary of string values under distinct keys reads back, key by key, as exactly those values |
| Utils.TimeToDict | src/utils.py:60-75 | the twelve keys in declaration order, and reading the dictionary back gives the same `Time` |
| Utils.PartidaToDict | src/utils.py:78-89 | the eight keys in declaration order, and reading the dictionary back gives the same `Partida` |
| Utils.PartidasToJson | src/utils.py:98 | fixtures converted one by one, same length and order |
| Utils.PartidasRoundTrip | src/utils.py:98 | a converted fixture list reads back as the same list |
| Utils.RodadaToDict | src/utils.py:92-99 | the four keys in order; the fixtures array is element-wise `partida_to_dict`; reading back gives the same `Rodada` |
| Utils.TimesToJson | src/utils.py:104 | teams converted one by one, same length and order |
| Utils.TimesRoundTrip | src/utils.py:104 | a converted team list reads back as the same list |
| Utils.TabelaToDict | src/utils.py:102-104 | a list of the same length and order as the table, element-wise `time_to_dict`, which reads back as the same table |
| Utils.RodadasToJson | src/utils.py:114 | rounds converted one by one, same length and order |
| Utils.RodadasRoundTrip | src/utils.py:114 | a converted round list reads back as the same list |
| Utils.DadosToDict | src/utils.py:107-116 | `tabela` is always the first key; `rodadas` is present exactly when the rounds are present and non-empty |
| Utils.DadosRoundTrip | src/utils.py:107-116 | reading back gives the same snapshot, except that an empty round list comes back as no round list |
| Utils.FormatSaldoGols | src/utils.py:146-167 | when both inputs are integers the result reads back as their difference; a positive difference is `+` followed by a canonical numeral, a negative one `-` followed by a canonical numeral, and zero is exactly `"0"`; when either input is not an integer, `"0"` |
| Utils.SaldoOfRenderedTotals | src/utils.py:157-165 | formatting two rendered integers reads back as their difference |
| Utils.FormatAproveitamento | src/utils.py:122-143 | the `"0%"` fallback exactly when an input is not an integer or `jogos` is zero; otherwise the computed branch over the two parsed integers |
| Utils.AproveitamentoOfRenderedTotals | src/utils.py:133-141 | rendered totals reach the computed branch exactly when `jogos` is not zero |
| ClubAnalysis.SelectInRoundMembers | scripts/analise_visual_remo.py:40-52 | within a round, a copied record is selected exactly when it copies a fixture whose label mentions the club |
| ClubAnalysis.ClubMatchesMembers | scripts/analise_visual_remo.py:38-52 | a record is selected exactly when it is the copy, with its round title, of some fixture of some round whose label contains `Remo` |
| ClubAnalysis.CollectClubMatches | scripts/analise_visual_remo.py:38-52 | the nested selection loop produces the selected copies in round order, then fixture order |
| ClubAnalysis.FindClubRow | scripts/analise_visual_remo.py:31-35 | the first standings row named `Remo`, and none exactly when no row has that name |
| ClubAnalysis.PlayedMatchesMembers | scripts/analise_visual_remo.py:92 | keeps exactly the fixtures with both goal texts non-empty |
| ClubAnalysis.ToGameSides | scripts/analise_visual_remo.py:156-163 | the club is at home exactly when the home team is `Remo`; the opponent is then the away team and the club's goals the home goals, and the reverse otherwise; a goal text that is not an integer fails, the club's own text being read first |
| ClubAnalysis.Games | scripts/analise_visual_remo.py:151-163 | the played fixtures as games, in order, or the first fixture whose goals do not read as integers |
| ClubAnalysis.GoalEvolution | scripts/analise_visual_remo.py:92-106 | the series exist exactly when the games do, failing otherwise with their error; the three series have one index-aligned entry per played fixture: the round title, the club's goals and the opponent's goals chosen by side |
| ClubAnalysis.Record | scripts/analise_visual_remo.py:175-184 | one game adds one to `jogos`; it adds one to wins when the club scored more, to draws when the scores are equal, to losses when it scored less, and leaves the other two counters alone; it adds its goals to both goal sums |
| ClubAnalysis.RecordExtends | scripts/analise_visual_remo.py:175-184 | recording a game on the counts of a list of games gives the counts of the extended list |
| ClubAnalysis.OutcomesPartition | scripts/analise_visual_remo.py:179-184 | every game is exactly one of a win, a draw or a loss |
| ClubAnalysis.AddGameListed | scripts/analise_visual_remo.py:165-173 | adding a game keeps one entry per opponent and lists exactly the old opponents plus the game's opponent |
| ClubAnalysis.TallyOpponents | scripts/analise_visual_remo.py:151-173 | the tally has one entry per opponent, and an opponent has an entry exactly when the club played it |
| ClubAnalysis.TallyStats | scripts/analise_visual_remo.py:151-184 | each entry's games, wins, draws, losses and goal sums equal those counted over the games against that opponent alone |
| ClubAnalysis.TallyBalanced | scripts/analise_visual_remo.py:175-184 | per opponent, games = wins + draws + losses |
| ClubAnalysis.TallyEntriesPlayed | scripts/analise_visual_remo.py:191-192 | every entry has at least one game, so the later percentage never divides by zero |
| ClubAnalysis.OpponentTable | scripts/analise_visual_remo.py:149-184 | the table exists exactly when the games do, failing otherwise with their error; it then lists each opponent once, an opponent has an entry exactly when the club played it, and each entry holds the counts of the games against it |
| ClubAnalysis.SidesStep | scripts/analise_visual_remo.py:242-249 | each game joins exactly one side: home when the club is the home team, away otherwise |
| ClubAnalysis.RecordOfSnoc | scripts/analise_visual_remo.py:251-265 | one more game on a side adds one game and exactly one outcome on that side |
| ClubAnalysis.TallySides | scripts/analise_visual_remo.py:237-265 | the home and away records equal the counts over the home and away games; their games add up to all games; on each side games = wins + draws + losses |
| ClubAnalysis.HomeAwayReport | scripts/analise_visual_remo.py:234-265 | over the club's fixtures, the split exists exactly when the games do, and then holds the home and away counts |

## Left out

- `scrapers/http_client.py`: network I/O, the random User-Agent and the `requests` error types. These are foreign calls.
- CSS selector matching and HTML parsing (BeautifulSoup `select` and `select_one`). Their results are inputs: an element carries, per selector key, the node a selector finds.
- `scrapers/config.py`: the URLs and the selector strings. The selector keys are the enumerations `Dom.TableField` and `Dom.RoundField`.
- `src/brasileirao.py`: the HTTP orchestration, the wrapping of exceptions into `{'erro': ...}`, and the session lifetime.
- Exception messages, including the `"Erro ao fazer parsing ..."` re-wrapping in `parse_tabela` and `parse_rodadas`. An error is a `ParseError` or `GoalError` value naming the failing step, not a message.
- `JSONUtils`, and the file reading in `carregar_dados_remo`. These are file I/O. The club report is modelled over the decoded `Rodada` and `Time` records, which is the shape those files were written from.
- Floating-point percentages and their `:.0f` and `:.1f` rounding, as used in the club report's per-opponent and home/away percentages and its colour thresholds.
- Utils.FormatAproveitamento: returns the computed branch's parsed integers instead of the rounded percentage text, because that text needs floating point.
- Plotly figures, dashboard assembly and `salvar_graficos`. Also the CLI scripts `coletar_dados.py` and `coletar_serie_b.py`, and the `__init__.py` re-exports.
- `criar_grafico_performance_geral`. It only feeds `int()` of three standings fields into a pie chart.
- Text.ParseInt: accepts only an optional `+` or `-` sign followed by ASCII digits. Python's `int()` also accepts surrounding whitespace, underscores between digits and non-ASCII digits. The scraped texts are already stripped.
- `str.strip()` covers the whitespace characters Python recognises. No Unicode normalisation or case folding is involved anywhere in the code.
