/** The records the scraper produces. Every field the site shows as a number
    is kept as the text it was scraped as. */
module Models {
  import opened Results

  /** One team's row in the standings table. */
  datatype Time = Time(
    nome: string,
    escudo: string,
    posicao: string,
    pontos: string,
    jogos: string,
    vitorias: string,
    empates: string,
    derrotas: string,
    golsPro: string,
    golsContra: string,
    saldoGols: string,
    aproveitamento: string)

  /** One fixture: the raw "home x away" label, date, venue, both team names,
      both goal texts (empty when unplayed) and the display result. */
  datatype Partida = Partida(
    partida: string,
    data: string,
    local: string,
    timeCasa: string,
    timeFora: string,
    golsCasa: string,
    golsFora: string,
    resultadoTexto: string)

  /** One round: its title, its start date as `dia/mes/ano`, whether it is
      the current round, and its fixtures in page order. */
  datatype Rodada = Rodada(
    rodada: string,
    inicio: string,
    rodadaAtual: bool,
    partidas: seq<Partida>)

  /** The standings, in page order (which is rank order). */
  datatype TabelaClassificacao = TabelaClassificacao(times: seq<Time>)

  /** The snapshot handed to serialisation; the rounds are optional and
      absent unless requested. */
  datatype DadosBrasileirao = DadosBrasileirao(
    tabela: TabelaClassificacao,
    rodadas: Option<seq<Rodada>>)

}
