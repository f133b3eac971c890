/** The request records callers send and the query parameters of the two list
    endpoints. Strings a caller may leave null are modelled as "" wherever every
    rule treats null and "" alike. */
module Dtos {
  import opened Wrappers
  import opened Calendar

  /** A client's transfer request. */
  datatype ClienteTedRequestDto = ClienteTedRequestDto(
    clienteId: int,
    nomeCliente: string,
    dataAgendamento: DateTime,
    valorSolicitado: real,
    numeroAgencia: string,
    numeroConta: string,
    digitoConta: string,
    numeroBanco: string,
    nomeBanco: string)

  /** An administrator's new limits. */
  datatype LimiteTedRequestDto = LimiteTedRequestDto(
    valorMaximoDia: real,
    quantidadeMaximaDia: int,
    valorMaximoPorSaque: real)

  /** The optional body of a rejection. */
  datatype AdminTedRequestDto = AdminTedRequestDto(motivoReprovacao: Option<string>)

  /** Query parameters of the client list. `status` is the raw integer bound from the
      query string, which need not name a member of the enum. */
  datatype ClienteTedQueryParameters = ClienteTedQueryParameters(
    dataInicio: Option<DateTime>,
    dataFim: Option<DateTime>,
    status: Option<int>,
    numeroPagina: int,
    quantidadeItensPagina: int)

  /** The admin list adds client id, client name and bank name filters to the
      client list's parameters. */
  datatype AdminTedQueryParameters = AdminTedQueryParameters(
    common: ClienteTedQueryParameters,
    clienteId: Option<int>,
    nomeCliente: Option<string>,
    nomeBanco: Option<string>)
}
