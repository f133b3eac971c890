/** The persisted entities: a TED (wire-transfer request) and the global limit row,
    and the status a TED is in. */
module Entities {
  import opened Wrappers
  import opened Calendar

  /** `StatusEnum`: a TED starts `InProcess`; the other three are terminal. */
  datatype Status = InProcess | Approved | Canceled | Disapproved

  /** The underlying integer of each enum member (declaration order). */
  function StatusCode(s: Status): (n: int)
    ensures 0 <= n <= 3
  {
    match s
    case InProcess => 0
    case Approved => 1
    case Canceled => 2
    case Disapproved => 3
  }

  /** The member an integer names, when it names one (`Enum.IsDefined`). */
  function StatusOfCode(n: int): (r: Option<Status>)
    ensures r.Some? <==> 0 <= n <= 3
    ensures r.Some? ==> StatusCode(r.value) == n
  {
    if n == 0 then Some(InProcess)
    else if n == 1 then Some(Approved)
    else if n == 2 then Some(Canceled)
    else if n == 3 then Some(Disapproved)
    else None
  }

  /** Every member is found again from its integer. */
  lemma StatusCodeRoundTrip(s: Status)
    ensures StatusOfCode(StatusCode(s)) == Some(s)
  {
  }

  /** A row of the `Ted` table. `id`, `criadoEm` and `atualizadoEm` come from the
      base entity; `motivoReprovacao` and `sinacorConfirmacaoId` are nullable. */
  datatype Ted = Ted(
    id: int,
    criadoEm: DateTime,
    atualizadoEm: DateTime,
    status: Status,
    clienteId: int,
    nomeCliente: string,
    dataAgendamento: DateTime,
    valorSolicitado: real,
    numeroAgencia: string,
    numeroConta: string,
    digitoConta: string,
    numeroBanco: string,
    nomeBanco: string,
    motivoReprovacao: Option<string>,
    sinacorConfirmacaoId: Option<string>)

  /** The row of the `LimiteTed` table: daily value cap, daily count cap and the
      cap on a single transfer, shared by every client. */
  datatype LimiteTed = LimiteTed(
    id: int,
    valorMaximoDia: real,
    quantidadeMaximaDia: int,
    valorMaximoPorSaque: real)
}
