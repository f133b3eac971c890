/** The client's operations: list their own TEDs, request a TED, cancel one. A
    request that passes its rules is stored in any case; it is submitted for
    settlement and stored as approved only when the day's limits allow it and its
    schedule falls inside the configured settlement window. */
module ClienteService {
  import opened Wrappers
  import opened Calendar
  import opened Errors
  import opened Entities
  import opened Dtos
  import opened TedStore
  import opened TedQueries
  import opened Lifecycle
  import opened Paging
  import opened Settlement
  import opened ClienteRepository
  import Request = ClienteTedRequestValidator
  import QueryValidators

  const InvalidIdMessage: string := "O Id não é válido"
  const MissingTedMessage: string := "não existe Ted com o Id informado."
  const InvalidClienteIdMessage: string := "O ClienteId não é válido"

  /** `VerificaLimiteTedDoDiaAsync`: whether a new transfer of `valor` breaks a cap,
      given the client's transfers scheduled for today: the count cap is already
      reached, the day's total would pass the daily value cap, or the value alone
      passes the per-transfer cap. */
  predicate ExceedsLimit(hoje: seq<Ted>, valor: real, limite: LimiteTed)
  {
    || |hoje| >= limite.quantidadeMaximaDia
    || SumValues(hoje) + valor > limite.valorMaximoDia
    || valor > limite.valorMaximoPorSaque
  }

  /** The settlement window test on the full schedule timestamp. */
  predicate InWindow(t: DateTime, inicio: DateTime, fim: DateTime)
  {
    Le(inicio, t) && Le(t, fim)
  }

  /** The entity the mapper builds from a request at time `now`: a new row in
      process, stamped `now`, with no id, reason or confirmation yet. */
  function MapToTed(dto: ClienteTedRequestDto, now: DateTime): (t: Ted)
    ensures t.id == 0 && t.status == InProcess && t.criadoEm == now && t.atualizadoEm == now
    ensures t.motivoReprovacao.None? && t.sinacorConfirmacaoId.None?
    ensures t.clienteId == dto.clienteId && t.nomeCliente == dto.nomeCliente
    ensures t.dataAgendamento == dto.dataAgendamento && t.valorSolicitado == dto.valorSolicitado
    ensures t.numeroAgencia == dto.numeroAgencia && t.numeroConta == dto.numeroConta
    ensures t.digitoConta == dto.digitoConta && t.numeroBanco == dto.numeroBanco && t.nomeBanco == dto.nomeBanco
  {
    Ted(0, now, now, InProcess, dto.clienteId, dto.nomeCliente, dto.dataAgendamento,
        dto.valorSolicitado, dto.numeroAgencia, dto.numeroConta, dto.digitoConta,
        dto.numeroBanco, dto.nomeBanco, None, None)
  }

  /** What `SolicitaTedAsync` decides before the insert, on the tables `teds` and
      `limites`, at time `now`, with settlement window `inicio`..`fim` and the
      settlement side answering `reply`: the row to insert, or the error raised. */
  function Submission(teds: seq<Ted>, limites: seq<LimiteTed>, dto: ClienteTedRequestDto, now: DateTime,
                      inicio: DateTime, fim: DateTime, reply: Result<Option<string>, Error>): (r: Result<Ted, Error>)
    requires ValidDateTime(now) && ValidDateTime(dto.dataAgendamento)
    ensures !Request.IsValid(dto, now) ==> r == Failure(FromValidation(Request.Messages(dto, now)))
    ensures r.Success? ==> Request.IsValid(dto, now) && limites != []
    ensures r.Success? ==> r.value.status in {InProcess, Approved}
    ensures r.Success? ==> r.value.(status := InProcess, sinacorConfirmacaoId := None) == MapToTed(dto, now)
  {
    if !Request.IsValid(dto, now) then Failure(FromValidation(Request.Messages(dto, now)))
    else match FirstLimit(limites)
      case Failure(e) => Failure(e)
      case Success(limite) =>
        var ted := MapToTed(dto, now);
        var hoje := TodaysTeds(teds, dto.clienteId, now.date);
        if !ExceedsLimit(hoje, dto.valorSolicitado, limite) && InWindow(ted.dataAgendamento, inicio, fim) then
          match SendToSinacor(BuildRequest(ted, NextLancamentoId(teds)), now.date, reply)
          case Failure(e) => Failure(e)
          case Success(confirmacao) => Success(ted.(sinacorConfirmacaoId := confirmacao, status := Approved))
        else Success(ted)
  }

  /** A valid request, with a limit row and the settlement side answering, is
      stored; it is approved, with the confirmation id it was given, exactly when
      no cap is broken and its schedule is inside the window, and otherwise stays
      in process without a confirmation. */
  lemma ApprovedIffWithinLimitsAndWindow(teds: seq<Ted>, limites: seq<LimiteTed>, dto: ClienteTedRequestDto,
                                         now: DateTime, inicio: DateTime, fim: DateTime, confirmacao: Option<string>)
    requires ValidDateTime(now) && ValidDateTime(dto.dataAgendamento)
    requires Request.IsValid(dto, now) && limites != []
    ensures var r := Submission(teds, limites, dto, now, inicio, fim, Success(confirmacao));
      && r.Success?
      && (r.value.status == Approved <==>
            !ExceedsLimit(TodaysTeds(teds, dto.clienteId, now.date), dto.valorSolicitado, limites[0])
            && InWindow(dto.dataAgendamento, inicio, fim))
      && (r.value.status == Approved ==> r.value.sinacorConfirmacaoId == confirmacao)
      && (r.value.status != Approved ==> r.value == MapToTed(dto, now))
  {
    var ted := MapToTed(dto, now);
    var r := Submission(teds, limites, dto, now, inicio, fim, Success(confirmacao));
    if !ExceedsLimit(TodaysTeds(teds, dto.clienteId, now.date), dto.valorSolicitado, limites[0])
       && InWindow(dto.dataAgendamento, inicio, fim) {
      var payload := BuildRequest(ted, NextLancamentoId(teds));
      Request.ValidIff(dto, now);
      PayloadOfValidTedPasses(ted, NextLancamentoId(teds), now.date);
      assert SendToSinacor(payload, now.date, Success(confirmacao)) == Success(confirmacao);
      assert r == Success(ted.(sinacorConfirmacaoId := confirmacao, status := Approved));
    } else {
      assert r == Success(ted);
    }
  }

  /** When the request is eligible but the settlement side raises, that error is
      what the request raises, and nothing is inserted. */
  lemma SettlementErrorPropagates(teds: seq<Ted>, limites: seq<LimiteTed>, dto: ClienteTedRequestDto,
                                  now: DateTime, inicio: DateTime, fim: DateTime, e: Error)
    requires ValidDateTime(now) && ValidDateTime(dto.dataAgendamento)
    requires Request.IsValid(dto, now) && limites != []
    requires !ExceedsLimit(TodaysTeds(teds, dto.clienteId, now.date), dto.valorSolicitado, limites[0])
    requires InWindow(dto.dataAgendamento, inicio, fim)
    ensures Submission(teds, limites, dto, now, inicio, fim, Failure(e)) == Failure(e)
  {
    Request.ValidIff(dto, now);
    PayloadOfValidTedPasses(MapToTed(dto, now), NextLancamentoId(teds), now.date);
  }

  /** A valid request with no limit row raises the repository's error. */
  lemma MissingLimitRowFails(teds: seq<Ted>, dto: ClienteTedRequestDto, now: DateTime,
                             inicio: DateTime, fim: DateTime, reply: Result<Option<string>, Error>)
    requires ValidDateTime(now) && ValidDateTime(dto.dataAgendamento)
    requires Request.IsValid(dto, now)
    ensures Submission(teds, [], dto, now, inicio, fim, reply) == Failure(Exception(NoLimitMessage))
  {
  }

  /** With a window that ends today, a transfer scheduled for a later day is never
      approved on request. */
  lemma LaterDayNeverApproved(teds: seq<Ted>, limites: seq<LimiteTed>, dto: ClienteTedRequestDto,
                              now: DateTime, inicio: DateTime, fim: DateTime, reply: Result<Option<string>, Error>)
    requires ValidDateTime(now) && ValidDateTime(dto.dataAgendamento)
    requires fim.date == now.date
    requires DateLe(now.date, dto.dataAgendamento.date) && now.date != dto.dataAgendamento.date
    ensures var r := Submission(teds, limites, dto, now, inicio, fim, reply);
      r.Success? ==> r.value.status == InProcess
  {
    LaterDayIsLater(fim, dto.dataAgendamento);
  }

  /** With a window inside today, an approved transfer leaves the client's transfers
      scheduled for today, itself included, within all three caps. */
  lemma ApprovalKeepsTheDayWithinCaps(teds: seq<Ted>, limites: seq<LimiteTed>, dto: ClienteTedRequestDto,
                                      now: DateTime, inicio: DateTime, fim: DateTime,
                                      reply: Result<Option<string>, Error>, id: int)
    requires ValidDateTime(now) && ValidDateTime(dto.dataAgendamento)
    requires inicio.date == now.date && fim.date == now.date
    requires var r := Submission(teds, limites, dto, now, inicio, fim, reply);
      r.Success? && r.value.status == Approved
    ensures var saved := Submission(teds, limites, dto, now, inicio, fim, reply).value.(id := id);
      var hoje := TodaysTeds(teds + [saved], dto.clienteId, now.date);
      && |hoje| <= limites[0].quantidadeMaximaDia
      && SumValues(hoje) <= limites[0].valorMaximoDia
      && saved.valorSolicitado <= limites[0].valorMaximoPorSaque
  {
    var saved := Submission(teds, limites, dto, now, inicio, fim, reply).value.(id := id);
    DateLeTotal(now.date, dto.dataAgendamento.date);
    assert saved.dataAgendamento.date == now.date;
    TodaysTedsAppend(teds, dto.clienteId, now.date, saved);
    SumAppend(TodaysTeds(teds, dto.clienteId, now.date), saved);
  }

  class ClienteTedService {
    const repository: ClienteTedRepository
    /** The settlement window from configuration. */
    const horarioInicio: DateTime
    const horarioFim: DateTime

    constructor(repository: ClienteTedRepository, horarioInicio: DateTime, horarioFim: DateTime)
      ensures this.repository == repository
      ensures this.horarioInicio == horarioInicio && this.horarioFim == horarioFim
    {
      this.repository := repository;
      this.horarioInicio := horarioInicio;
      this.horarioFim := horarioFim;
    }

    /** A client's page of their own TEDs, or the error for a bad client id or bad
        query parameters. */
    method ObtemListaTed(clienteId: int, q: ClienteTedQueryParameters) returns (r: Result<PagedResponse<Ted>, Error>)
      ensures clienteId <= 0 ==> r == Failure(ValidationError([InvalidClienteIdMessage]))
      ensures clienteId > 0 && QueryValidators.ValidateCliente(q) != [] ==>
        r == Failure(FromValidation(QueryValidators.ClienteMessages(q)))
      ensures clienteId > 0 && QueryValidators.ValidateCliente(q) == [] ==>
        var all := ClienteList(repository.context.teds, clienteId, q);
        r == Success(NewPagedResponse(Page(all, q.numeroPagina, q.quantidadeItensPagina), |all|,
                                      q.numeroPagina, q.quantidadeItensPagina))
      ensures r.Success? ==> forall t :: t in r.value.items ==> t in repository.context.teds && t.clienteId == clienteId
    {
      if clienteId <= 0 {
        return Failure(ValidationError([InvalidClienteIdMessage]));
      }
      if QueryValidators.ValidateCliente(q) != [] {
        return Failure(FromValidation(QueryValidators.ClienteMessages(q)));
      }
      var items, totalItems := repository.ObtemListaTed(clienteId, q);
      r := Success(NewPagedResponse(items, totalItems, q.numeroPagina, q.quantidadeItensPagina));
    }

    /** `SolicitaTedAsync`: on success the decided row is inserted under the next
        identity value and returned; on any error nothing is stored. */
    method SolicitaTed(dto: ClienteTedRequestDto, now: DateTime, reply: Result<Option<string>, Error>)
      returns (r: Result<Ted, Error>)
      requires repository.context.Valid() && ValidDateTime(now) && ValidDateTime(dto.dataAgendamento)
      modifies repository.context
      ensures repository.context.Valid()
      ensures var decided := Submission(old(repository.context.teds), old(repository.context.limites),
                                        dto, now, horarioInicio, horarioFim, reply);
        && (decided.Failure? ==> r == decided && repository.context.teds == old(repository.context.teds)
                                 && repository.context.lastIdentity == old(repository.context.lastIdentity))
        && (decided.Success? ==>
              && r == Success(decided.value.(id := old(repository.context.lastIdentity) + 1))
              && repository.context.teds == old(repository.context.teds) + [r.value]
              && repository.context.lastIdentity == old(repository.context.lastIdentity) + 1)
      ensures repository.context.limites == old(repository.context.limites)
    {
      ghost var last0 := repository.context.lastIdentity;
      ghost var decided := Submission(repository.context.teds, repository.context.limites,
                                      dto, now, horarioInicio, horarioFim, reply);
      var ted := DecideTed(dto, now, reply);
      assert ted == decided;
      if ted.Failure? {
        return ted;
      }
      var saved := repository.SolicitaTed(ted.value);
      assert saved == decided.value.(id := last0 + 1);
      r := Success(saved);
    }

    /** Everything `SolicitaTedAsync` does before the insert: validation, mapping,
        the limit check, the window test and, for an eligible request, the
        settlement submission. Reads the tables and changes nothing. */
    method DecideTed(dto: ClienteTedRequestDto, now: DateTime, reply: Result<Option<string>, Error>)
      returns (r: Result<Ted, Error>)
      requires ValidDateTime(now) && ValidDateTime(dto.dataAgendamento)
      ensures r == Submission(repository.context.teds, repository.context.limites, dto, now, horarioInicio, horarioFim, reply)
    {
      if !Request.IsValid(dto, now) {
        return Failure(FromValidation(Request.Messages(dto, now)));
      }
      var ted := MapToTed(dto, now);
      var limiteTed := VerificaLimiteTedDoDia(dto, now);
      if limiteTed.Failure? {
        return Failure(limiteTed.error);
      }
      if !limiteTed.value && InWindow(ted.dataAgendamento, horarioInicio, horarioFim) {
        var lancamentoId := repository.ObtemLancamentoIdTed();
        var sent := SendToSinacor(BuildRequest(ted, lancamentoId), now.date, reply);
        if sent.Failure? {
          return Failure(sent.error);
        }
        ted := ted.(sinacorConfirmacaoId := sent.value, status := Approved);
      }
      r := Success(ted);
    }

    /** The private limit check: the limit row's absence raises; otherwise whether
        the request would break a cap, given the client's transfers for today. */
    method VerificaLimiteTedDoDia(dto: ClienteTedRequestDto, now: DateTime) returns (r: Result<bool, Error>)
      ensures repository.context.limites == [] ==> r == Failure(Exception(NoLimitMessage))
      ensures repository.context.limites != [] ==>
        r == Success(ExceedsLimit(TodaysTeds(repository.context.teds, dto.clienteId, now.date),
                                  dto.valorSolicitado, repository.context.limites[0]))
    {
      var limite := repository.ObtemLimiteTed();
      if limite.Failure? {
        return Failure(limite.error);
      }
      var tedsHoje := repository.VerificaLimiteTedDoDia(dto.clienteId, now);
      if |tedsHoje| >= limite.value.quantidadeMaximaDia {
        return Success(true);
      }
      if SumValues(tedsHoje) + dto.valorSolicitado > limite.value.valorMaximoDia {
        return Success(true);
      }
      if dto.valorSolicitado > limite.value.valorMaximoPorSaque {
        return Success(true);
      }
      return Success(false);
    }

    /** `CancelaTedAsync`: a bad id and a missing row are refused here; otherwise
        the repository's guarded cancellation runs. */
    method CancelaTed(id: int, now: DateTime) returns (outcome: Outcome)
      requires repository.context.Valid()
      modifies repository.context
      ensures repository.context.Valid()
      ensures id <= 0 ==> outcome == Raised(ValidationError([InvalidIdMessage]))
      ensures id > 0 && FindById(old(repository.context.teds), id).None? ==>
        outcome == Raised(Exception(MissingTedMessage))
      ensures id <= 0 || FindById(old(repository.context.teds), id).None? ==>
        repository.context.teds == old(repository.context.teds)
      ensures id > 0 && FindById(old(repository.context.teds), id).Some? ==>
        Step(outcome, repository.context.teds) == Transition(old(repository.context.teds), id, Cancel, now)
      ensures repository.context.limites == old(repository.context.limites)
      ensures repository.context.lastIdentity == old(repository.context.lastIdentity)
    {
      if id <= 0 {
        return Raised(ValidationError([InvalidIdMessage]));
      }
      var ted := repository.ObtemTedPeloId(id);
      if ted.None? {
        return Raised(Exception(MissingTedMessage));
      }
      outcome := repository.CancelaTed(id, now);
    }
  }
}
