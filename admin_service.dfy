/** The administrator's operations: list TEDs with the wider filters, approve a TED
    (submitting it for settlement first), reject one, update and read the limits.
    The approval builds and submits the settlement entry for any TED that exists,
    whatever its status; the status guard runs afterwards, in the repository. */
module AdminService {
  import opened Wrappers
  import opened Calendar
  import opened Errors
  import opened Entities
  import opened Dtos
  import opened SinacorDto
  import opened TedStore
  import opened TedQueries
  import opened Lifecycle
  import opened Paging
  import opened Settlement
  import opened AdminRepository
  import LimiteTedRequestValidator
  import QueryValidators

  const InvalidIdMessage: string := "O Id não é válido"
  const MissingTedMessage: string := "não existe Ted com o Id informado."

  /** The entity the mapper builds from new limits: the three caps, no id. */
  function MapToLimite(dto: LimiteTedRequestDto): (l: LimiteTed)
    ensures l.id == 0
    ensures l.valorMaximoDia == dto.valorMaximoDia && l.quantidadeMaximaDia == dto.quantidadeMaximaDia
    ensures l.valorMaximoPorSaque == dto.valorMaximoPorSaque
  {
    LimiteTed(0, dto.valorMaximoDia, dto.quantidadeMaximaDia, dto.valorMaximoPorSaque)
  }

  /** An update that passes its rules leaves a limit row with three positive caps,
      the ones requested, under the row's old id. */
  lemma AcceptedUpdateInstallsPositiveCaps(limites: seq<LimiteTed>, dto: LimiteTedRequestDto)
    requires LimiteTedRequestValidator.Validate(dto) == [] && limites != []
    ensures var u := UpdatedLimits(limites, MapToLimite(dto));
      && u.Success? && u.value[0].id == limites[0].id
      && 0.0 < u.value[0].valorMaximoDia == dto.valorMaximoDia
      && 0 < u.value[0].quantidadeMaximaDia == dto.quantidadeMaximaDia
      && 0.0 < u.value[0].valorMaximoPorSaque == dto.valorMaximoPorSaque
  {
    LimiteTedRequestValidator.ValidIff(dto);
  }

  /** Validation runs before the missing end date is filled in: a start after today
      with no end passes every rule, and the list it leads to is empty. */
  lemma FutureStartPassesButListsNothing(teds: seq<Ted>, q: AdminTedQueryParameters, now: DateTime)
    requires q.common.dataInicio.Some? && q.common.dataFim.None?
    requires q.common.status.None? && q.clienteId.None?
    requires !DateLe(q.common.dataInicio.value.date, now.date)
    ensures QueryValidators.ValidateAdmin(q) == []
    ensures AdminList(teds, WithDateDefaults(q, now)) == []
  {
    QueryValidators.AdminValidIff(q);
    QueryValidators.ClienteValidIff(q.common);
    FutureStartAloneIsEmpty(teds, q, now);
  }

  class AdminTedService {
    const repository: AdminTedRepository

    constructor(repository: AdminTedRepository)
      ensures this.repository == repository
    {
      this.repository := repository;
    }

    /** A page of the TEDs that pass the filters (missing dates meaning today), or
        the validation error for bad parameters. The page number and size echoed
        back are the ones requested. */
    method ObtemListaTed(q: AdminTedQueryParameters, now: DateTime) returns (r: Result<PagedResponse<Ted>, Error>)
      ensures QueryValidators.ValidateAdmin(q) != [] ==> r == Failure(FromValidation(QueryValidators.AdminMessages(q)))
      ensures QueryValidators.ValidateAdmin(q) == [] ==>
        var all := AdminList(repository.context.teds, WithDateDefaults(q, now));
        r == Success(NewPagedResponse(Page(all, q.common.numeroPagina, q.common.quantidadeItensPagina), |all|,
                                      q.common.numeroPagina, q.common.quantidadeItensPagina))
      ensures r.Success? ==> forall t :: t in r.value.items ==>
        t in repository.context.teds && AdminMatches(t, WithDateDefaults(q, now))
    {
      if QueryValidators.ValidateAdmin(q) != [] {
        return Failure(FromValidation(QueryValidators.AdminMessages(q)));
      }
      var items, totalItems, _ := repository.ObtemListaTed(q, now);
      r := Success(NewPagedResponse(items, totalItems, q.common.numeroPagina, q.common.quantidadeItensPagina));
    }

    /** `AprovaTedAsync`, with the settlement side answering `reply`. A bad id or a
        missing row is refused before anything is sent. For an existing row the
        entry is built and submitted, `sent`, whatever the row's status; an error
        from the submission is raised with nothing changed, and a confirmation id
        goes to the repository's guarded approval. */
    method AprovaTed(id: int, now: DateTime, reply: Result<Option<string>, Error>)
      returns (outcome: Outcome, sent: Option<SinacorTedRequestDto>)
      requires repository.context.Valid()
      modifies repository.context
      ensures repository.context.Valid()
      ensures id <= 0 ==> outcome == Raised(ValidationError([InvalidIdMessage])) && sent.None?
      ensures id > 0 && FindById(old(repository.context.teds), id).None? ==>
        outcome == Raised(Exception(MissingTedMessage)) && sent.None?
      ensures sent.None? ==> repository.context.teds == old(repository.context.teds)
      ensures id > 0 && FindById(old(repository.context.teds), id).Some? ==>
        var t := FindById(old(repository.context.teds), id).value;
        && sent == Some(BuildRequest(t, NextLancamentoId(old(repository.context.teds))))
        && var answer := SendToSinacor(sent.value, now.date, reply);
        && (answer.Failure? ==>
              outcome == Raised(answer.error) && repository.context.teds == old(repository.context.teds))
        && (answer.Success? ==>
              Step(outcome, repository.context.teds)
              == Transition(old(repository.context.teds), id, Approve(answer.value), now))
      ensures repository.context.limites == old(repository.context.limites)
      ensures repository.context.lastIdentity == old(repository.context.lastIdentity)
    {
      if id <= 0 {
        return Raised(ValidationError([InvalidIdMessage])), None;
      }
      var ted := repository.ObtemTedPeloId(id);
      if ted.None? {
        return Raised(Exception(MissingTedMessage)), None;
      }
      var lancamentoId := repository.ObtemLancamentoIdTed();
      var payload := BuildRequest(ted.value, lancamentoId);
      sent := Some(payload);
      var answer := SendToSinacor(payload, now.date, reply);
      if answer.Failure? {
        return Raised(answer.error), sent;
      }
      outcome := repository.AprovaTed(id, answer.value, now);
    }

    /** `ReprovaTedAsync`: a bad id and a missing row are refused here; otherwise
        the repository's guarded rejection runs with the reason from the body. */
    method ReprovaTed(id: int, dto: Option<AdminTedRequestDto>, now: DateTime) returns (outcome: Outcome)
      requires repository.context.Valid()
      modifies repository.context
      ensures repository.context.Valid()
      ensures id <= 0 ==> outcome == Raised(ValidationError([InvalidIdMessage]))
      ensures id > 0 && FindById(old(repository.context.teds), id).None? ==>
        outcome == Raised(Exception(MissingTedMessage))
      ensures id <= 0 || FindById(old(repository.context.teds), id).None? ==>
        repository.context.teds == old(repository.context.teds)
      ensures id > 0 && FindById(old(repository.context.teds), id).Some? ==>
        Step(outcome, repository.context.teds) == Transition(old(repository.context.teds), id, Reject(ReasonOf(dto)), now)
      ensures repository.context.limites == old(repository.context.limites)
      ensures repository.context.lastIdentity == old(repository.context.lastIdentity)
    {
      if id <= 0 {
        return Raised(ValidationError([InvalidIdMessage]));
      }
      var ted := repository.ObtemTedPeloId(id);
      if ted.None? {
        return Raised(Exception(MissingTedMessage));
      }
      outcome := repository.ReprovaTed(id, dto, now);
    }

    /** `AtualizaLimiteTedAsync`: new limits that break a rule are refused with the
        trimmed messages; otherwise the first limit row takes them. */
    method AtualizaLimiteTed(dto: LimiteTedRequestDto) returns (outcome: Outcome)
      modifies repository.context
      ensures LimiteTedRequestValidator.Validate(dto) != [] ==>
        && outcome == Raised(FromValidation(LimiteTedRequestValidator.Messages(dto)))
        && repository.context.limites == old(repository.context.limites)
      ensures LimiteTedRequestValidator.Validate(dto) == [] ==>
        var u := UpdatedLimits(old(repository.context.limites), MapToLimite(dto));
        && (u.Failure? ==> outcome == Raised(u.error) && repository.context.limites == old(repository.context.limites))
        && (u.Success? ==> outcome == Ok && repository.context.limites == u.value)
      ensures repository.context.teds == old(repository.context.teds)
      ensures repository.context.lastIdentity == old(repository.context.lastIdentity)
    {
      if LimiteTedRequestValidator.Validate(dto) != [] {
        return Raised(FromValidation(LimiteTedRequestValidator.Messages(dto)));
      }
      var limiteTed := MapToLimite(dto);
      outcome := repository.AtualizaLimiteTed(limiteTed);
    }

    /** `ObtemLimiteTedAsync`: the limit row, or none when the table is empty. */
    method ObtemLimiteTed() returns (r: Option<LimiteTed>)
      ensures r.Some? <==> repository.context.limites != []
      ensures r.Some? ==> r.value == repository.context.limites[0]
    {
      r := repository.ObtemLimiteTed();
    }
  }
}
