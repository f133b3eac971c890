/** The administrator's data access: the list query with its date defaults, the
    lookup by id, approval and rejection, the limit update, the next settlement id
    and the limit row. */
module AdminRepository {
  import opened Wrappers
  import opened Calendar
  import opened Entities
  import opened Errors
  import opened Dtos
  import opened TedStore
  import opened TedQueries
  import opened Lifecycle

  /** What dereferencing a missing limit row raises. */
  const NullReferenceMessage: string := "Object reference not set to an instance of an object."

  /** `adminTedRequestDto?.MotivoReprovacao ?? null`. */
  function ReasonOf(dto: Option<AdminTedRequestDto>): (motivo: Option<string>)
    ensures dto.None? ==> motivo.None?
    ensures dto.Some? ==> motivo == dto.value.motivoReprovacao
  {
    if dto.Some? then dto.value.motivoReprovacao else None
  }

  /** The limit table after an update: the first row takes the three new caps and
      keeps its id; without a row the update raises. */
  function UpdatedLimits(limites: seq<LimiteTed>, limite: LimiteTed): (r: Result<seq<LimiteTed>, Error>)
    ensures r.Success? <==> limites != []
    ensures r.Failure? ==> r.error == Exception(NullReferenceMessage)
    ensures r.Success? ==> |r.value| == |limites| && r.value[1..] == limites[1..]
    ensures r.Success? ==>
      && r.value[0].id == limites[0].id
      && r.value[0].valorMaximoDia == limite.valorMaximoDia
      && r.value[0].quantidadeMaximaDia == limite.quantidadeMaximaDia
      && r.value[0].valorMaximoPorSaque == limite.valorMaximoPorSaque
  {
    if limites == [] then Failure(Exception(NullReferenceMessage))
    else
      var row := limites[0].(quantidadeMaximaDia := limite.quantidadeMaximaDia,
                             valorMaximoDia := limite.valorMaximoDia,
                             valorMaximoPorSaque := limite.valorMaximoPorSaque);
      Success([row] + limites[1..])
  }

  class AdminTedRepository {
    const context: AppDb

    constructor(context: AppDb)
      ensures this.context == context
    {
      this.context := context;
    }

    /** The filtered rows, counted before paging, and the requested page, together
        with the parameters as the query left them (missing dates set to `now`). */
    method ObtemListaTed(q: AdminTedQueryParameters, now: DateTime)
      returns (items: seq<Ted>, totalItems: int, effective: AdminTedQueryParameters)
      ensures effective == WithDateDefaults(q, now)
      ensures totalItems == |AdminList(context.teds, effective)|
      ensures items == Page(AdminList(context.teds, effective), q.common.numeroPagina, q.common.quantidadeItensPagina)
      ensures forall t :: t in items ==> t in context.teds && AdminMatches(t, effective)
    {
      effective := q;
      if effective.common.dataInicio.None? {
        effective := effective.(common := effective.common.(dataInicio := Some(now)));
      }
      if effective.common.dataFim.None? {
        effective := effective.(common := effective.common.(dataFim := Some(now)));
      }
      var query := AdminList(context.teds, effective);
      totalItems := |query|;
      items := Page(query, effective.common.numeroPagina, effective.common.quantidadeItensPagina);
    }

    method ObtemTedPeloId(id: int) returns (r: Option<Ted>)
      ensures r == FindById(context.teds, id)
      ensures r.Some? ==> r.value in context.teds && r.value.id == id
    {
      r := FindById(context.teds, id);
    }

    /** Approves the TED with this id if it is still in process, recording the
        settlement confirmation. */
    method AprovaTed(id: int, sinacorConfirmacaoId: Option<string>, now: DateTime) returns (outcome: Outcome)
      requires context.Valid()
      modifies context
      ensures context.Valid()
      ensures Step(outcome, context.teds) == Transition(old(context.teds), id, Approve(sinacorConfirmacaoId), now)
      ensures context.limites == old(context.limites) && context.lastIdentity == old(context.lastIdentity)
    {
      var found := FindById(context.teds, id);
      if found.None? {
        return Raised(Exception(NotFoundMessage));
      }
      var ted := found.value;
      if ted.status == Approved {
        return Raised(Exception("Ted já foi aprovado"));
      }
      if ted.status != InProcess {
        return Raised(Exception("Ted não pode mais ser aprovado"));
      }
      ted := ted.(status := Approved, sinacorConfirmacaoId := sinacorConfirmacaoId, atualizadoEm := now);
      var k := FoundAtSomePosition(context.teds, id);
      ReplaceKeepsIds(context.teds, context.lastIdentity, k, ted);
      context.teds := ReplaceById(context.teds, ted);
      outcome := Ok;
    }

    /** Rejects the TED with this id if it is still in process, recording the
        reason from the body, if any. */
    method ReprovaTed(id: int, dto: Option<AdminTedRequestDto>, now: DateTime) returns (outcome: Outcome)
      requires context.Valid()
      modifies context
      ensures context.Valid()
      ensures Step(outcome, context.teds) == Transition(old(context.teds), id, Reject(ReasonOf(dto)), now)
      ensures context.limites == old(context.limites) && context.lastIdentity == old(context.lastIdentity)
    {
      var found := FindById(context.teds, id);
      if found.None? {
        return Raised(Exception(NotFoundMessage));
      }
      var ted := found.value;
      if ted.status == Disapproved {
        return Raised(Exception("Ted já foi reprovado"));
      }
      if ted.status != InProcess {
        return Raised(Exception("Ted não pode mais ser reprovado"));
      }
      var motivo := if dto.Some? then dto.value.motivoReprovacao else None;
      ted := ted.(status := Disapproved, atualizadoEm := now, motivoReprovacao := motivo);
      var k := FoundAtSomePosition(context.teds, id);
      ReplaceKeepsIds(context.teds, context.lastIdentity, k, ted);
      context.teds := ReplaceById(context.teds, ted);
      outcome := Ok;
    }

    /** Overwrites the three caps of the first limit row. */
    method AtualizaLimiteTed(limite: LimiteTed) returns (outcome: Outcome)
      modifies context
      ensures UpdatedLimits(old(context.limites), limite).Failure? ==>
        outcome == Raised(UpdatedLimits(old(context.limites), limite).error) && context.limites == old(context.limites)
      ensures UpdatedLimits(old(context.limites), limite).Success? ==>
        outcome == Ok && context.limites == UpdatedLimits(old(context.limites), limite).value
      ensures context.teds == old(context.teds) && context.lastIdentity == old(context.lastIdentity)
    {
      if context.limites == [] {
        return Raised(Exception(NullReferenceMessage));
      }
      var row := context.limites[0];
      row := row.(quantidadeMaximaDia := limite.quantidadeMaximaDia);
      row := row.(valorMaximoDia := limite.valorMaximoDia);
      row := row.(valorMaximoPorSaque := limite.valorMaximoPorSaque);
      context.limites := [row] + context.limites[1..];
      outcome := Ok;
    }

    method ObtemLancamentoIdTed() returns (n: int)
      ensures n == NextLancamentoId(context.teds)
      ensures forall t :: t in context.teds ==> t.id < n
    {
      n := NextLancamentoId(context.teds);
    }

    /** The first limit row, if there is one. */
    method ObtemLimiteTed() returns (r: Option<LimiteTed>)
      ensures r.Some? <==> context.limites != []
      ensures r.Some? ==> r.value == context.limites[0]
    {
      if context.limites == [] {
        return None;
      }
      r := Some(context.limites[0]);
    }
  }
}
