/** The client side's data access: its list query, the insert of a new TED, the
    lookup by id, the cancellation, today's transfers, the limit row and the next
    settlement id. */
module ClienteRepository {
  import opened Wrappers
  import opened Calendar
  import opened Entities
  import opened Errors
  import opened Dtos
  import opened TedStore
  import opened TedQueries
  import opened Lifecycle

  const NoLimitMessage: string := "Os limites não podem ser nulos"

  /** The limit row as the client repository reads it: the first one, or an error
      when the table is empty. */
  function FirstLimit(limites: seq<LimiteTed>): (r: Result<LimiteTed, Error>)
    ensures r.Success? <==> limites != []
    ensures r.Success? ==> r.value == limites[0]
    ensures r.Failure? ==> r.error == Exception(NoLimitMessage)
  {
    if limites == [] then Failure(Exception(NoLimitMessage)) else Success(limites[0])
  }

  class ClienteTedRepository {
    const context: AppDb

    constructor(context: AppDb)
      ensures this.context == context
    {
      this.context := context;
    }

    /** The client's rows that pass the filters, counted before paging, and the
        requested page of them. */
    method ObtemListaTed(clienteId: int, q: ClienteTedQueryParameters) returns (items: seq<Ted>, totalItems: int)
      ensures totalItems == |ClienteList(context.teds, clienteId, q)|
      ensures items == Page(ClienteList(context.teds, clienteId, q), q.numeroPagina, q.quantidadeItensPagina)
      ensures forall t :: t in items ==> t in context.teds && ClienteMatches(t, clienteId, q)
    {
      var query := ClienteList(context.teds, clienteId, q);
      totalItems := |query|;
      items := Page(query, q.numeroPagina, q.quantidadeItensPagina);
    }

    /** `Add` and `SaveChanges`: the row is appended and receives the next identity
        value, which the returned entity carries; nothing else changes. */
    method SolicitaTed(ted: Ted) returns (saved: Ted)
      requires context.Valid() && ValidDateTime(ted.criadoEm) && ValidDateTime(ted.dataAgendamento)
      modifies context
      ensures context.Valid()
      ensures saved == ted.(id := old(context.lastIdentity) + 1)
      ensures context.teds == old(context.teds) + [saved]
      ensures context.lastIdentity == old(context.lastIdentity) + 1
      ensures context.limites == old(context.limites)
    {
      context.lastIdentity := context.lastIdentity + 1;
      saved := ted.(id := context.lastIdentity);
      context.teds := context.teds + [saved];
    }

    method ObtemTedPeloId(id: int) returns (r: Option<Ted>)
      ensures r == FindById(context.teds, id)
      ensures r.Some? ==> r.value in context.teds && r.value.id == id
    {
      r := FindById(context.teds, id);
    }

    /** Cancels the TED with this id if it is still in process. */
    method CancelaTed(id: int, now: DateTime) returns (outcome: Outcome)
      requires context.Valid()
      modifies context
      ensures context.Valid()
      ensures Step(outcome, context.teds) == Transition(old(context.teds), id, Cancel, now)
      ensures context.limites == old(context.limites) && context.lastIdentity == old(context.lastIdentity)
    {
      var found := FindById(context.teds, id);
      if found.None? {
        return Raised(Exception(NotFoundMessage));
      }
      var ted := found.value;
      if ted.status == Canceled {
        return Raised(Exception("Ted já foi cancelardo"));
      }
      if ted.status != InProcess {
        return Raised(Exception("Ted não pode mais ser cancelardo"));
      }
      ted := ted.(status := Canceled, atualizadoEm := now);
      var k := FoundAtSomePosition(context.teds, id);
      ReplaceKeepsIds(context.teds, context.lastIdentity, k, ted);
      context.teds := ReplaceById(context.teds, ted);
      outcome := Ok;
    }

    /** This client's transfers scheduled for today, whatever their status. */
    method VerificaLimiteTedDoDia(clienteId: int, now: DateTime) returns (teds: seq<Ted>)
      ensures teds == TodaysTeds(context.teds, clienteId, now.date)
      ensures forall t :: t in teds <==> t in context.teds && t.clienteId == clienteId && t.dataAgendamento.date == now.date
    {
      teds := TodaysTeds(context.teds, clienteId, now.date);
    }

    method ObtemLimiteTed() returns (r: Result<LimiteTed, Error>)
      ensures r == FirstLimit(context.limites)
    {
      if context.limites == [] {
        return Failure(Exception(NoLimitMessage));
      }
      r := Success(context.limites[0]);
    }

    method ObtemLancamentoIdTed() returns (n: int)
      ensures n == NextLancamentoId(context.teds)
      ensures forall t :: t in context.teds ==> t.id < n
    {
      n := NextLancamentoId(context.teds);
    }
  }
}
