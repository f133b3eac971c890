/** The row filters of the three listing queries: a client's own list, the
    administrator's list, and a client's transfers scheduled for today. Filters
    are AND-combined and leave out nothing a filter left unset would exclude. */
module TedQueries {
  import opened Wrappers
  import opened Calendar
  import opened Text
  import opened Entities
  import opened Dtos
  import opened TedStore

  /** `f.Status == queryParameters.Status` on the raw status code. */
  predicate StatusMatches(t: Ted, status: Option<int>)
  {
    status.Some? ==> StatusCode(t.status) == status.value
  }

  /** `CriadoEm.Date >= DataInicio.Date` and `CriadoEm.Date <= DataFim.Date`, each
      only when that bound is given. */
  predicate CreatedWithin(t: Ted, inicio: Option<DateTime>, fim: Option<DateTime>)
  {
    && (inicio.Some? ==> DateLe(inicio.value.date, t.criadoEm.date))
    && (fim.Some? ==> DateLe(t.criadoEm.date, fim.value.date))
  }

  /** The client list's filter. */
  predicate ClienteMatches(t: Ted, clienteId: int, q: ClienteTedQueryParameters)
  {
    t.clienteId == clienteId && CreatedWithin(t, q.dataInicio, q.dataFim) && StatusMatches(t, q.status)
  }

  /** The client list before paging: the rows that pass, in store order. */
  function ClienteList(teds: seq<Ted>, clienteId: int, q: ClienteTedQueryParameters): (r: seq<Ted>)
    ensures forall t :: t in r <==> t in teds && ClienteMatches(t, clienteId, q)
    ensures |r| <= |teds|
  {
    Filter(teds, t => ClienteMatches(t, clienteId, q))
  }

  /** The client list holds exactly this client's rows that pass the given date and
      status filters, in store order. */
  lemma ClienteListMembers(teds: seq<Ted>, clienteId: int, q: ClienteTedQueryParameters, t: Ted)
    ensures t in ClienteList(teds, clienteId, q) <==>
      && t in teds && t.clienteId == clienteId
      && (q.dataInicio.Some? ==> DateLe(q.dataInicio.value.date, t.criadoEm.date))
      && (q.dataFim.Some? ==> DateLe(t.criadoEm.date, q.dataFim.value.date))
      && (q.status.Some? ==> StatusCode(t.status) == q.status.value)
  {
  }

  /** The admin repository's first step: a missing start or end becomes `now`. */
  function WithDateDefaults(q: AdminTedQueryParameters, now: DateTime): (r: AdminTedQueryParameters)
    ensures r.common.dataInicio.Some? && r.common.dataFim.Some?
    ensures q.common.dataInicio.Some? ==> r.common.dataInicio == q.common.dataInicio
    ensures q.common.dataInicio.None? ==> r.common.dataInicio == Some(now)
    ensures q.common.dataFim.Some? ==> r.common.dataFim == q.common.dataFim
    ensures q.common.dataFim.None? ==> r.common.dataFim == Some(now)
    ensures r.clienteId == q.clienteId && r.nomeCliente == q.nomeCliente && r.nomeBanco == q.nomeBanco
    ensures r.common.status == q.common.status
    ensures r.common.numeroPagina == q.common.numeroPagina
    ensures r.common.quantidadeItensPagina == q.common.quantidadeItensPagina
  {
    var inicio := if q.common.dataInicio.Some? then q.common.dataInicio else Some(now);
    var fim := if q.common.dataFim.Some? then q.common.dataFim else Some(now);
    q.(common := q.common.(dataInicio := inicio, dataFim := fim))
  }

  /** `!string.IsNullOrEmpty(text)`. */
  predicate Given(text: Option<string>)
  {
    text.Some? && text.value != []
  }

  /** The admin list's filter, on parameters whose dates have been filled in. */
  predicate AdminMatches(t: Ted, q: AdminTedQueryParameters)
  {
    && (q.clienteId.Some? && q.clienteId.value > 0 ==> t.clienteId == q.clienteId.value)
    && (Given(q.nomeCliente) ==> Contains(t.nomeCliente, q.nomeCliente.value))
    && (Given(q.nomeBanco) ==> Contains(t.nomeBanco, q.nomeBanco.value))
    && CreatedWithin(t, q.common.dataInicio, q.common.dataFim)
    && StatusMatches(t, q.common.status)
  }

  /** The admin list before paging: the rows that pass, in store order. */
  function AdminList(teds: seq<Ted>, q: AdminTedQueryParameters): (r: seq<Ted>)
    ensures forall t :: t in r <==> t in teds && AdminMatches(t, q)
    ensures |r| <= |teds|
  {
    Filter(teds, t => AdminMatches(t, q))
  }

  /** With no dates given, the admin list holds only rows created on `now`'s day. */
  lemma AdminListDefaultsToToday(teds: seq<Ted>, q: AdminTedQueryParameters, now: DateTime, t: Ted)
    requires q.common.dataInicio.None? && q.common.dataFim.None?
    requires t in AdminList(teds, WithDateDefaults(q, now))
    ensures t.criadoEm.date == now.date
  {
    DateLeTotal(now.date, t.criadoEm.date);
  }

  /** A start after today with no end: nothing can lie between it and today, so the
      list is empty. */
  lemma FutureStartAloneIsEmpty(teds: seq<Ted>, q: AdminTedQueryParameters, now: DateTime)
    requires q.common.dataInicio.Some? && q.common.dataFim.None?
    requires !DateLe(q.common.dataInicio.value.date, now.date)
    ensures AdminList(teds, WithDateDefaults(q, now)) == []
  {
    var q' := WithDateDefaults(q, now);
    forall t | t in teds
      ensures !AdminMatches(t, q')
    {
      if DateLe(q.common.dataInicio.value.date, t.criadoEm.date) && DateLe(t.criadoEm.date, now.date) {
        DateLeTransitive(q.common.dataInicio.value.date, t.criadoEm.date, now.date);
      }
    }
  }

  /** The rows created on a given day, in store order. */
  function CreatedOn(teds: seq<Ted>, day: Date): seq<Ted>
  {
    Filter(teds, (t: Ted) => t.criadoEm.date == day)
  }

  /** With every optional filter left out, the admin list is this day's rows, in
      store order. */
  lemma {:induction false} UnfilteredAdminListIsToday(teds: seq<Ted>, q: AdminTedQueryParameters, now: DateTime)
    requires q.common.dataInicio.None? && q.common.dataFim.None? && q.common.status.None?
    requires q.clienteId.None? && !Given(q.nomeCliente) && !Given(q.nomeBanco)
    ensures AdminList(teds, WithDateDefaults(q, now)) == CreatedOn(teds, now.date)
  {
    var q' := WithDateDefaults(q, now);
    if teds != [] {
      var init := teds[..|teds| - 1];
      UnfilteredAdminListIsToday(init, q, now);
      var last := teds[|teds| - 1];
      DateLeTotal(now.date, last.criadoEm.date);
      assert AdminMatches(last, q') <==> last.criadoEm.date == now.date;
    }
  }

  /** `VerificaLimiteTedDoDiaAsync`: this client's rows scheduled for `today`,
      whatever their status. */
  function TodaysTeds(teds: seq<Ted>, clienteId: int, today: Date): seq<Ted>
  {
    Filter(teds, (t: Ted) => t.clienteId == clienteId && t.dataAgendamento.date == today)
  }

  /** Today's list holds exactly the client's rows scheduled for `today`, and is never
      longer than the table. Stated apart from the function so that callers that only
      compute the list do not carry the quantifier. */
  lemma TodaysTedsMembers(teds: seq<Ted>, clienteId: int, today: Date)
    ensures forall t :: t in TodaysTeds(teds, clienteId, today) <==>
      t in teds && t.clienteId == clienteId && t.dataAgendamento.date == today
    ensures |TodaysTeds(teds, clienteId, today)| <= |teds|
  {
  }

  /** A new row joins today's list exactly when it is this client's and scheduled for
      today; the rows already there stay, in order. */
  lemma TodaysTedsAppend(teds: seq<Ted>, clienteId: int, today: Date, t: Ted)
    ensures TodaysTeds(teds + [t], clienteId, today) ==
      TodaysTeds(teds, clienteId, today) + (if t.clienteId == clienteId && t.dataAgendamento.date == today then [t] else [])
  {
    assert (teds + [t])[..|teds|] == teds;
  }
}
