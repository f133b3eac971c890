/** The rules on the query parameters of the two list endpoints. The client list
    checks the status and the order of the two dates; the admin list adds a positive
    client id. A parameter left out of the query never fails its rule. */
module QueryValidators {
  import opened Wrappers
  import opened Calendar
  import opened Errors
  import opened Entities
  import opened Dtos

  datatype QueryRule = StatusRule | ClienteIdRule | DateOrderRule

  function Message(rule: QueryRule): string
  {
    match rule
    case StatusRule => "Status inválido."
    case ClienteIdRule => "ClientId deve ser maior que 0."
    case DateOrderRule => "A data de início deve ser anterior ou igual à data de término."
  }

  /** `IsInEnum()` on a nullable enum: absent, or naming one of the four members. */
  predicate StatusInEnum(status: Option<int>)
  {
    status.None? || StatusOfCode(status.value).Some?
  }

  /** `!DataInicio.HasValue || !DataFim.HasValue || DataInicio <= DataFim`, comparing
      the full date and time. */
  predicate DatesInOrder(q: ClienteTedQueryParameters)
  {
    q.dataInicio.None? || q.dataFim.None? || Le(q.dataInicio.value, q.dataFim.value)
  }

  const ClienteRules: seq<QueryRule> := [StatusRule, DateOrderRule]
  const AdminRules: seq<QueryRule> := [StatusRule, ClienteIdRule, DateOrderRule]

  predicate HoldsCliente(rule: QueryRule, q: ClienteTedQueryParameters)
  {
    match rule
    case StatusRule => StatusInEnum(q.status)
    case ClienteIdRule => true
    case DateOrderRule => DatesInOrder(q)
  }

  predicate HoldsAdmin(rule: QueryRule, q: AdminTedQueryParameters)
  {
    match rule
    case StatusRule => StatusInEnum(q.common.status)
    case ClienteIdRule => q.clienteId.None? || q.clienteId.value > 0
    case DateOrderRule => DatesInOrder(q.common)
  }

  /** `ClienteTedQueryParametersValidator`: the rules that fail, in order. */
  function ValidateCliente(q: ClienteTedQueryParameters): (failed: seq<QueryRule>)
    ensures forall rule :: rule in failed <==> rule != ClienteIdRule && !HoldsCliente(rule, q)
  {
    assert ClienteRules[0] == StatusRule && ClienteRules[1] == DateOrderRule;
    Failing(ClienteRules, rule => HoldsCliente(rule, q))
  }

  /** `AdminTedQueryParametersValidator`: the rules that fail, in order. */
  function ValidateAdmin(q: AdminTedQueryParameters): (failed: seq<QueryRule>)
    ensures forall rule :: rule in failed <==> !HoldsAdmin(rule, q)
  {
    assert AdminRules[0] == StatusRule && AdminRules[1] == ClienteIdRule;
    assert AdminRules[2] == DateOrderRule;
    Failing(AdminRules, rule => HoldsAdmin(rule, q))
  }

  function ClienteMessages(q: ClienteTedQueryParameters): (msgs: seq<string>)
    ensures |msgs| == |ValidateCliente(q)|
    ensures forall i :: 0 <= i < |msgs| ==> msgs[i] == Message(ValidateCliente(q)[i])
  {
    var failed := ValidateCliente(q);
    seq(|failed|, i requires 0 <= i < |failed| => Message(failed[i]))
  }

  function AdminMessages(q: AdminTedQueryParameters): (msgs: seq<string>)
    ensures |msgs| == |ValidateAdmin(q)|
    ensures forall i :: 0 <= i < |msgs| ==> msgs[i] == Message(ValidateAdmin(q)[i])
  {
    var failed := ValidateAdmin(q);
    seq(|failed|, i requires 0 <= i < |failed| => Message(failed[i]))
  }

  /** The client parameters pass exactly when the status, if given, names a member
      of the enum and the dates, if both given, are in order. */
  lemma ClienteValidIff(q: ClienteTedQueryParameters)
    ensures ValidateCliente(q) == [] <==>
      (q.status.None? || 0 <= q.status.value <= 3) && DatesInOrder(q)
  {
    assert HoldsCliente(StatusRule, q) == StatusInEnum(q.status);
    assert HoldsCliente(DateOrderRule, q) == DatesInOrder(q);
  }

  /** The admin parameters pass exactly when the shared rules pass and the client
      id, if given, is positive: the admin validator extends the client one. */
  lemma AdminValidIff(q: AdminTedQueryParameters)
    ensures ValidateAdmin(q) == [] <==>
      ValidateCliente(q.common) == [] && (q.clienteId.None? || q.clienteId.value > 0)
  {
    assert HoldsAdmin(StatusRule, q) == HoldsCliente(StatusRule, q.common);
    assert HoldsAdmin(DateOrderRule, q) == HoldsCliente(DateOrderRule, q.common);
    assert HoldsAdmin(ClienteIdRule, q) == (q.clienteId.None? || q.clienteId.value > 0);
  }

  /** The client report names the failing rules once each, status before dates. */
  lemma {:induction false} ClienteInOrder(q: ClienteTedQueryParameters)
    ensures ValidateCliente(q) ==
      (if HoldsCliente(StatusRule, q) then [] else [StatusRule]) +
      (if HoldsCliente(DateOrderRule, q) then [] else [DateOrderRule])
  {
    var holds := rule => HoldsCliente(rule, q);
    var first := [StatusRule];
    assert first == [] + first && ClienteRules == first + [DateOrderRule];
    FailingAppend([], StatusRule, holds);
    FailingAppend(first, DateOrderRule, holds);
  }

  /** The admin report names the failing rules once each: status, client id, dates. */
  lemma {:induction false} AdminInOrder(q: AdminTedQueryParameters)
    ensures ValidateAdmin(q) ==
      (if HoldsAdmin(StatusRule, q) then [] else [StatusRule]) +
      (if HoldsAdmin(ClienteIdRule, q) then [] else [ClienteIdRule]) +
      (if HoldsAdmin(DateOrderRule, q) then [] else [DateOrderRule])
  {
    var holds := rule => HoldsAdmin(rule, q);
    var first, both := [StatusRule], [StatusRule, ClienteIdRule];
    assert first == [] + first && both == first + [ClienteIdRule];
    assert AdminRules == both + [DateOrderRule];
    FailingAppend([], StatusRule, holds);
    FailingAppend(first, ClienteIdRule, holds);
    FailingAppend(both, DateOrderRule, holds);
  }

  /** The dates are compared with their times: a start later in the same day than
      the end fails, even though the list itself filters by date only. */
  lemma SameDayLaterStartFails(q: ClienteTedQueryParameters)
    requires q.dataInicio.Some? && q.dataFim.Some?
    requires q.dataInicio.value.date == q.dataFim.value.date
    requires q.dataInicio.value.tick > q.dataFim.value.tick
    ensures DateOrderRule in ValidateCliente(q)
  {
  }

  /** Parameters that leave every optional filter out always pass. */
  lemma NoFiltersPass(q: AdminTedQueryParameters)
    requires q.common.dataInicio.None? && q.common.dataFim.None? && q.common.status.None?
    requires q.clienteId.None?
    ensures ValidateAdmin(q) == []
  {
  }
}
