/** The life of a TED: it is created `InProcess` and leaves that state once, by a
    client's cancellation or an administrator's approval or rejection. Each of the
    three repository operations reads the row by id, refuses with its own messages
    when the row is missing, already in the target state or in another final
    state, and otherwise overwrites that row with the new status, the stamp of the
    change and the field the action records. */
module Lifecycle {
  import opened Wrappers
  import opened Calendar
  import opened Entities
  import opened Errors
  import opened TedStore

  datatype Action =
    | Cancel
    | Approve(confirmacaoId: Option<string>)
    | Reject(motivo: Option<string>)

  const NotFoundMessage: string := "nenhum Ted encontrado para o id informado."

  function Target(action: Action): Status
  {
    match action
    case Cancel => Canceled
    case Approve(_) => Approved
    case Reject(_) => Disapproved
  }

  /** The message for a TED already in the action's target state. */
  function AlreadyMessage(action: Action): string
  {
    match action
    case Cancel => "Ted já foi cancelardo"
    case Approve(_) => "Ted já foi aprovado"
    case Reject(_) => "Ted já foi reprovado"
  }

  /** The message for a TED in another final state. */
  function CannotMessage(action: Action): string
  {
    match action
    case Cancel => "Ted não pode mais ser cancelardo"
    case Approve(_) => "Ted não pode mais ser aprovado"
    case Reject(_) => "Ted não pode mais ser reprovado"
  }

  /** The row after a successful action at time `now`: the new status, the stamp,
      and for an approval the confirmation id, for a rejection the reason. */
  function Apply(action: Action, t: Ted, now: DateTime): (r: Ted)
    ensures r.status == Target(action) && r.atualizadoEm == now
    ensures r.id == t.id && r.clienteId == t.clienteId && r.criadoEm == t.criadoEm
    ensures r.valorSolicitado == t.valorSolicitado && r.dataAgendamento == t.dataAgendamento
    ensures r.sinacorConfirmacaoId == (if action.Approve? then action.confirmacaoId else t.sinacorConfirmacaoId)
    ensures r.motivoReprovacao == (if action.Reject? then action.motivo else t.motivoReprovacao)
    ensures r.(status := t.status, atualizadoEm := t.atualizadoEm,
               sinacorConfirmacaoId := t.sinacorConfirmacaoId, motivoReprovacao := t.motivoReprovacao) == t
  {
    match action
    case Cancel => t.(status := Canceled, atualizadoEm := now)
    case Approve(c) => t.(status := Approved, sinacorConfirmacaoId := c, atualizadoEm := now)
    case Reject(m) => t.(status := Disapproved, atualizadoEm := now, motivoReprovacao := m)
  }

  /** What an operation raises and the table it leaves. */
  datatype Step = Step(outcome: Outcome, teds: seq<Ted>)

  /** One of the three guarded transitions, applied to the row with id `id`. */
  function Transition(teds: seq<Ted>, id: int, action: Action, now: DateTime): (r: Step)
    ensures r.outcome.Ok? <==> FindById(teds, id).Some? && FindById(teds, id).value.status == InProcess
    ensures !r.outcome.Ok? ==> r.teds == teds && r.outcome.error.Exception?
    ensures r.outcome.Ok? ==> r.teds == ReplaceById(teds, Apply(action, FindById(teds, id).value, now))
  {
    match FindById(teds, id)
    case None => Step(Raised(Exception(NotFoundMessage)), teds)
    case Some(t) =>
      if t.status == Target(action) then Step(Raised(Exception(AlreadyMessage(action))), teds)
      else if t.status != InProcess then Step(Raised(Exception(CannotMessage(action))), teds)
      else Step(Ok, ReplaceById(teds, Apply(action, t, now)))
  }

  /** Which message a refused transition raises: the missing row, the row already
      in the target state, or the row in another final state. */
  lemma TransitionErrors(teds: seq<Ted>, id: int, action: Action, now: DateTime)
    ensures FindById(teds, id).None? ==>
      Transition(teds, id, action, now).outcome == Raised(Exception(NotFoundMessage))
    ensures FindById(teds, id).Some? && FindById(teds, id).value.status == Target(action) ==>
      Transition(teds, id, action, now).outcome == Raised(Exception(AlreadyMessage(action)))
    ensures FindById(teds, id).Some? && FindById(teds, id).value.status !in {InProcess, Target(action)} ==>
      Transition(teds, id, action, now).outcome == Raised(Exception(CannotMessage(action)))
  {
  }

  /** A successful transition in a valid table changes only the target row, and in
      that row only the status, the stamp and the field the action records; the
      table stays valid. */
  lemma {:induction false} OnlyTargetRowChanges(teds: seq<Ted>, last: int, id: int, action: Action, now: DateTime)
    requires IdsIncreasing(teds) && IdsUpTo(teds, last)
    requires Transition(teds, id, action, now).outcome.Ok?
    ensures var after := Transition(teds, id, action, now).teds;
      && |after| == |teds|
      && IdsIncreasing(after) && IdsUpTo(after, last)
      && (forall i :: 0 <= i < |teds| && teds[i].id != id ==> after[i] == teds[i])
      && (forall i :: 0 <= i < |teds| && teds[i].id == id ==> after[i] == Apply(action, teds[i], now))
      && FindById(after, id) == Some(Apply(action, FindById(teds, id).value, now))
  {
    var k := FoundAtSomePosition(teds, id);
    var t := FindById(teds, id).value;
    ReplaceKeepsIds(teds, last, k, Apply(action, t, now));
    forall i | 0 <= i < |teds| && teds[i].id == id
      ensures teds[i] == t
    {
      assert i == k;
    }
  }

  /** Final states are final: once a transition succeeds, every later one on the
      same row is refused, the same action with its "already" message. */
  lemma {:induction false} NoSecondTransition(teds: seq<Ted>, last: int, id: int, first: Action, second: Action, now: DateTime, later: DateTime)
    requires IdsIncreasing(teds) && IdsUpTo(teds, last)
    requires Transition(teds, id, first, now).outcome.Ok?
    ensures var after := Transition(teds, id, first, now).teds;
      && !Transition(after, id, second, later).outcome.Ok?
      && Transition(after, id, second, later).teds == after
      && (Target(second) == Target(first) ==>
            Transition(after, id, second, later).outcome == Raised(Exception(AlreadyMessage(second))))
      && (Target(second) != Target(first) ==>
            Transition(after, id, second, later).outcome == Raised(Exception(CannotMessage(second))))
  {
    OnlyTargetRowChanges(teds, last, id, first, now);
  }

  /** A rejection records exactly the reason given (none when no body was sent),
      and an approval exactly the confirmation id it was given. */
  lemma RecordsWhatItIsGiven(teds: seq<Ted>, last: int, id: int, action: Action, now: DateTime)
    requires IdsIncreasing(teds) && IdsUpTo(teds, last)
    requires Transition(teds, id, action, now).outcome.Ok?
    ensures var row := FindById(Transition(teds, id, action, now).teds, id).value;
      && row.status == Target(action) && row.atualizadoEm == now
      && (action.Reject? ==> row.motivoReprovacao == action.motivo)
      && (action.Approve? ==> row.sinacorConfirmacaoId == action.confirmacaoId)
  {
    OnlyTargetRowChanges(teds, last, id, action, now);
  }
}
