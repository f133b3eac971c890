/** The rules a client's transfer request must satisfy before anything else happens:
    a positive client id, non-blank names, a schedule not before today, a positive
    value, and agency, account and bank numbers (and the account digit) that read
    as integers above zero (at or above zero for the digit). */
module ClienteTedRequestValidator {
  import opened Calendar
  import opened NumberText
  import opened Text
  import opened Errors
  import opened Dtos

  /** The rules, in declaration order. */
  datatype RequestRule =
    | ClienteIdRule | NomeClienteRule | DataAgendamentoRule | ValorRule
    | AgenciaRule | ContaRule | DigitoRule | BancoRule | NomeBancoRule

  /** The message each rule reports when it fails. */
  function Message(rule: RequestRule): string
  {
    match rule
    case ClienteIdRule => "ClientId deve ser maior que 0."
    case NomeClienteRule => "Nome do cliente não pode estar vazio."
    case DataAgendamentoRule => "A data de agendamento não pode ser no passado."
    case ValorRule => "O valor deve ser maior que 0."
    case AgenciaRule => "Número da agência deve ser um número maior que 0."
    case ContaRule => "Número da conta deve ser um número maior que 0."
    case DigitoRule => "Dígito da conta deve ser um número maior ou igual 0."
    case BancoRule => "Número do banco deve ser um número maior que 0."
    case NomeBancoRule => "Nome do banco não pode estar vazio."
  }

  /** `BeANonZeroNumber`: parses as an Int32 greater than zero. */
  predicate BeANonZeroNumber(s: string)
  {
    TryParseInt32(s).Some? && TryParseInt32(s).value > 0
  }

  /** `BeANonNegativeInteger`: parses as an Int32 at or above zero. */
  predicate BeANonNegativeInteger(s: string)
  {
    TryParseInt32(s).Some? && TryParseInt32(s).value >= 0
  }

  const AllRules: seq<RequestRule> := [
    ClienteIdRule, NomeClienteRule, DataAgendamentoRule, ValorRule,
    AgenciaRule, ContaRule, DigitoRule, BancoRule, NomeBancoRule]

  /** Whether one rule holds of a request at time `now`. */
  predicate Holds(rule: RequestRule, dto: ClienteTedRequestDto, now: DateTime)
  {
    match rule
    case ClienteIdRule => dto.clienteId > 0
    case NomeClienteRule => NotEmpty(dto.nomeCliente)
    case DataAgendamentoRule => Le(Midnight(now), dto.dataAgendamento)
    case ValorRule => dto.valorSolicitado > 0.0
    case AgenciaRule => BeANonZeroNumber(dto.numeroAgencia)
    case ContaRule => BeANonZeroNumber(dto.numeroConta)
    case DigitoRule => BeANonNegativeInteger(dto.digitoConta)
    case BancoRule => BeANonZeroNumber(dto.numeroBanco)
    case NomeBancoRule => NotEmpty(dto.nomeBanco)
  }

  /** The rules that fail, in declaration order, given the current time `now`. */
  function Validate(dto: ClienteTedRequestDto, now: DateTime): (failed: seq<RequestRule>)
    ensures forall rule :: rule in failed <==> !Holds(rule, dto, now)
  {
    EveryRuleListed();
    Failing(AllRules, rule => Holds(rule, dto, now))
  }

  /** The report takes the rules in declaration order: each failing rule in its
      place, each holding rule left out. */
  lemma ValidateInOrder(dto: ClienteTedRequestDto, now: DateTime)
    ensures Validate(dto, now) ==
      Concat(seq(|AllRules|, i requires 0 <= i < |AllRules| => if Holds(AllRules[i], dto, now) then [] else [AllRules[i]]))
  {
    var holds := rule => Holds(rule, dto, now);
    FailingInOrder(AllRules, holds);
    assert seq(|AllRules|, i requires 0 <= i < |AllRules| => IfFails(AllRules[i], holds)) ==
      seq(|AllRules|, i requires 0 <= i < |AllRules| => if Holds(AllRules[i], dto, now) then [] else [AllRules[i]]);
  }

  /** No rule is declared twice, so none is reported twice. */
  lemma EachRuleOnce(dto: ClienteTedRequestDto, now: DateTime)
    ensures NoRepeats(Validate(dto, now))
  {
    assert NoRepeats(AllRules);
    FailingNoRepeats(AllRules, rule => Holds(rule, dto, now));
  }

  lemma EveryRuleListed()
    ensures forall rule :: rule in AllRules
  {
    forall rule ensures rule in AllRules {
      match rule
      case ClienteIdRule => assert AllRules[0] == rule;
      case NomeClienteRule => assert AllRules[1] == rule;
      case DataAgendamentoRule => assert AllRules[2] == rule;
      case ValorRule => assert AllRules[3] == rule;
      case AgenciaRule => assert AllRules[4] == rule;
      case ContaRule => assert AllRules[5] == rule;
      case DigitoRule => assert AllRules[6] == rule;
      case BancoRule => assert AllRules[7] == rule;
      case NomeBancoRule => assert AllRules[8] == rule;
    }
  }

  /** The messages of the failing rules, in order: `validationResult.Errors`. */
  function Messages(dto: ClienteTedRequestDto, now: DateTime): (msgs: seq<string>)
    ensures |msgs| == |Validate(dto, now)|
    ensures forall i :: 0 <= i < |msgs| ==> msgs[i] == Message(Validate(dto, now)[i])
  {
    var failed := Validate(dto, now);
    seq(|failed|, i requires 0 <= i < |failed| => Message(failed[i]))
  }

  /** A request passes exactly when every rule holds. */
  predicate IsValid(dto: ClienteTedRequestDto, now: DateTime)
  {
    Validate(dto, now) == []
  }

  lemma {:induction false} ValidIff(dto: ClienteTedRequestDto, now: DateTime)
    ensures IsValid(dto, now) <==>
      && dto.clienteId > 0
      && NotEmpty(dto.nomeCliente)
      && Le(Midnight(now), dto.dataAgendamento)
      && dto.valorSolicitado > 0.0
      && BeANonZeroNumber(dto.numeroAgencia)
      && BeANonZeroNumber(dto.numeroConta)
      && BeANonNegativeInteger(dto.digitoConta)
      && BeANonZeroNumber(dto.numeroBanco)
      && NotEmpty(dto.nomeBanco)
  {
    var failed := Validate(dto, now);
    if failed != [] {
      var rule := failed[0];
      assert !Holds(rule, dto, now);
      match rule
      case ClienteIdRule =>
      case NomeClienteRule =>
      case DataAgendamentoRule =>
      case ValorRule =>
      case AgenciaRule =>
      case ContaRule =>
      case DigitoRule =>
      case BancoRule =>
      case NomeBancoRule =>
    } else {
      assert Holds(ClienteIdRule, dto, now) && Holds(NomeClienteRule, dto, now);
      assert Holds(DataAgendamentoRule, dto, now) && Holds(ValorRule, dto, now);
      assert Holds(AgenciaRule, dto, now) && Holds(ContaRule, dto, now);
      assert Holds(DigitoRule, dto, now) && Holds(BancoRule, dto, now);
      assert Holds(NomeBancoRule, dto, now);
    }
  }

  /** The schedule rule compares with midnight today: any time today passes, any
      time on an earlier day fails. */
  lemma ScheduleRuleIsByDate(dto: ClienteTedRequestDto, now: DateTime)
    requires 0 <= dto.dataAgendamento.tick
    ensures (DataAgendamentoRule in Validate(dto, now)) <==> !DateLe(now.date, dto.dataAgendamento.date)
  {
    assert Holds(DataAgendamentoRule, dto, now) == Le(Midnight(now), dto.dataAgendamento);
    AtOrAfterMidnight(now, dto.dataAgendamento);
  }

  /** Leading zeros are accepted: "0001" is a valid agency number. This is the
      instance n = 1 with three zeros of `PositiveRenderingsAccepted`, worked out
      on the literal the house account uses. */
  lemma LeadingZerosAccepted()
    ensures BeANonZeroNumber("0001")
  {
    var s := "0001";
    assert s[..1][..0] == [] && DigitsValue(s[..1]) == 0;
    assert s[..2][..1] == s[..1] && DigitsValue(s[..2]) == 0;
    assert s[..3][..2] == s[..2] && DigitsValue(s[..3]) == 0;
    assert s[..|s| - 1] == s[..3] && DigitsValue(s) == 1;
    ParseDigits(s);
  }

  /** Zero is not above zero: "0" is rejected as an agency, account or bank number
      but accepted as an account digit. */
  lemma ZeroRejectedAsNumber()
    ensures !BeANonZeroNumber("0") && BeANonNegativeInteger("0")
  {
    var s := "0";
    assert s[..0] == [];
    ParseDigits(s);
  }

  /** A string that does not read as an integer fails both numeric rules. */
  lemma NonNumericFailsBoth(s: string)
    requires TryParseInt32(s).None?
    ensures !BeANonZeroNumber(s) && !BeANonNegativeInteger(s)
  {
  }

  /** Every decimal rendering of a value from 1 to Int32.MaxValue is accepted as a
      number above zero, with or without leading zeros. */
  lemma {:induction false} PositiveRenderingsAccepted(n: nat, zeros: nat)
    requires 0 < n <= Int32Max
    ensures BeANonZeroNumber(Zeros(zeros) + DecimalString(n))
  {
    var s := Zeros(zeros) + DecimalString(n);
    LeadingZeros(zeros, DecimalString(n));
    DigitsValueOfDecimal(n);
    ParseDigits(s);
  }

  /** A request whose number fields pass has non-blank number fields: each holds a
      digit. */
  lemma {:induction false} NumbersAreNotBlank(s: string)
    requires BeANonNegativeInteger(s)
    ensures NotEmpty(s)
  {
    ParsedHasDigit(s);
    var i :| 0 <= i < |s| && IsDigit(s[i]);
    assert !IsWhiteSpace(s[i]);
  }
}
