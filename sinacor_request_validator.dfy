/** The structural rules every entry of a settlement batch must satisfy before the
    batch leaves the service: a reference date that is present, readable and not in
    the future, a positive client code and house account, a negative amount, and
    non-blank routing fields (all but the client's agency digit). */
module SinacorTedRequestValidator {
  import opened Wrappers
  import opened Calendar
  import opened Text
  import opened Errors
  import opened SinacorDto

  /** The rules of `LancamentoValidator`, in declaration order (the three date rules
      are chained on one property and are all evaluated). */
  datatype LancamentoRule =
    | DataReferenciaRequired | DataReferenciaValid | DataReferenciaNotFuture
    | CodigoClienteRule | ValorLctoRule | CodigoBancoRule | CodigoAgenciaRule
    | NumeroContaRule | CodigoBancoClienteRule | CodigoAgenciaClienteRule
    | NumeroContaClienteRule | DigitoContaClienteRule | TipoContaClienteRule
    | IndicadorSituacaoRule | CodigoSistemaExternoRule

  function Message(rule: LancamentoRule): string
  {
    match rule
    case DataReferenciaRequired => "A data de referência é obrigatória."
    case DataReferenciaValid => "A data de referência não é válida."
    case DataReferenciaNotFuture => "A data de referência não pode ser no futuro."
    case CodigoClienteRule => "O código do cliente deve ser maior que zero."
    case ValorLctoRule => "O valor do lançamento deve ser menor que zero."
    case CodigoBancoRule => "O código do banco é obrigatório."
    case CodigoAgenciaRule => "O código da agência é obrigatório."
    case NumeroContaRule => "O número da conta deve ser maior que zero."
    case CodigoBancoClienteRule => "O código do banco do cliente é obrigatório."
    case CodigoAgenciaClienteRule => "O código da agência do cliente é obrigatório."
    case NumeroContaClienteRule => "O número da conta do cliente é obrigatório."
    case DigitoContaClienteRule => "O dígito da conta do cliente é obrigatório."
    case TipoContaClienteRule => "O tipo da conta do cliente é obrigatório."
    case IndicadorSituacaoRule => "O indicador de situação é obrigatório."
    case CodigoSistemaExternoRule => "O código do sistema externo é obrigatório."
  }

  const AllRules: seq<LancamentoRule> := [
    DataReferenciaRequired, DataReferenciaValid, DataReferenciaNotFuture,
    CodigoClienteRule, ValorLctoRule, CodigoBancoRule, CodigoAgenciaRule,
    NumeroContaRule, CodigoBancoClienteRule, CodigoAgenciaClienteRule,
    NumeroContaClienteRule, DigitoContaClienteRule, TipoContaClienteRule,
    IndicadorSituacaoRule, CodigoSistemaExternoRule]

  /** `BeAValidDate`: the reference date reads as a date. */
  predicate BeAValidDate(s: string)
  {
    ParseIsoDate(s).Some?
  }

  /** `BeAPastOrPresentDate`: it reads as a date that is not after `today`. */
  predicate BeAPastOrPresentDate(s: string, today: Date)
  {
    ParseIsoDate(s).Some? && DateLe(ParseIsoDate(s).value, today)
  }

  predicate Holds(rule: LancamentoRule, l: Lancamento, today: Date)
  {
    match rule
    case DataReferenciaRequired => NotEmpty(l.dataReferencia)
    case DataReferenciaValid => BeAValidDate(l.dataReferencia)
    case DataReferenciaNotFuture => BeAPastOrPresentDate(l.dataReferencia, today)
    case CodigoClienteRule => l.codigoCliente > 0
    case ValorLctoRule => l.valorLcto < 0.0
    case CodigoBancoRule => NotEmpty(l.codigoBanco)
    case CodigoAgenciaRule => NotEmpty(l.codigoAgencia)
    case NumeroContaRule => l.numeroConta > 0
    case CodigoBancoClienteRule => NotEmpty(l.codigoBancoCliente)
    case CodigoAgenciaClienteRule => NotEmpty(l.codigoAgenciaCliente)
    case NumeroContaClienteRule => NotEmpty(l.numeroContaCliente)
    case DigitoContaClienteRule => NotEmpty(l.digitoContaCliente)
    case TipoContaClienteRule => NotEmpty(l.tipoContaCliente)
    case IndicadorSituacaoRule => NotEmpty(l.indicadorSituacao)
    case CodigoSistemaExternoRule => NotEmpty(l.codigoSistemaExterno)
  }

  /** The report takes the rules in declaration order: each failing rule in its
      place, each holding rule left out. */
  lemma EntryInOrder(l: Lancamento, today: Date)
    ensures ValidateEntry(l, today) ==
      Concat(seq(|AllRules|, i requires 0 <= i < |AllRules| => if Holds(AllRules[i], l, today) then [] else [AllRules[i]]))
  {
    var holds := rule => Holds(rule, l, today);
    FailingInOrder(AllRules, holds);
    assert seq(|AllRules|, i requires 0 <= i < |AllRules| => IfFails(AllRules[i], holds)) ==
      seq(|AllRules|, i requires 0 <= i < |AllRules| => if Holds(AllRules[i], l, today) then [] else [AllRules[i]]);
  }

  /** No rule is declared twice, so none is reported twice. */
  lemma EachRuleOnce(l: Lancamento, today: Date)
    ensures NoRepeats(ValidateEntry(l, today))
  {
    assert NoRepeats(AllRules);
    FailingNoRepeats(AllRules, rule => Holds(rule, l, today));
  }

  lemma EveryRuleListed()
    ensures forall rule :: rule in AllRules
  {
    forall rule ensures rule in AllRules {
      match rule
      case DataReferenciaRequired => assert AllRules[0] == rule;
      case DataReferenciaValid => assert AllRules[1] == rule;
      case DataReferenciaNotFuture => assert AllRules[2] == rule;
      case CodigoClienteRule => assert AllRules[3] == rule;
      case ValorLctoRule => assert AllRules[4] == rule;
      case CodigoBancoRule => assert AllRules[5] == rule;
      case CodigoAgenciaRule => assert AllRules[6] == rule;
      case NumeroContaRule => assert AllRules[7] == rule;
      case CodigoBancoClienteRule => assert AllRules[8] == rule;
      case CodigoAgenciaClienteRule => assert AllRules[9] == rule;
      case NumeroContaClienteRule => assert AllRules[10] == rule;
      case DigitoContaClienteRule => assert AllRules[11] == rule;
      case TipoContaClienteRule => assert AllRules[12] == rule;
      case IndicadorSituacaoRule => assert AllRules[13] == rule;
      case CodigoSistemaExternoRule => assert AllRules[14] == rule;
    }
  }

  /** The rules one entry fails, in declaration order, on day `today`. */
  function ValidateEntry(l: Lancamento, today: Date): (failed: seq<LancamentoRule>)
    ensures forall rule :: rule in failed <==> !Holds(rule, l, today)
    ensures failed == [] <==> forall rule :: Holds(rule, l, today)
  {
    EveryRuleListed();
    Failing(AllRules, rule => Holds(rule, l, today))
  }

  /** `RuleForEach(dto => dto.Lancamentos)`: every entry's failures, entry after
      entry. */
  function Validate(dto: SinacorTedRequestDto, today: Date): (failed: seq<LancamentoRule>)
    ensures failed == [] <==> forall i :: 0 <= i < |dto.lancamentos| ==> ValidateEntry(dto.lancamentos[i], today) == []
    ensures forall i, rule :: 0 <= i < |dto.lancamentos| && rule in ValidateEntry(dto.lancamentos[i], today) ==> rule in failed
  {
    var ls := dto.lancamentos;
    var parts := seq(|ls|, i requires 0 <= i < |ls| => ValidateEntry(ls[i], today));
    assert forall i :: 0 <= i < |ls| ==> parts[i] == ValidateEntry(ls[i], today);
    Concat(parts)
  }

  /** The messages `validationResult.Errors` carries. */
  function Messages(dto: SinacorTedRequestDto, today: Date): (msgs: seq<string>)
    ensures |msgs| == |Validate(dto, today)|
    ensures forall i :: 0 <= i < |msgs| ==> msgs[i] == Message(Validate(dto, today)[i])
  {
    var failed := Validate(dto, today);
    seq(|failed|, i requires 0 <= i < |failed| => Message(failed[i]))
  }

  /** An empty batch, as `new SinacorTedRequestDto()` builds it, passes. */
  lemma EmptyBatchIsValid(today: Date)
    ensures Validate(NewSinacorTedRequest(), today) == []
  {
  }

  /** Each entry is checked: a batch fails when any one entry breaks any rule. */
  lemma OneBadEntrySpoilsTheBatch(dto: SinacorTedRequestDto, today: Date, i: nat, rule: LancamentoRule)
    requires i < |dto.lancamentos| && !Holds(rule, dto.lancamentos[i], today)
    ensures rule in Validate(dto, today)
  {
  }

  /** The defaults of `new Lancamento()` already satisfy the rules on the fields
      they set (the house bank, agency and account, the account type, the situation
      indicator and the external system code), and a fresh entry fails exactly the
      rules on the fields its constructor leaves unset: the reference date (all
      three rules), the client code, the amount and the client's bank, agency,
      account and account digit. */
  lemma FreshEntryFails(today: Date)
    ensures forall rule :: rule in ValidateEntry(NewLancamento(), today) <==>
      rule in {DataReferenciaRequired, DataReferenciaValid, DataReferenciaNotFuture,
               CodigoClienteRule, ValorLctoRule, CodigoBancoClienteRule,
               CodigoAgenciaClienteRule, NumeroContaClienteRule, DigitoContaClienteRule}
  {
    var l := NewLancamento();
    UnsetFieldsFail(today);
    DefaultedFieldsPass(today);
    forall rule ensures rule in ValidateEntry(l, today) <==>
      rule in {DataReferenciaRequired, DataReferenciaValid, DataReferenciaNotFuture,
               CodigoClienteRule, ValorLctoRule, CodigoBancoClienteRule,
               CodigoAgenciaClienteRule, NumeroContaClienteRule, DigitoContaClienteRule}
    {
      match rule
      case DataReferenciaRequired =>
      case DataReferenciaValid =>
      case DataReferenciaNotFuture =>
      case CodigoClienteRule =>
      case ValorLctoRule =>
      case CodigoBancoRule =>
      case CodigoAgenciaRule =>
      case NumeroContaRule =>
      case CodigoBancoClienteRule =>
      case CodigoAgenciaClienteRule =>
      case NumeroContaClienteRule =>
      case DigitoContaClienteRule =>
      case TipoContaClienteRule =>
      case IndicadorSituacaoRule =>
      case CodigoSistemaExternoRule =>
    }
  }

  /** The rules on the fields a new entry leaves unset all fail. */
  lemma UnsetFieldsFail(today: Date)
    ensures var l := NewLancamento();
      && !Holds(DataReferenciaRequired, l, today) && !Holds(DataReferenciaValid, l, today)
      && !Holds(DataReferenciaNotFuture, l, today) && !Holds(CodigoClienteRule, l, today)
      && !Holds(ValorLctoRule, l, today) && !Holds(CodigoBancoClienteRule, l, today)
      && !Holds(CodigoAgenciaClienteRule, l, today) && !Holds(NumeroContaClienteRule, l, today)
      && !Holds(DigitoContaClienteRule, l, today)
  {
    assert ParseIsoDate(NewLancamento().dataReferencia).None?;
  }

  /** The rules on the fields a new entry defaults all hold. */
  lemma DefaultedFieldsPass(today: Date)
    ensures var l := NewLancamento();
      && Holds(CodigoBancoRule, l, today) && Holds(CodigoAgenciaRule, l, today)
      && Holds(NumeroContaRule, l, today) && Holds(TipoContaClienteRule, l, today)
      && Holds(IndicadorSituacaoRule, l, today) && Holds(CodigoSistemaExternoRule, l, today)
  {
    var l := NewLancamento();
    assert !IsWhiteSpace(l.codigoBanco[0]) && !IsWhiteSpace(l.codigoAgencia[0]);
    assert !IsWhiteSpace(l.tipoContaCliente[0]) && !IsWhiteSpace(l.indicadorSituacao[0]);
    assert !IsWhiteSpace(l.codigoSistemaExterno[0]);
  }

  /** The client's agency digit is not checked: changing it never changes the
      outcome. */
  lemma DigitoAgenciaClienteUnchecked(l: Lancamento, today: Date, digito: string)
    ensures ValidateEntry(l.(digitoAgenciaCliente := digito), today) == ValidateEntry(l, today)
  {
    var l' := l.(digitoAgenciaCliente := digito);
    forall rule ensures Holds(rule, l', today) == Holds(rule, l, today) {
    }
    FailingAgrees(AllRules, rule => Holds(rule, l', today), rule => Holds(rule, l, today));
  }
}
