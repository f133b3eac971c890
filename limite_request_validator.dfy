/** The rules new limits must satisfy: all three caps strictly positive. */
module LimiteTedRequestValidator {
  import opened Errors
  import opened Dtos

  datatype LimiteRule = ValorMaximoDiaRule | QuantidadeMaximaDiaRule | ValorMaximoPorSaqueRule

  function Message(rule: LimiteRule): string
  {
    match rule
    case ValorMaximoDiaRule => "O valor máximo por dia deve ser maior que 0."
    case QuantidadeMaximaDiaRule => "A quantidade máxima por dia deve ser maior que 0."
    case ValorMaximoPorSaqueRule => "O valor máximo por saque deve ser maior que 0."
  }

  const AllRules: seq<LimiteRule> := [ValorMaximoDiaRule, QuantidadeMaximaDiaRule, ValorMaximoPorSaqueRule]

  predicate Holds(rule: LimiteRule, dto: LimiteTedRequestDto)
  {
    match rule
    case ValorMaximoDiaRule => dto.valorMaximoDia > 0.0
    case QuantidadeMaximaDiaRule => dto.quantidadeMaximaDia > 0
    case ValorMaximoPorSaqueRule => dto.valorMaximoPorSaque > 0.0
  }

  /** The rules that fail, in declaration order. */
  function Validate(dto: LimiteTedRequestDto): (failed: seq<LimiteRule>)
    ensures forall rule :: rule in failed <==> !Holds(rule, dto)
  {
    assert AllRules[0] == ValorMaximoDiaRule && AllRules[1] == QuantidadeMaximaDiaRule;
    assert AllRules[2] == ValorMaximoPorSaqueRule;
    Failing(AllRules, rule => Holds(rule, dto))
  }

  function Messages(dto: LimiteTedRequestDto): (msgs: seq<string>)
    ensures |msgs| == |Validate(dto)|
    ensures forall i :: 0 <= i < |msgs| ==> msgs[i] == Message(Validate(dto)[i])
  {
    var failed := Validate(dto);
    seq(|failed|, i requires 0 <= i < |failed| => Message(failed[i]))
  }

  /** The report names the failing caps once each, in declaration order. */
  lemma {:induction false} ValidateInOrder(dto: LimiteTedRequestDto)
    ensures Validate(dto) ==
      (if Holds(ValorMaximoDiaRule, dto) then [] else [ValorMaximoDiaRule]) +
      (if Holds(QuantidadeMaximaDiaRule, dto) then [] else [QuantidadeMaximaDiaRule]) +
      (if Holds(ValorMaximoPorSaqueRule, dto) then [] else [ValorMaximoPorSaqueRule])
  {
    var holds := rule => Holds(rule, dto);
    var first, both := [ValorMaximoDiaRule], [ValorMaximoDiaRule, QuantidadeMaximaDiaRule];
    assert first == [] + first && both == first + [QuantidadeMaximaDiaRule];
    assert AllRules == both + [ValorMaximoPorSaqueRule];
    FailingAppend([], ValorMaximoDiaRule, holds);
    FailingAppend(first, QuantidadeMaximaDiaRule, holds);
    FailingAppend(both, ValorMaximoPorSaqueRule, holds);
  }

  /** New limits pass exactly when all three caps are above zero. */
  lemma ValidIff(dto: LimiteTedRequestDto)
    ensures Validate(dto) == [] <==>
      dto.valorMaximoDia > 0.0 && dto.quantidadeMaximaDia > 0 && dto.valorMaximoPorSaque > 0.0
  {
    assert Holds(ValorMaximoDiaRule, dto) == (dto.valorMaximoDia > 0.0);
    assert Holds(QuantidadeMaximaDiaRule, dto) == (dto.quantidadeMaximaDia > 0);
    assert Holds(ValorMaximoPorSaqueRule, dto) == (dto.valorMaximoPorSaque > 0.0);
  }

  /** All-zero limits report all three messages, in declaration order. */
  lemma ZeroLimitsFailEveryRule()
    ensures Validate(LimiteTedRequestDto(0.0, 0, 0.0)) == AllRules
  {
  }
}
