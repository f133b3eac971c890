/** The two kinds of failure the core raises: a `ValidationException` carrying one or
    more messages, and a plain `Exception` carrying one. Also FluentValidation's way
    of collecting the messages of the rules that fail. */
module Errors {
  import Text

  /** Whether an operation that returns nothing completed or raised. */
  datatype Outcome = Ok | Raised(error: Error)

  datatype Error =
    | ValidationError(messages: seq<string>)
    | Exception(message: string)

  /** What a FluentValidation validator reports: the rules that fail, in the order
      they were declared. */
  function Failing<R(==,!new)>(rules: seq<R>, holds: R -> bool): (failed: seq<R>)
    ensures forall r :: r in failed <==> r in rules && !holds(r)
    ensures |failed| <= |rules|
    ensures failed == [] <==> forall r :: r in rules ==> holds(r)
    ensures (forall r :: r in rules ==> !holds(r)) ==> failed == rules
  {
    if rules == [] then []
    else
      var rest := Failing(rules[..|rules| - 1], holds);
      var last := rules[|rules| - 1];
      assert rules == rules[..|rules| - 1] + [last];
      if holds(last) then rest else rest + [last]
  }

  /** Declaring one more rule adds it at the end of the report when it fails, and
      changes nothing else; with `Failing([], holds) == []` this fixes the report as
      the failing rules in declaration order. */
  lemma FailingAppend<R(!new)>(rules: seq<R>, r: R, holds: R -> bool)
    ensures Failing(rules + [r], holds) == Failing(rules, holds) + (if holds(r) then [] else [r])
  {
    assert (rules + [r])[..|rules + [r]| - 1] == rules;
  }

  /** What one rule adds to the report: itself when it fails, nothing when it holds. */
  function IfFails<R>(r: R, holds: R -> bool): seq<R>
  {
    if holds(r) then [] else [r]
  }

  /** The report is every declared rule's contribution, rule after rule. */
  lemma {:induction false} FailingInOrder<R(!new)>(rules: seq<R>, holds: R -> bool)
    ensures Failing(rules, holds) ==
      Concat(seq(|rules|, i requires 0 <= i < |rules| => IfFails(rules[i], holds)))
  {
    var parts := seq(|rules|, i requires 0 <= i < |rules| => IfFails(rules[i], holds));
    if rules != [] {
      var n := |rules| - 1;
      var init := rules[..n];
      FailingInOrder(init, holds);
      assert parts[..n] == seq(|init|, i requires 0 <= i < |init| => IfFails(init[i], holds));
      assert rules == init + [rules[n]];
      FailingAppend(init, rules[n], holds);
    }
  }

  /** No rule is reported twice when no rule is declared twice. */
  predicate NoRepeats<R(==)>(s: seq<R>)
  {
    forall i, j :: 0 <= i < j < |s| ==> s[i] != s[j]
  }

  lemma {:induction false} FailingNoRepeats<R(!new)>(rules: seq<R>, holds: R -> bool)
    requires NoRepeats(rules)
    ensures NoRepeats(Failing(rules, holds))
  {
    if rules != [] {
      var init, last := rules[..|rules| - 1], rules[|rules| - 1];
      assert NoRepeats(init);
      FailingNoRepeats(init, holds);
      assert last !in init by {
        forall i | 0 <= i < |init| ensures init[i] != last {
          assert rules[i] == init[i];
        }
      }
      assert rules == init + [last];
      FailingAppend(init, last, holds);
    }
  }

  /** Failures decided by two tests that agree on every rule are the same. */
  lemma {:induction false} FailingAgrees<R(!new)>(rules: seq<R>, f: R -> bool, g: R -> bool)
    requires forall r :: r in rules ==> f(r) == g(r)
    ensures Failing(rules, f) == Failing(rules, g)
  {
    if rules != [] {
      FailingAgrees(rules[..|rules| - 1], f, g);
    }
  }

  /** The failures of a list validated element by element, element after element. */
  function Concat<R>(parts: seq<seq<R>>): (all: seq<R>)
    ensures all == [] <==> forall i :: 0 <= i < |parts| ==> parts[i] == []
    ensures forall i, x :: 0 <= i < |parts| && x in parts[i] ==> x in all
  {
    if parts == [] then []
    else
      var init := parts[..|parts| - 1];
      assert forall i :: 0 <= i < |init| ==> init[i] == parts[i];
      Concat(init) + parts[|parts| - 1]
  }

  /** `errors.Select(e => e.ErrorMessage.TrimEnd('.'))`. */
  function TrimAll(messages: seq<string>): (r: seq<string>)
    ensures |r| == |messages|
    ensures forall i :: 0 <= i < |r| ==> r[i] == Text.TrimEndDots(messages[i])
  {
    if messages == [] then []
    else TrimAll(messages[..|messages| - 1]) + [Text.TrimEndDots(messages[|messages| - 1])]
  }

  /** The `ValidationException` a service throws for a failed validation result. */
  function FromValidation(messages: seq<string>): (e: Error)
    ensures e.ValidationError? && |e.messages| == |messages|
    ensures forall i :: 0 <= i < |messages| ==>
              e.messages[i] == Text.TrimEndDots(messages[i])
  {
    ValidationError(TrimAll(messages))
  }
}
