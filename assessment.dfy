/** The rule evaluator of assessment.py: seven comparison operators and the
    first-match colour lookup of `assess` over a configuration of
    test name -> segment -> rules. */
module Assessment {
  import opened Wrappers

  /** A rule's target value: a number, or a YAML list of numbers. */
  datatype Value = Num(x: real) | List(items: seq<real>)

  datatype Rule = Rule(operator: string, value: Value, color: string)

  /** The loaded configuration, with each segment's `rules` list. */
  type Config = map<string, map<string, seq<Rule>>>

  /** The exceptions `assess` lets escape. */
  datatype Error =
    | UnknownTest(test: string)                    // ValueError, no such test name
    | UnknownSegment(test: string, segment: string) // ValueError, no such segment
    | UnsupportedOperator(name: string)            // ValueError from the AttributeError of getattr
    | BadRange                                     // ValueError raised by `between`
    | Incomparable                                 // TypeError: ordering a number against a list
    | NoColorAttribute                             // AttributeError: attribute access on a dict
    | BadCall(name: string)                        // TypeError: an inherited attribute called with (value, target)

  /** The methods of `Evaluator` a rule can name. */
  datatype Operator = Equals | NotEquals | LessOrEqual | GreatOrEqual | Higher | Lower | Between

  function Name(op: Operator): string
  {
    match op
    case Equals => "equals"
    case NotEquals => "not_equals"
    case LessOrEqual => "less_or_equal"
    case GreatOrEqual => "great_or_equal"
    case Higher => "higher"
    case Lower => "lower"
    case Between => "between"
  }

  /** The `getattr` lookup: the operator of that name, if there is one. */
  function OperatorNamed(name: string): (r: Option<Operator>)
    ensures r.Some? ==> Name(r.value) == name
    ensures r.None? ==> forall op: Operator :: Name(op) != name
  {
    if name == "equals" then Some(Equals)
    else if name == "not_equals" then Some(NotEquals)
    else if name == "less_or_equal" then Some(LessOrEqual)
    else if name == "great_or_equal" then Some(GreatOrEqual)
    else if name == "higher" then Some(Higher)
    else if name == "lower" then Some(Lower)
    else if name == "between" then Some(Between)
    else None
  }

  /** `object.__subclasshook__`, which an `Evaluator` instance inherits. It
      accepts any arguments and returns NotImplemented, a true value on
      CPython 3.11 and 3.12. */
  const SubclassHook: string := "__subclasshook__"

  /** The other attributes an `Evaluator` instance has on CPython 3.11 and
      3.12: those inherited from `object` and those its class statement
      adds. None of them takes `(value, target)` with a numeric value: each
      is either not callable or raises TypeError on that call. */
  const InheritedNames: set<string> := {
    "__class__", "__delattr__", "__dir__", "__doc__", "__eq__", "__format__", "__ge__",
    "__getattribute__", "__getstate__", "__gt__", "__hash__", "__init__", "__init_subclass__",
    "__le__", "__lt__", "__ne__", "__new__", "__reduce__", "__reduce_ex__", "__repr__",
    "__setattr__", "__sizeof__", "__str__",
    "__dict__", "__module__", "__weakref__"}

  /** What `getattr(evaluator, name)` finds. */
  datatype Attribute = Comparison(op: Operator) | Hook | InheritedAttribute | Absent

  /** `getattr(evaluator, name)`: one of the seven comparison methods, the
      inherited `__subclasshook__`, another inherited attribute, or nothing
      (AttributeError). The four cases do not overlap. */
  function GetAttr(name: string): (r: Attribute)
    ensures r.Comparison? <==> OperatorNamed(name).Some?
    ensures r.Comparison? ==> Name(r.op) == name
    ensures r.Hook? <==> name == SubclassHook
    ensures r.InheritedAttribute? <==> name in InheritedNames
    ensures r.Absent? <==> (forall op: Operator :: Name(op) != name) && name != SubclassHook && name !in InheritedNames
  {
    match OperatorNamed(name)
    case Some(op) => Comparison(op)
    case None =>
      if name == SubclassHook then Hook
      else if name in InheritedNames then InheritedAttribute
      else Absent
  }

  /** Every operator is found under its own name. */
  lemma OperatorNamedName(op: Operator)
    ensures OperatorNamed(Name(op)) == Some(op)
  {
    match op
    case Equals =>
    case NotEquals =>
    case LessOrEqual =>
    case GreatOrEqual =>
    case Higher =>
    case Lower =>
    case Between =>
  }

  /** `evaluator_func(value, rule['value'])`. A number never equals a list;
      ordering a number against a list raises a TypeError; `between` wants a
      list of exactly two values. */
  function Evaluate(op: Operator, source: real, target: Value): Result<bool, Error>
  {
    match op
    case Equals => Ok(target == Num(source))
    case NotEquals => Ok(target != Num(source))
    case LessOrEqual => if target.Num? then Ok(source <= target.x) else Err(Incomparable)
    case GreatOrEqual => if target.Num? then Ok(source >= target.x) else Err(Incomparable)
    case Higher => if target.Num? then Ok(source > target.x) else Err(Incomparable)
    case Lower => if target.Num? then Ok(source < target.x) else Err(Incomparable)
    case Between =>
      if !target.List? || |target.items| != 2 then Err(BadRange)
      else Ok(target.items[0] <= source <= target.items[1])
  }

  /** `not_equals` is the negation of `equals`, and neither fails. */
  lemma NotEqualsNegatesEquals(source: real, target: Value)
    ensures Evaluate(Equals, source, target).Ok? && Evaluate(NotEquals, source, target).Ok?
    ensures Evaluate(NotEquals, source, target).value == !Evaluate(Equals, source, target).value
    ensures Evaluate(Equals, source, target).value <==> target.Num? && target.x == source
  {
  }

  /** The four orderings fail exactly on a list target, and otherwise pair up
      as complements: `less_or_equal` / `higher` and `great_or_equal` / `lower`. */
  lemma OrderingsComplement(source: real, target: Value)
    ensures Evaluate(LessOrEqual, source, target).Err? <==> target.List?
    ensures Evaluate(GreatOrEqual, source, target).Err? <==> target.List?
    ensures Evaluate(Higher, source, target).Err? <==> target.List?
    ensures Evaluate(Lower, source, target).Err? <==> target.List?
    ensures target.Num? ==>
      Evaluate(LessOrEqual, source, target).value == !Evaluate(Higher, source, target).value &&
      Evaluate(GreatOrEqual, source, target).value == !Evaluate(Lower, source, target).value
  {
  }

  /** `between` raises unless the target is a two-element list, and then it is
      `great_or_equal` the first bound and `less_or_equal` the second. */
  lemma BetweenBounds(source: real, target: Value)
    ensures Evaluate(Between, source, target).Err? <==> !(target.List? && |target.items| == 2)
    ensures Evaluate(Between, source, target).Err? ==> Evaluate(Between, source, target).error == BadRange
    ensures target.List? && |target.items| == 2 ==>
      var lo, hi := target.items[0], target.items[1];
      Evaluate(Between, source, target) ==
        Ok(Evaluate(GreatOrEqual, source, Num(lo)).value && Evaluate(LessOrEqual, source, Num(hi)).value)
  {
  }

  /** One pass of the loop body: look the operator up, then apply it. A
      missing attribute becomes the ValueError of line 55; `__subclasshook__`
      returns NotImplemented, which `if result:` takes as a match; any other
      inherited attribute is called and raises TypeError, which the
      `except` does not catch. */
  function Test(rule: Rule, value: real): Result<bool, Error>
  {
    match GetAttr(rule.operator)
    case Absent => Err(UnsupportedOperator(rule.operator))
    case Hook => Ok(true)
    case InheritedAttribute => Err(BadCall(rule.operator))
    case Comparison(op) => Evaluate(op, value, rule.value)
  }

  /** The rules of `rules` up to `k` were all tried and did not match. */
  predicate NoneMatchBefore(rules: seq<Rule>, value: real, k: nat)
    requires k <= |rules|
  {
    forall j :: 0 <= j < k ==> Test(rules[j], value) == Ok(false)
  }

  /** The loop of `assess` with a pluggable answer for a matching rule:
      `onMatch` is what the `return` on a match produces. */
  function FirstMatchWith(rules: seq<Rule>, value: real, onMatch: Rule -> Result<Option<string>, Error>): (r: Result<Option<string>, Error>)
    decreases |rules|
  {
    if rules == [] then Ok(None)
    else match Test(rules[0], value)
      case Err(e) => Err(e)
      case Ok(true) => onMatch(rules[0])
      case Ok(false) => FirstMatchWith(rules[1..], value, onMatch)
  }

  /** The loop stops at the first rule that matches or fails, and returns
      what that rule gives; when every rule was tried without a match, it
      returns None. */
  lemma {:induction false} FirstMatchWithStops(rules: seq<Rule>, value: real, onMatch: Rule -> Result<Option<string>, Error>)
    ensures NoneMatchBefore(rules, value, |rules|) ==> FirstMatchWith(rules, value, onMatch) == Ok(None)
    ensures forall k :: 0 <= k < |rules| && NoneMatchBefore(rules, value, k) && Test(rules[k], value) != Ok(false) ==>
      FirstMatchWith(rules, value, onMatch) ==
        if Test(rules[k], value).Err? then Err(Test(rules[k], value).error) else onMatch(rules[k])
    decreases |rules|
  {
    if rules != [] {
      FirstMatchWithStops(rules[1..], value, onMatch);
      assert forall j :: 1 <= j < |rules| ==> rules[1..][j - 1] == rules[j];
      if Test(rules[0], value) == Ok(false) {
        forall k | 1 <= k < |rules| && NoneMatchBefore(rules, value, k)
          ensures NoneMatchBefore(rules[1..], value, k - 1)
        {
        }
        if NoneMatchBefore(rules, value, |rules|) {
          assert NoneMatchBefore(rules[1..], value, |rules| - 1);
        }
      }
    }
  }

  /** A loop that meets no match and no error runs through every rule. */
  lemma {:induction false} FirstMatchWithExhausts(rules: seq<Rule>, value: real, onMatch: Rule -> Result<Option<string>, Error>)
    ensures FirstMatchWith(rules, value, onMatch) == Ok(None) && (forall rule :: onMatch(rule) != Ok(None)) ==>
      NoneMatchBefore(rules, value, |rules|)
    decreases |rules|
  {
    if rules != [] {
      FirstMatchWithExhausts(rules[1..], value, onMatch);
      if FirstMatchWith(rules, value, onMatch) == Ok(None) && (forall rule :: onMatch(rule) != Ok(None)) {
        assert Test(rules[0], value) == Ok(false);
        assert forall j :: 1 <= j < |rules| ==> rules[1..][j - 1] == rules[j];
      }
    }
  }

  /** The `return` of the source as written: `rule.color` is attribute access
      on the dictionary a YAML rule loads as, which raises AttributeError. */
  function ColorAttribute(rule: Rule): Result<Option<string>, Error>
  {
    Err(NoColorAttribute)
  }

  /** The evidently intended `return rule['color']`. */
  function ColorEntry(rule: Rule): Result<Option<string>, Error>
  {
    Ok(Some(rule.color))
  }

  /** The lookup and the two ValueErrors that come before the loop. */
  function SegmentRules(config: Config, test: string, segment: string): (r: Result<seq<Rule>, Error>)
    ensures r == Err(UnknownTest(test)) <==> test !in config
    ensures r == Err(UnknownSegment(test, segment)) <==> test in config && segment !in config[test]
    ensures r.Ok? <==> test in config && segment in config[test]
    ensures r.Ok? ==> r.value == config[test][segment]
  {
    if test !in config then Err(UnknownTest(test))
    else if segment !in config[test] then Err(UnknownSegment(test, segment))
    else Ok(config[test][segment])
  }

  /** `assess` as written: a matching rule ends in AttributeError. */
  function AssessAsWritten(config: Config, value: real, test: string, segment: string): Result<Option<string>, Error>
  {
    match SegmentRules(config, test, segment)
    case Err(e) => Err(e)
    case Ok(rules) => FirstMatchWith(rules, value, ColorAttribute)
  }

  /** `assess` as intended: the colour of the first matching rule. */
  function Assess(config: Config, value: real, test: string, segment: string): Result<Option<string>, Error>
  {
    match SegmentRules(config, test, segment)
    case Err(e) => Err(e)
    case Ok(rules) => FirstMatchWith(rules, value, ColorEntry)
  }

  /** As written, `assess` never returns a colour: it returns None when no
      rule matches and raises otherwise. */
  lemma {:induction false} AssessAsWrittenNeverColours(config: Config, value: real, test: string, segment: string)
    ensures AssessAsWritten(config, value, test, segment) != Ok(None) ==> AssessAsWritten(config, value, test, segment).Err?
    ensures test in config && segment in config[test] && !NoneMatchBefore(config[test][segment], value, |config[test][segment]|) ==>
      AssessAsWritten(config, value, test, segment).Err?
  {
    if test in config && segment in config[test] {
      var rules := config[test][segment];
      NeverColours(rules, value);
      FirstMatchWithExhausts(rules, value, ColorAttribute);
    }
  }

  lemma {:induction false} NeverColours(rules: seq<Rule>, value: real)
    ensures FirstMatchWith(rules, value, ColorAttribute) == Ok(None) || FirstMatchWith(rules, value, ColorAttribute).Err?
    decreases |rules|
  {
    if rules != [] {
      NeverColours(rules[1..], value);
    }
  }

  /** A concrete configuration on which the source raises where a colour was
      meant: value 1 against `equals 1 -> green`. */
  lemma AssessAsWrittenCounterexample()
    ensures var config := map["JEFFREYS_TEST" := map["HIGH_DEFAULT_PORTFOLIO" := [Rule("equals", Num(1.0), "green")]]];
      AssessAsWritten(config, 1.0, "JEFFREYS_TEST", "HIGH_DEFAULT_PORTFOLIO") == Err(NoColorAttribute) &&
      Assess(config, 1.0, "JEFFREYS_TEST", "HIGH_DEFAULT_PORTFOLIO") == Ok(Some("green"))
  {
    var rules := [Rule("equals", Num(1.0), "green")];
    assert OperatorNamed("equals") == Some(Equals);
    assert Test(rules[0], 1.0) == Ok(true);
  }

  /** The errors of `assess`, in order: an unknown test name, then an unknown
      segment; after those, the loop's outcome. */
  lemma AssessErrors(config: Config, value: real, test: string, segment: string)
    ensures test !in config ==> Assess(config, value, test, segment) == Err(UnknownTest(test))
    ensures test in config && segment !in config[test] ==> Assess(config, value, test, segment) == Err(UnknownSegment(test, segment))
  {
  }

  /** The result of `assess` (as intended) is None exactly when every rule
      was tried and none matched; it is a colour exactly when some rule
      matched and every earlier rule was tried without matching, and then it
      is that rule's colour; an unknown operator or a failing comparison in
      that position raises instead. */
  lemma {:induction false} AssessFirstMatch(config: Config, value: real, test: string, segment: string)
    requires test in config && segment in config[test]
    ensures var rules := config[test][segment];
      (Assess(config, value, test, segment) == Ok(None) <==> NoneMatchBefore(rules, value, |rules|)) &&
      forall k :: 0 <= k < |rules| && NoneMatchBefore(rules, value, k) ==>
        (Test(rules[k], value) == Ok(true) ==> Assess(config, value, test, segment) == Ok(Some(rules[k].color))) &&
        (Test(rules[k], value).Err? ==> Assess(config, value, test, segment) == Err(Test(rules[k], value).error))
  {
    var rules := config[test][segment];
    FirstMatchWithStops(rules, value, ColorEntry);
    FirstMatchWithExhausts(rules, value, ColorEntry);
  }

  /** An unsupported operator name raises as soon as the loop reaches it. */
  lemma {:induction false} UnsupportedOperatorReached(config: Config, value: real, test: string, segment: string, k: nat)
    requires test in config && segment in config[test]
    requires k < |config[test][segment]| && NoneMatchBefore(config[test][segment], value, k)
    requires GetAttr(config[test][segment][k].operator).Absent?
    ensures Assess(config, value, test, segment) == Err(UnsupportedOperator(config[test][segment][k].operator))
  {
    AssessFirstMatch(config, value, test, segment);
  }

  /** An operator naming another inherited attribute, such as `__init__`, raises
      TypeError, not the ValueError of an unsupported operator, as soon as
      the loop reaches its rule. */
  lemma {:induction false} InheritedOperatorReached(config: Config, value: real, test: string, segment: string, k: nat)
    requires test in config && segment in config[test]
    requires k < |config[test][segment]| && NoneMatchBefore(config[test][segment], value, k)
    requires config[test][segment][k].operator in InheritedNames
    ensures Assess(config, value, test, segment) == Err(BadCall(config[test][segment][k].operator))
  {
    AssessFirstMatch(config, value, test, segment);
  }

  /** A rule whose operator is `__subclasshook__` matches whatever the value:
      as intended `assess` returns its colour, as written it raises the
      AttributeError of line 59. */
  lemma {:induction false} SubclassHookReached(config: Config, value: real, test: string, segment: string, k: nat)
    requires test in config && segment in config[test]
    requires k < |config[test][segment]| && NoneMatchBefore(config[test][segment], value, k)
    requires config[test][segment][k].operator == SubclassHook
    ensures Assess(config, value, test, segment) == Ok(Some(config[test][segment][k].color))
    ensures AssessAsWritten(config, value, test, segment) == Err(NoColorAttribute)
  {
    AssessFirstMatch(config, value, test, segment);
    FirstMatchWithStops(config[test][segment], value, ColorAttribute);
  }
}
