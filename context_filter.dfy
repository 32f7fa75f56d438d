/**
 * Filtering of resolved items against a probability context
 * (src/Analyzer.ts, filterByContext and conditionFailed).
 */
module ContextFilter {
  import opened LootModel

  datatype LocationInfo = LocationInfo(Name: Option<string>, Type: Option<string>, Level: Option<int>)

  datatype EnemyInfo = EnemyInfo(Name: Option<string>, Type: Option<string>, Level: Option<int>, Elite: Option<bool>)

  /**
   * What is known about the situation loot is dropped in. A field that is
   * absent is not considered; giving a Location or an Enemy at all, even an
   * empty one, switches on the check of named conditions.
   */
  datatype ProbabilityContext = ProbabilityContext(
    Location: Option<LocationInfo>,
    Enemy: Option<EnemyInfo>,
    Salt: Option<bool>,
    CharacterLevel: Option<int>)

  const EmptyContext := ProbabilityContext(None, None, None, None)

  /** A context field or an expected scalar. */
  datatype Value = Flag(flag: bool) | Number(number: int)

  /** What a condition of an item expects: a scalar, or a range given by Low and High. */
  datatype Expected = Exactly(value: Value) | Within(range: NumberRange)

  /** The number a value stands for in a comparison; true counts as 1. */
  function AsNumber(v: Value): int {
    match v
    case Flag(b) => if b then 1 else 0
    case Number(n) => n
  }

  /**
   * The check of one condition, as the code computes it: absent on either
   * side means no failure; otherwise it reports true when the context value
   * lies in the expected range or equals the expected value.
   */
  function ConditionFailed(contextField: Option<Value>, expectedValue: Option<Expected>): (failed: bool)
    ensures contextField.None? || expectedValue.None? ==> !failed
    ensures contextField.Some? && expectedValue.Some? && expectedValue.value.Within? ==>
      (failed <==> expectedValue.value.range.Low <= AsNumber(contextField.value) <= expectedValue.value.range.High)
    ensures contextField.Some? && expectedValue.Some? && expectedValue.value.Exactly? ==>
      (contextField.value.Flag? == expectedValue.value.value.Flag? ==> (failed <==> contextField.value == expectedValue.value.value))
  {
    if contextField.None? || expectedValue.None? then false
    else
      match expectedValue.value
      case Within(range) => range.Low <= AsNumber(contextField.value) && AsNumber(contextField.value) <= range.High
      case Exactly(v) => AsNumber(contextField.value) == AsNumber(v)
  }

  function FlagOf(b: Option<bool>): Option<Value> {
    match b
    case None => None
    case Some(x) => Some(Flag(x))
  }

  function NumberOf(n: Option<int>): Option<Value> {
    match n
    case None => None
    case Some(x) => Some(Number(x))
  }

  function ExpectedFlag(b: Option<bool>): Option<Expected> {
    match b
    case None => None
    case Some(x) => Some(Exactly(Flag(x)))
  }

  function ExpectedRange(r: Option<NumberRange>): Option<Expected> {
    match r
    case None => None
    case Some(x) => Some(Within(x))
  }

  function EnemyElite(context: ProbabilityContext): Option<bool> {
    if context.Enemy.Some? then context.Enemy.value.Elite else None
  }

  function EnemyLevel(context: ProbabilityContext): Option<int> {
    if context.Enemy.Some? then context.Enemy.value.Level else None
  }

  function LocationLevel(context: ProbabilityContext): Option<int> {
    if context.Location.Some? then context.Location.value.Level else None
  }

  function FishingSalt(conditions: Conditions): Option<bool> {
    if conditions.Fishing.Some? then Some(conditions.Fishing.value.Salt) else None
  }

  /** None of the five checks (elite, salt, character, content and enemy level) reports failure. */
  predicate PassesChecks(conditions: Conditions, context: ProbabilityContext) {
    && !ConditionFailed(FlagOf(EnemyElite(context)), ExpectedFlag(conditions.Elite))
    && !ConditionFailed(FlagOf(context.Salt), ExpectedFlag(FishingSalt(conditions)))
    && !ConditionFailed(NumberOf(context.CharacterLevel), ExpectedRange(conditions.Levels.Character))
    && !ConditionFailed(NumberOf(LocationLevel(context)), ExpectedRange(conditions.Levels.Content))
    && !ConditionFailed(NumberOf(EnemyLevel(context)), ExpectedRange(conditions.Levels.Enemy))
  }

  function Defined(x: Option<string>): seq<string> {
    if x.Some? then [x.value] else []
  }

  /** The defined names among enemy name, enemy type, location name and location type, in that order. */
  function ContextNames(context: ProbabilityContext): (names: seq<string>)
    ensures |names| <= 4
  {
    var enemy := if context.Enemy.Some? then context.Enemy.value else EnemyInfo(None, None, None, None);
    var location := if context.Location.Some? then context.Location.value else LocationInfo(None, None, None);
    Defined(enemy.Name) + Defined(enemy.Type) + Defined(location.Name) + Defined(location.Type)
  }

  /**
   * The named rule: when an enemy or a location is given, every defined
   * context name must be matched, one occurrence at a time, by a Named tag.
   */
  predicate NamesConsumed(named: seq<string>, context: ProbabilityContext) {
    (context.Enemy.None? && context.Location.None?)
    || multiset(ContextNames(context)) <= multiset(named)
  }

  /** Whether an item with these conditions is kept in the given context. */
  predicate Eligible(conditions: Conditions, context: ProbabilityContext) {
    PassesChecks(conditions, context) && NamesConsumed(conditions.Named, context)
  }

  /** Array.prototype.indexOf: the first index of x, or -1. */
  function IndexOf(xs: seq<string>, x: string): (i: int)
    ensures -1 <= i < |xs|
    ensures i >= 0 ==> xs[i] == x && x !in xs[..i]
    ensures i < 0 ==> x !in xs
  {
    if xs == [] then -1
    else if xs[0] == x then 0
    else
      var j := IndexOf(xs[1..], x);
      if j < 0 then -1
      else
        assert xs[..j + 1] == [xs[0]] + xs[1..][..j];
        j + 1
  }

  /** Removing what a Named tag matches keeps the multiset of unmatched names equal to the difference. */
  lemma SpliceRemoves(matched: seq<string>, index: nat)
    requires index < |matched|
    ensures multiset(matched[..index] + matched[index + 1..]) == multiset(matched) - multiset{matched[index]}
  {
    assert matched == matched[..index] + [matched[index]] + matched[index + 1..];
  }

  lemma DifferenceStep(m: multiset<string>, n: multiset<string>, x: string)
    ensures x in m - n ==> (m - n) - multiset{x} == m - (n + multiset{x})
    ensures x !in m - n ==> m - n == m - (n + multiset{x})
  {
    if x in m - n {
      assert forall y :: ((m - n) - multiset{x})[y] == (m - (n + multiset{x}))[y];
    } else {
      assert forall y :: (m - n)[y] == (m - (n + multiset{x}))[y];
    }
  }

  lemma EmptyDifference(m: multiset<string>, n: multiset<string>)
    ensures |m - n| == 0 <==> m <= n
  {
    if |m - n| == 0 {
      assert m - n == multiset{};
      forall y
        ensures m[y] <= n[y]
      {
        assert (m - n)[y] == 0;
      }
    } else {
      var y :| y in m - n;
      assert m[y] > n[y];
    }
  }

  /**
   * The name-consuming loop: for each Named tag in turn, the first remaining
   * name equal to it is removed. What is left is the multiset difference.
   */
  method ConsumeNames(names: seq<string>, named: seq<string>) returns (matchedNames: seq<string>)
    ensures multiset(matchedNames) == multiset(names) - multiset(named)
  {
    matchedNames := names;
    for i := 0 to |named|
      invariant multiset(matchedNames) == multiset(names) - multiset(named[..i])
    {
      var name := named[i];
      assert multiset(named[..i + 1]) == multiset(named[..i]) + multiset{name} by {
        assert named[..i + 1] == named[..i] + [name];
      }
      var index := IndexOf(matchedNames, name);
      DifferenceStep(multiset(names), multiset(named[..i]), name);
      if index >= 0 {
        SpliceRemoves(matchedNames, index);
        matchedNames := matchedNames[..index] + matchedNames[index + 1..];
      }
    }
    assert named[..|named|] == named;
  }

  /** Decides whether an item is kept, with the early returns and the name-consuming loop of the code. */
  method FilterByContext(item: AnalyzedLootItem, context: ProbabilityContext) returns (keep: bool)
    ensures keep == Eligible(item.Conditions, context)
  {
    var conditions := item.Conditions;
    if ConditionFailed(FlagOf(EnemyElite(context)), ExpectedFlag(conditions.Elite)) {
      return false;
    }
    if ConditionFailed(FlagOf(context.Salt), ExpectedFlag(FishingSalt(conditions))) {
      return false;
    }
    if ConditionFailed(NumberOf(context.CharacterLevel), ExpectedRange(conditions.Levels.Character)) {
      return false;
    }
    if ConditionFailed(NumberOf(LocationLevel(context)), ExpectedRange(conditions.Levels.Content)) {
      return false;
    }
    if ConditionFailed(NumberOf(EnemyLevel(context)), ExpectedRange(conditions.Levels.Enemy)) {
      return false;
    }
    if context.Enemy.Some? || context.Location.Some? {
      var matchedNames := ConsumeNames(ContextNames(context), conditions.Named);
      EmptyDifference(multiset(ContextNames(context)), multiset(conditions.Named));
      if |matchedNames| > 0 {
        return false;
      }
    }
    return true;
  }

  /** The items kept by the filter, in their original order. */
  function KeptItems(items: seq<AnalyzedLootItem>, context: ProbabilityContext): (kept: seq<AnalyzedLootItem>)
    ensures |kept| <= |items|
    ensures forall k :: 0 <= k < |kept| ==> kept[k] in items && Eligible(kept[k].Conditions, context)
    ensures forall k :: 0 <= k < |items| && Eligible(items[k].Conditions, context) ==> items[k] in kept
  {
    if items == [] then []
    else
      var init := items[..|items| - 1];
      var last := items[|items| - 1];
      assert items == init + [last];
      KeptItems(init, context) + (if Eligible(last.Conditions, context) then [last] else [])
  }

  /** Filtering two lists one after the other is filtering their concatenation. */
  lemma {:induction false} KeptItemsConcat(a: seq<AnalyzedLootItem>, b: seq<AnalyzedLootItem>, context: ProbabilityContext)
    ensures KeptItems(a + b, context) == KeptItems(a, context) + KeptItems(b, context)
    decreases |b|
  {
    if b == [] {
      assert a + b == a;
    } else {
      var b' := b[..|b| - 1];
      assert (a + b)[..|a + b| - 1] == a + b';
      KeptItemsConcat(a, b', context);
    }
  }

  /** The empty context keeps every item. */
  lemma EmptyContextKeepsAll(items: seq<AnalyzedLootItem>)
    ensures KeptItems(items, EmptyContext) == items
  {
  }

  /**
   * As the code is written, a character level inside an item's character
   * level range rejects the item, and a level outside it keeps it (as far as
   * this check goes).
   */
  lemma CharacterLevelInsideRangeRejects(conditions: Conditions, level: int)
    requires conditions.Levels.Character.Some?
    ensures var range := conditions.Levels.Character.value;
      var context := EmptyContext.(CharacterLevel := Some(level));
      (range.Low <= level <= range.High ==> !Eligible(conditions, context))
      && (!(range.Low <= level <= range.High) && conditions.Elite.None? && conditions.Fishing.None?
          ==> Eligible(conditions, context))
  {
  }

  /** With an enemy or location given, an item without Named tags is kept only if no context name is defined. */
  lemma UntaggedItemsNeedNoNames(conditions: Conditions, context: ProbabilityContext)
    requires conditions.Named == [] && (context.Enemy.Some? || context.Location.Some?)
    ensures NamesConsumed(conditions.Named, context) <==> ContextNames(context) == []
  {
    if ContextNames(context) != [] {
      assert ContextNames(context)[0] in multiset(ContextNames(context));
    }
  }
}
