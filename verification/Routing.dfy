/**
  Engine routing (services/execution_engine/routing.py): the built-in routers over a list
  of available engine types, and the registry that picks a router by strategy.
 */
module Routing {
  import opened Prelude

  datatype EngineType =
    | ClaudeCode | CodexCli | Hermes | OpenHands | Aider | Continue | Cline | RooCode
    | OpenCode | AgyCli | Ollama | Local | Custom

  function Value(t: EngineType): string {
    match t
    case ClaudeCode => "claude_code"
    case CodexCli => "codex_cli"
    case Hermes => "hermes"
    case OpenHands => "openhands"
    case Aider => "aider"
    case Continue => "continue"
    case Cline => "cline"
    case RooCode => "roo_code"
    case OpenCode => "opencode"
    case AgyCli => "agy_cli"
    case Ollama => "ollama"
    case Local => "local"
    case Custom => "custom"
  }

  /** Stands for infinity: above every entry of both tables below. */
  const INFINITE := 1000000.0

  /** Average latency in seconds; three types are missing from the table. */
  function Latency(t: EngineType): real {
    match t
    case ClaudeCode => 15.0
    case CodexCli => 20.0
    case Hermes => 2.0
    case OpenHands => 25.0
    case Aider => 12.0
    case Continue => 18.0
    case Cline => 14.0
    case RooCode => 16.0
    case Local => 1.0
    case Custom => 10.0
    case _ => INFINITE
  }

  /** Cost per token in millionths of a dollar, or the given value for a type not in the table. */
  function Cost(t: EngineType, absent: real): real {
    match t
    case ClaudeCode => 15.0
    case CodexCli => 10.0
    case Hermes => 0.0
    case OpenHands => 8.0
    case Aider => 6.0
    case Continue => 12.0
    case Cline => 14.0
    case RooCode => 7.0
    case Local => 0.0
    case Custom => 10.0
    case _ => absent
  }

  function Quality(t: EngineType): real {
    match t
    case ClaudeCode => 0.95
    case CodexCli => 0.90
    case Hermes => 0.75
    case OpenHands => 0.85
    case Aider => 0.80
    case Continue => 0.82
    case Cline => 0.83
    case RooCode => 0.78
    case Local => 0.60
    case Custom => 0.70
    case _ => 0.0
  }

  datatype Strategy =
    | Fastest | LowestCost | HighestQuality | CapabilityBased | LoadBalancing | Failover | CustomStrategy

  datatype Decision = Decision(selected: EngineType, strategy: Strategy, alternatives: seq<EngineType>)

  // ---- Stable sorting ----

  type Ranking = EngineType -> real

  function Insert(x: EngineType, xs: seq<EngineType>, key: Ranking): seq<EngineType> {
    if xs == [] || key(x) <= key(xs[0]) then [x] + xs else [xs[0]] + Insert(x, xs[1..], key)
  }

  /** `sorted` by ascending key; elements of equal key keep their order. */
  function Sorted(xs: seq<EngineType>, key: Ranking): (r: seq<EngineType>)
    ensures |r| == |xs|
  {
    if xs == [] then [] else
      var rest := Sorted(xs[1..], key);
      InsertLength(xs[0], rest, key);
      Insert(xs[0], rest, key)
  }

  lemma {:induction false} InsertLength(x: EngineType, xs: seq<EngineType>, key: Ranking)
    ensures |Insert(x, xs, key)| == |xs| + 1 && multiset(Insert(x, xs, key)) == multiset(xs) + multiset{x}
  {
    if xs != [] && !(key(x) <= key(xs[0])) {
      InsertLength(x, xs[1..], key);
      assert xs == [xs[0]] + xs[1..];
    }
  }

  lemma {:induction false} SortedPermutes(xs: seq<EngineType>, key: Ranking)
    ensures multiset(Sorted(xs, key)) == multiset(xs)
  {
    if xs != [] {
      SortedPermutes(xs[1..], key);
      InsertLength(xs[0], Sorted(xs[1..], key), key);
      assert xs == [xs[0]] + xs[1..];
    }
  }

  /** Element `i` has the least key of all, and no earlier element has that key. */
  predicate FirstLeast(xs: seq<EngineType>, key: Ranking, i: nat) {
    && i < |xs|
    && (forall j :: 0 <= j < |xs| ==> key(xs[i]) <= key(xs[j]))
    && (forall j :: 0 <= j < i ==> key(xs[i]) < key(xs[j]))
  }

  lemma {:induction false} FirstLeastPrepend(x: EngineType, rest: seq<EngineType>, key: Ranking, i: nat)
    requires FirstLeast(rest, key, i)
    ensures FirstLeast([x] + rest, key, if key(x) <= key(rest[i]) then 0 else i + 1)
  {
    var xs := [x] + rest;
    forall j | 0 <= j < |xs|
      ensures xs[j] == if j == 0 then x else rest[j - 1]
    {
    }
  }

  /** Sorting and taking the head selects the first element of least key. */
  lemma {:induction false} SortedHead(xs: seq<EngineType>, key: Ranking) returns (i: nat)
    requires xs != []
    ensures FirstLeast(xs, key, i) && Sorted(xs, key)[0] == xs[i]
  {
    if |xs| == 1 {
      i := 0;
    } else {
      var rest := xs[1..];
      var k := SortedHead(rest, key);
      assert xs == [xs[0]] + rest;
      FirstLeastPrepend(xs[0], rest, key, k);
      i := if key(xs[0]) <= key(rest[k]) then 0 else k + 1;
    }
  }

  lemma SortedHeadIsLeast(xs: seq<EngineType>, key: Ranking)
    requires xs != []
    ensures Sorted(xs, key)[0] in xs && forall e :: e in xs ==> key(Sorted(xs, key)[0]) <= key(e)
  {
    var i := SortedHead(xs, key);
    assert xs[i] in xs;
  }

  function HeadDecision(xs: seq<EngineType>, key: Ranking, strategy: Strategy): Decision
    requires xs != []
  {
    Decision(Sorted(xs, key)[0], strategy, Sorted(xs, key)[1..])
  }

  // ---- The stateless routers ----

  function LatencyKey(): Ranking {
    (e: EngineType) => Latency(e)
  }

  function CostKey(): Ranking {
    (e: EngineType) => Cost(e, INFINITE)
  }

  /** Sorting in reverse keeps ties in order, so it is sorting by the negated key. */
  function QualityKey(): Ranking {
    (e: EngineType) => -Quality(e)
  }

  function OnlyFree(xs: seq<EngineType>): seq<EngineType> {
    if xs == [] then [] else if Cost(xs[0], 0.0) == 0.0 then [xs[0]] + OnlyFree(xs[1..]) else OnlyFree(xs[1..])
  }

  function Others(xs: seq<EngineType>, e: EngineType): seq<EngineType> {
    if xs == [] then [] else if xs[0] != e then [xs[0]] + Others(xs[1..], e) else Others(xs[1..], e)
  }

  function SelectFastest(xs: seq<EngineType>): Decision
    requires xs != []
  {
    HeadDecision(xs, LatencyKey(), Fastest)
  }

  /** A free engine if there is one, otherwise the cheapest. */
  function SelectLowestCost(xs: seq<EngineType>): Decision
    requires xs != []
  {
    var free := OnlyFree(xs);
    var target := if free != [] then free[0] else Sorted(xs, CostKey())[0];
    Decision(target, LowestCost, Others(xs, target))
  }

  function SelectHighestQuality(xs: seq<EngineType>): Decision
    requires xs != []
  {
    HeadDecision(xs, QualityKey(), HighestQuality)
  }

  /** What the routers read of a routing context: capabilities are keyed by the type's value. */
  datatype Context = Context(required: seq<string>, features: map<string, set<string>>)

  /** How many of the required capabilities, counted with repetition, the engine offers. */
  function Matched(required: seq<string>, offered: set<string>): nat {
    if required == [] then 0 else (if required[0] in offered then 1 else 0) + Matched(required[1..], offered)
  }

  function Score(context: Context, e: EngineType): nat {
    if Value(e) in context.features then Matched(context.required, context.features[Value(e)]) else 0
  }

  function ScoreKey(context: Context): Ranking {
    (e: EngineType) => -(Score(context, e) as real)
  }

  /** Falls back to the fastest router when nothing is required. */
  function SelectCapable(xs: seq<EngineType>, context: Context): Decision
    requires xs != []
  {
    if context.required == [] then SelectFastest(xs) else HeadDecision(xs, ScoreKey(context), CapabilityBased)
  }

  lemma CapableIsMost(xs: seq<EngineType>, context: Context)
    requires xs != []
    ensures
      var d := SelectCapable(xs, context);
      && d.selected in xs && (forall e :: e in xs ==> Score(context, e) <= Score(context, d.selected))
      && multiset([d.selected] + d.alternatives) == multiset(xs)
  {
    if context.required == [] {
      FastestIsLeast(xs);
    } else {
      var key := ScoreKey(context);
      SortedHeadIsLeast(xs, key);
      SortedPermutes(xs, key);
      var sorted := Sorted(xs, key);
      assert [sorted[0]] + sorted[1..] == sorted;
      forall e | e in xs
        ensures Score(context, e) <= Score(context, sorted[0])
      {
        assert key(sorted[0]) <= key(e);
      }
    }
  }

  lemma {:induction false} FreeHead(xs: seq<EngineType>)
    ensures OnlyFree(xs) != [] ==> Cost(OnlyFree(xs)[0], 0.0) == 0.0 && OnlyFree(xs)[0] in xs
    ensures OnlyFree(xs) == [] ==> forall e :: e in xs ==> Cost(e, 0.0) > 0.0
  {
    if xs != [] {
      FreeHead(xs[1..]);
    }
  }

  /** Preferring free engines is the same as minimising cost: the shortcut loses nothing. */
  lemma LowestCostIsLeast(xs: seq<EngineType>)
    requires xs != []
    ensures
      var d := SelectLowestCost(xs);
      d.selected in xs && forall e :: e in xs ==> Cost(d.selected, 0.0) <= Cost(e, 0.0)
  {
    FreeHead(xs);
    SortedHeadIsLeast(xs, CostKey());
    assert forall e :: CostKey()(e) == Cost(e, INFINITE);
  }

  lemma FastestIsLeast(xs: seq<EngineType>)
    requires xs != []
    ensures
      var d := SelectFastest(xs);
      && d.selected in xs && (forall e :: e in xs ==> Latency(d.selected) <= Latency(e))
      && multiset([d.selected] + d.alternatives) == multiset(xs)
  {
    SortedHeadIsLeast(xs, LatencyKey());
    SortedPermutes(xs, LatencyKey());
    assert forall e :: LatencyKey()(e) == Latency(e);
    var sorted := Sorted(xs, LatencyKey());
    assert [sorted[0]] + sorted[1..] == sorted;
  }

  lemma HighestQualityIsMost(xs: seq<EngineType>)
    requires xs != []
    ensures
      var d := SelectHighestQuality(xs);
      && d.selected in xs && (forall e :: e in xs ==> Quality(e) <= Quality(d.selected))
      && multiset([d.selected] + d.alternatives) == multiset(xs)
  {
    SortedHeadIsLeast(xs, QualityKey());
    SortedPermutes(xs, QualityKey());
    assert forall e :: QualityKey()(e) == -Quality(e);
    var sorted := Sorted(xs, QualityKey());
    assert [sorted[0]] + sorted[1..] == sorted;
  }

  // ---- Load balancing ----

  type Counter = map<EngineType, nat>

  function CountOf(c: Counter, e: EngineType): nat {
    if e in c then c[e] else 0
  }

  function LoadKey(c: Counter): Ranking {
    (e: EngineType) => CountOf(c, e) as real
  }

  /** The type a load-balancing pick selects. */
  function Pick(c: Counter, xs: seq<EngineType>): EngineType
    requires xs != []
  {
    Sorted(xs, LoadKey(c))[0]
  }

  function Bumped(c: Counter, e: EngineType): Counter {
    c[e := CountOf(c, e) + 1]
  }

  lemma PickIsLeast(c: Counter, xs: seq<EngineType>)
    requires xs != []
    ensures Pick(c, xs) in xs && forall e :: e in xs ==> CountOf(c, Pick(c, xs)) <= CountOf(c, e)
  {
    SortedHeadIsLeast(xs, LoadKey(c));
    forall e | e in xs
      ensures CountOf(c, Pick(c, xs)) <= CountOf(c, e)
    {
      assert LoadKey(c)(Pick(c, xs)) <= LoadKey(c)(e);
    }
  }

  /** Equal counters, up to entries of zero. */
  ghost predicate Alike(c: Counter, c': Counter) {
    forall e :: CountOf(c, e) == CountOf(c', e)
  }

  /** The stateful router; `setdefault` enters zero for every available type first. */
  class LoadBalancingRouter {
    var counter: Counter
    /** The available types of every selection made so far. */
    ghost var calls: seq<seq<EngineType>>

    ghost predicate Valid()
      reads this
    {
      [] !in calls && Alike(After(calls), counter)
    }

    constructor ()
      ensures Valid() && counter == map[] && calls == []
    {
      counter, calls := map[], [];
    }

    method Select(available: seq<EngineType>) returns (d: Option<Decision>)
      requires Valid()
      modifies this
      ensures Valid()
      ensures d.None? <==> available == []
      ensures available == [] ==> counter == old(counter) && calls == old(calls)
      ensures available != [] ==>
                && calls == old(calls) + [available]
                && d.value.selected == Pick(old(counter), available)
                && multiset([d.value.selected] + d.value.alternatives) == multiset(available)
                && Alike(Bumped(old(counter), d.value.selected), counter)
    {
      hide Pick, Bumped;
      if available == [] {
        return None;
      }
      for i := 0 to |available|
        invariant calls == old(calls) && Alike(old(counter), counter)
      {
        if available[i] !in counter {
          counter := counter[available[i] := 0];
        }
      }
      hide Alike;
      var sorted := Sorted(available, LoadKey(counter));
      PickHead(counter, available);
      SameLoad(old(counter), counter, available);
      SameBump(old(counter), counter, sorted[0]);
      AfterStep(calls, available, old(counter), counter);
      counter := Bumped(counter, sorted[0]);
      calls := calls + [available];
      d := Some(Decision(sorted[0], LoadBalancing, sorted[1..]));
    }
  }

  lemma PickHead(c: Counter, xs: seq<EngineType>)
    requires xs != []
    ensures
      var sorted := Sorted(xs, LoadKey(c));
      sorted[0] == Pick(c, xs) && multiset([sorted[0]] + sorted[1..]) == multiset(xs)
  {
    SortedPermutes(xs, LoadKey(c));
    var sorted := Sorted(xs, LoadKey(c));
    assert [sorted[0]] + sorted[1..] == sorted;
  }

  lemma AfterStep(calls: seq<seq<EngineType>>, xs: seq<EngineType>, c: Counter, c': Counter)
    requires xs != [] && [] !in calls && Alike(After(calls), c) && Alike(c, c')
    ensures [] !in calls + [xs] && Alike(After(calls + [xs]), Bumped(c', Pick(c', xs)))
  {
    assert Alike(After(calls), c');
    SameLoad(After(calls), c', xs);
    SameBump(After(calls), c', Pick(c', xs));
    assert (calls + [xs])[..|calls|] == calls;
  }

  lemma {:induction false} SameOrder(xs: seq<EngineType>, key: Ranking, key': Ranking)
    requires forall e :: key(e) == key'(e)
    ensures Sorted(xs, key) == Sorted(xs, key')
  {
    if xs != [] {
      SameOrder(xs[1..], key, key');
      SameInsert(xs[0], Sorted(xs[1..], key), key, key');
    }
  }

  lemma {:induction false} SameInsert(x: EngineType, xs: seq<EngineType>, key: Ranking, key': Ranking)
    requires forall e :: key(e) == key'(e)
    ensures Insert(x, xs, key) == Insert(x, xs, key')
  {
    if xs != [] {
      SameInsert(x, xs[1..], key, key');
    }
  }

  lemma SameLoad(c: Counter, c': Counter, xs: seq<EngineType>)
    requires xs != [] && Alike(c, c')
    ensures Pick(c, xs) == Pick(c', xs)
  {
    SameOrder(xs, LoadKey(c), LoadKey(c'));
  }

  lemma SameBump(c: Counter, c': Counter, x: EngineType)
    requires Alike(c, c')
    ensures Alike(Bumped(c, x), Bumped(c', x))
  {
    forall e
      ensures CountOf(Bumped(c, x), e) == CountOf(Bumped(c', x), e)
    {
      assert CountOf(c, e) == CountOf(c', e) && CountOf(c, x) == CountOf(c', x);
    }
  }

  // ---- Fairness over runs of picks ----

  /** The counters after a run of selections, one list of available types per call. */
  function After(calls: seq<seq<EngineType>>): Counter
    requires [] !in calls
  {
    if calls == [] then map[]
    else
      var before := After(calls[..|calls| - 1]);
      Bumped(before, Pick(before, calls[|calls| - 1]))
  }

  const ALL_TYPES: seq<EngineType> :=
    [ClaudeCode, CodexCli, Hermes, OpenHands, Aider, Continue, Cline, RooCode, OpenCode, AgyCli, Ollama, Local, Custom]

  function Total(c: Counter, over: seq<EngineType>): nat {
    if over == [] then 0 else CountOf(c, over[0]) + Total(c, over[1..])
  }

  lemma {:induction false} TotalBump(c: Counter, x: EngineType, over: seq<EngineType>)
    requires Distinct(over)
    ensures Total(Bumped(c, x), over) == Total(c, over) + if x in over then 1 else 0
  {
    if over != [] {
      TotalBump(c, x, over[1..]);
      if x == over[0] {
        assert x !in over[1..];
      }
    }
  }

  lemma AllTypesListed(t: EngineType)
    ensures t in ALL_TYPES && Distinct(ALL_TYPES)
  {
    match t
    case ClaudeCode => assert ALL_TYPES[0] == t;
    case CodexCli => assert ALL_TYPES[1] == t;
    case Hermes => assert ALL_TYPES[2] == t;
    case OpenHands => assert ALL_TYPES[3] == t;
    case Aider => assert ALL_TYPES[4] == t;
    case Continue => assert ALL_TYPES[5] == t;
    case Cline => assert ALL_TYPES[6] == t;
    case RooCode => assert ALL_TYPES[7] == t;
    case OpenCode => assert ALL_TYPES[8] == t;
    case AgyCli => assert ALL_TYPES[9] == t;
    case Ollama => assert ALL_TYPES[10] == t;
    case Local => assert ALL_TYPES[11] == t;
    case Custom => assert ALL_TYPES[12] == t;
  }

  /** Whatever was available at each call, the counters add up to the number of picks. */
  lemma {:induction false} CountersSumToPicks(calls: seq<seq<EngineType>>)
    requires [] !in calls
    ensures Total(After(calls), ALL_TYPES) == |calls|
  {
    if calls == [] {
      AllZero(ALL_TYPES);
    } else {
      var before := After(calls[..|calls| - 1]);
      var x := Pick(before, calls[|calls| - 1]);
      CountersSumToPicks(calls[..|calls| - 1]);
      AllTypesListed(x);
      TotalBump(before, x, ALL_TYPES);
    }
  }

  lemma {:induction false} AllZero(over: seq<EngineType>)
    ensures Total(map[], over) == 0
  {
    if over != [] {
      AllZero(over[1..]);
    }
  }

  /** Every type of `s` has been picked `low` times, or once more if it is in `high`. */
  ghost predicate Level(c: Counter, s: set<EngineType>, low: nat, high: set<EngineType>) {
    && high < s
    && (forall e :: e in s ==> CountOf(c, e) == low + if e in high then 1 else 0)
    && (forall e :: e !in s ==> CountOf(c, e) == 0)
  }

  ghost predicate Offers(xs: seq<EngineType>, s: set<EngineType>) {
    forall e :: e in xs <==> e in s
  }

  lemma LevelBump(c: Counter, s: set<EngineType>, low: nat, high: set<EngineType>, x: EngineType)
    requires Level(c, s, low, high) && x in s && x !in high
    ensures high + {x} == s ==> Level(Bumped(c, x), s, low + 1, {})
    ensures high + {x} != s ==> Level(Bumped(c, x), s, low, high + {x})
  {
    assert s != {};
  }

  /** A pick from a level state takes a type at the low mark. */
  lemma LevelPick(c: Counter, s: set<EngineType>, low: nat, high: set<EngineType>, xs: seq<EngineType>)
    requires Level(c, s, low, high) && xs != [] && Offers(xs, s)
    ensures Pick(c, xs) in s && Pick(c, xs) !in high
  {
    PickIsLeast(c, xs);
    var y :| y in s && y !in high;
    assert CountOf(c, Pick(c, xs)) <= CountOf(c, y);
  }

  /** A pick from a level state leads to a level state one pick further. */
  lemma LevelStep(c: Counter, s: set<EngineType>, low: nat, high: set<EngineType>, xs: seq<EngineType>)
      returns (low': nat, high': set<EngineType>)
    requires Level(c, s, low, high) && xs != [] && Offers(xs, s)
    ensures Level(Bumped(c, Pick(c, xs)), s, low', high')
    ensures low' * |s| + |high'| == low * |s| + |high| + 1
    ensures |high'| < |s|
  {
    var x := Pick(c, xs);
    LevelPick(c, s, low, high, xs);
    LevelBump(c, s, low, high, x);
    assert high + {x} <= s;
    hide Level, Pick, Bumped, CountOf, Offers;
    if high + {x} == s {
      low', high' := low + 1, {};
      OneMore(low, |s|);
    } else {
      low', high' := low, high + {x};
      SmallerSubset(high', s);
    }
  }

  lemma SmallerSubset(a: set<EngineType>, b: set<EngineType>)
    requires a < b
    ensures |a| < |b|
  {
    assert b == a + (b - a);
  }

  lemma {:induction false} LevelRun(calls: seq<seq<EngineType>>, s: set<EngineType>)
      returns (low: nat, high: set<EngineType>)
    requires [] !in calls && s != {} && forall xs :: xs in calls ==> Offers(xs, s)
    ensures Level(After(calls), s, low, high)
    ensures low * |s| + |high| == |calls| && |high| < |s|
  {
    if calls == [] {
      low, high := 0, {};
    } else {
      var k := |calls| - 1;
      low, high := LevelRun(calls[..k], s);
      low, high := LevelStep(After(calls[..k]), s, low, high, calls[k]);
    }
  }

  lemma Quotient(m: nat, n: nat, low: nat, h: nat)
    requires n > 0 && low * n + h == m && h < n
    ensures m / n == low && m % n == h
  {
    var q := m / n;
    if q > low {
      Multiple(q - low, n);
    } else if q < low {
      Multiple(low - q, n);
    }
    calc {
      (q - low) * n;
      q * n - low * n;
      h - m % n;
    }
    assert (low - q) * n == m % n - h;
  }

  lemma {:induction false} Multiple(d: nat, n: nat)
    requires d > 0
    ensures d * n >= n
  {
    if d > 1 {
      Multiple(d - 1, n);
      OneMore(d - 1, n);
    }
  }

  lemma OneMore(low: nat, n: nat)
    ensures (low + 1) * n == low * n + n
  {
  }

  /** The types picked more often than the rounded-down share. */
  function Ahead(c: Counter, s: set<EngineType>, share: nat): set<EngineType> {
    set e | e in s && CountOf(c, e) == share + 1
  }

  /**
    With the same types on offer at every call, in any order, from a fresh registry: after m
    picks every type has been picked m/n times or once more, and exactly m%n of them once more.
   */
  lemma LoadIsFair(calls: seq<seq<EngineType>>, s: set<EngineType>)
    requires [] !in calls && s != {} && forall xs :: xs in calls ==> Offers(xs, s)
    ensures forall e :: e in s ==>
              CountOf(After(calls), e) == |calls| / |s| || CountOf(After(calls), e) == |calls| / |s| + 1
    ensures |Ahead(After(calls), s, |calls| / |s|)| == |calls| % |s|
    ensures forall e :: e !in s ==> CountOf(After(calls), e) == 0
  {
    var low, high := LevelRun(calls, s);
    Quotient(|calls|, |s|, low, |high|);
    assert Ahead(After(calls), s, low) == high;
  }

  // ---- Failover order and the registry ----

  /** `FailoverRouter.select`: the first primary type available, else the first available. */
  function SelectFailover(primary: seq<EngineType>, xs: seq<EngineType>): Option<EngineType> {
    if primary == [] then if xs == [] then None else Some(xs[0])
    else if primary[0] in xs then Some(primary[0])
    else SelectFailover(primary[1..], xs)
  }

  lemma {:induction false} FailoverIsFirstPrimary(primary: seq<EngineType>, xs: seq<EngineType>)
    ensures SelectFailover(primary, xs).None? <==> xs == []
    ensures xs != [] ==> SelectFailover(primary, xs).value in xs
    ensures xs != [] && (forall i :: 0 <= i < |primary| ==> primary[i] !in xs) ==>
              SelectFailover(primary, xs) == Some(xs[0])
    ensures forall i :: 0 <= i < |primary| && primary[i] in xs && (forall j :: 0 <= j < i ==> primary[j] !in xs) ==>
              SelectFailover(primary, xs) == Some(primary[i])
  {
    if primary != [] {
      FailoverIsFirstPrimary(primary[1..], xs);
      if primary[0] !in xs {
        forall i | 0 <= i < |primary| && primary[i] in xs && (forall j :: 0 <= j < i ==> primary[j] !in xs)
          ensures SelectFailover(primary, xs) == Some(primary[i])
        {
          assert primary[1..][i - 1] == primary[i];
        }
      }
    }
  }

  datatype Routed = Chosen(decision: Decision) | NoEngines | BadStrategy

  /**
    `RouterRegistry.select` as a function of the load-balancing counters. The failover class
    cannot be built without its primary list and the custom strategy has no class, so both raise.
   */
  function Route(xs: seq<EngineType>, strategy: Strategy, context: Context, counter: Counter): Routed {
    if strategy.Failover? || strategy.CustomStrategy? then BadStrategy
    else if xs == [] then NoEngines
    else
      match strategy
      case LowestCost => Chosen(SelectLowestCost(xs))
      case HighestQuality => Chosen(SelectHighestQuality(xs))
      case LoadBalancing => Chosen(HeadDecision(xs, LoadKey(counter), LoadBalancing))
      case CapabilityBased => Chosen(SelectCapable(xs, context))
      case _ => Chosen(SelectFastest(xs))
  }

  /** Every built-in strategy but failover selects one of the available types. */
  lemma RouteSelectsAvailable(xs: seq<EngineType>, strategy: Strategy, context: Context, counter: Counter)
    ensures Route(xs, strategy, context, counter).Chosen? <==>
              xs != [] && !strategy.Failover? && !strategy.CustomStrategy?
    ensures Route(xs, strategy, context, counter).Chosen? ==>
              Route(xs, strategy, context, counter).decision.selected in xs
  {
    hide SelectLowestCost, SelectFastest, SelectHighestQuality, SelectCapable, Sorted, CountOf;
    hide Latency, Cost, Quality, Score;
    if xs != [] {
      match strategy
      case Fastest => FastestIsLeast(xs);
      case LowestCost => LowestCostIsLeast(xs);
      case HighestQuality => HighestQualityIsMost(xs);
      case CapabilityBased => CapableIsMost(xs, context);
      case LoadBalancing => PickIsLeast(counter, xs);
      case _ =>
    }
  }

  // ---- What the registry's choice is worth ----

  /** What a strategy minimises. */
  function Rank(strategy: Strategy, context: Context, counter: Counter, e: EngineType): real {
    match strategy
    case LowestCost => Cost(e, 0.0)
    case HighestQuality => -Quality(e)
    case LoadBalancing => CountOf(counter, e) as real
    case CapabilityBased =>
      if context.required == [] then Latency(e) else -(Score(context, e) as real)
    case _ => Latency(e)
  }

  /** Type `xs[i]` is of least rank, and the first such type on the list. */
  predicate FirstBest(xs: seq<EngineType>, strategy: Strategy, context: Context, counter: Counter, i: nat) {
    && i < |xs|
    && (forall j :: 0 <= j < |xs| ==>
          Rank(strategy, context, counter, xs[i]) <= Rank(strategy, context, counter, xs[j]))
    && (forall j :: 0 <= j < i ==> Rank(strategy, context, counter, xs[i]) < Rank(strategy, context, counter, xs[j]))
  }

  /** The types are listed by rank, the best first. */
  predicate Ranked(xs: seq<EngineType>, strategy: Strategy, context: Context, counter: Counter) {
    forall i, j :: 0 <= i < j < |xs| ==>
      Rank(strategy, context, counter, xs[i]) <= Rank(strategy, context, counter, xs[j])
  }

  predicate AscendingBy(xs: seq<EngineType>, key: Ranking) {
    forall i, j :: 0 <= i < j < |xs| ==> key(xs[i]) <= key(xs[j])
  }

  lemma {:induction false} InsertAscending(x: EngineType, xs: seq<EngineType>, key: Ranking)
    requires AscendingBy(xs, key)
    ensures AscendingBy(Insert(x, xs, key), key)
    ensures forall e :: e in Insert(x, xs, key) ==> e == x || e in xs
  {
    if xs != [] && !(key(x) <= key(xs[0])) {
      InsertAscending(x, xs[1..], key);
      var rest := Insert(x, xs[1..], key);
      forall e | e in rest
        ensures key(xs[0]) <= key(e)
      {
      }
    }
  }

  lemma {:induction false} SortedAscending(xs: seq<EngineType>, key: Ranking)
    ensures AscendingBy(Sorted(xs, key), key)
  {
    if xs != [] {
      SortedAscending(xs[1..], key);
      InsertAscending(xs[0], Sorted(xs[1..], key), key);
    }
  }

  /** The positions from `from` on whose capability is offered. */
  function Hits(required: seq<string>, offered: set<string>, from: nat): set<nat> {
    set i: nat | from <= i < |required| && required[i] in offered
  }

  lemma {:induction false} MatchedFrom(required: seq<string>, offered: set<string>, from: nat)
    requires from <= |required|
    ensures Matched(required[from..], offered) == |Hits(required, offered, from)|
    decreases |required| - from
  {
    if from < |required| {
      MatchedFrom(required, offered, from + 1);
      assert required[from..][1..] == required[from + 1..];
      var rest := Hits(required, offered, from + 1);
      assert Hits(required, offered, from) == rest + if required[from] in offered then {from} else {};
    } else {
      assert Hits(required, offered, from) == {};
    }
  }

  /** The number of positions of the list whose capability is offered. */
  lemma MatchedExact(required: seq<string>, offered: set<string>)
    ensures Matched(required, offered) == |Hits(required, offered, 0)|
  {
    MatchedFrom(required, offered, 0);
    assert required[0..] == required;
  }

  lemma {:induction false} FirstFree(xs: seq<EngineType>) returns (i: nat)
    requires OnlyFree(xs) != []
    ensures i < |xs| && xs[i] == OnlyFree(xs)[0] && Cost(xs[i], 0.0) == 0.0
    ensures forall j :: 0 <= j < i ==> Cost(xs[j], 0.0) != 0.0
  {
    if Cost(xs[0], 0.0) == 0.0 {
      i := 0;
    } else {
      i := FirstFree(xs[1..]);
      i := i + 1;
    }
  }

  lemma {:induction false} OthersExact(xs: seq<EngineType>, e: EngineType)
    ensures e !in Others(xs, e)
    ensures forall f :: f != e ==> multiset(Others(xs, e))[f] == multiset(xs)[f]
  {
    if xs != [] {
      OthersExact(xs[1..], e);
      assert xs == [xs[0]] + xs[1..];
    }
  }

  /** The key compares types as the rank of the strategy does. */
  predicate Agrees(key: Ranking, strategy: Strategy, context: Context, counter: Counter) {
    forall a, b :: key(a) <= key(b) <==>
                   Rank(strategy, context, counter, a) <= Rank(strategy, context, counter, b)
  }

  lemma LeastIsBest(
    xs: seq<EngineType>, key: Ranking, strategy: Strategy, context: Context, counter: Counter, i: nat)
    requires Agrees(key, strategy, context, counter) && FirstLeast(xs, key, i)
    ensures FirstBest(xs, strategy, context, counter, i)
  {
    hide Rank;
    forall j | 0 <= j < i
      ensures Rank(strategy, context, counter, xs[i]) < Rank(strategy, context, counter, xs[j])
    {
      assert !(key(xs[j]) <= key(xs[i]));
    }
  }

  lemma AscendingIsRanked(
    xs: seq<EngineType>, key: Ranking, strategy: Strategy, context: Context, counter: Counter)
    requires Agrees(key, strategy, context, counter) && AscendingBy(xs, key)
    ensures Ranked(xs, strategy, context, counter)
  {
    hide Rank;
  }

  /** Sorting by such a key picks the first best, keeps all others, and lists them by rank. */
  lemma HeadIsBest(
    xs: seq<EngineType>, key: Ranking, strategy: Strategy, context: Context, counter: Counter) returns (i: nat)
    requires xs != [] && Agrees(key, strategy, context, counter)
    ensures FirstBest(xs, strategy, context, counter, i) && Sorted(xs, key)[0] == xs[i]
    ensures multiset([xs[i]] + Sorted(xs, key)[1..]) == multiset(xs)
    ensures Ranked(Sorted(xs, key)[1..], strategy, context, counter)
  {
    hide Agrees, FirstBest, Ranked, FirstLeast, Sorted;
    i := SortedHead(xs, key);
    LeastIsBest(xs, key, strategy, context, counter, i);
    SortedPermutes(xs, key);
    SortedAscending(xs, key);
    var sorted := Sorted(xs, key);
    assert [sorted[0]] + sorted[1..] == sorted;
    AscendingIsRanked(sorted[1..], key, strategy, context, counter);
  }

  /** The alternatives of a decision: the other types by rank or, for the lowest cost, every other type. */
  predicate Remainder(
    xs: seq<EngineType>, d: Decision, strategy: Strategy, context: Context, counter: Counter)
  {
    if strategy.LowestCost? then
      && d.selected !in d.alternatives
      && forall e :: e != d.selected ==> multiset(d.alternatives)[e] == multiset(xs)[e]
    else
      multiset([d.selected] + d.alternatives) == multiset(xs) && Ranked(d.alternatives, strategy, context, counter)
  }

  /**
    Under every strategy that has a router the chosen type is the first on the list of least latency,
    least cost, highest quality, most required capabilities or fewest picks so far, as the strategy
    says, and no other type is lost.
   */
  lemma RouteOptimal(
    xs: seq<EngineType>, strategy: Strategy, context: Context, counter: Counter) returns (i: nat)
    requires xs != [] && !strategy.Failover? && !strategy.CustomStrategy?
    ensures Route(xs, strategy, context, counter).Chosen? && FirstBest(xs, strategy, context, counter, i)
    ensures
      var d := Route(xs, strategy, context, counter).decision;
      && d.selected == xs[i] && Remainder(xs, d, strategy, context, counter)
      && d.strategy == if strategy.CapabilityBased? && context.required == [] then Fastest else strategy
  {
    if strategy.LowestCost? {
      i := CheapestIsBest(xs, context, counter);
    } else {
      var key := KeyOf(strategy, context, counter);
      KeyRanks(strategy, context, counter);
      hide Agrees, Latency, Quality, Cost, Score, CountOf, KeyOf;
      i := HeadIsBest(xs, key, strategy, context, counter);
      DispatchKey(xs, strategy, context, counter);
      hide Sorted, Ranked, FirstBest, Rank;
    }
  }

  /** The key each sorting router uses. */
  function KeyOf(strategy: Strategy, context: Context, counter: Counter): Ranking {
    match strategy
    case HighestQuality => QualityKey()
    case LoadBalancing => LoadKey(counter)
    case CapabilityBased => if context.required == [] then LatencyKey() else ScoreKey(context)
    case _ => LatencyKey()
  }

  lemma KeyRanks(strategy: Strategy, context: Context, counter: Counter)
    requires !strategy.LowestCost?
    ensures Agrees(KeyOf(strategy, context, counter), strategy, context, counter)
  {
    hide Latency, Quality, Score, CountOf;
  }

  lemma DispatchKey(xs: seq<EngineType>, strategy: Strategy, context: Context, counter: Counter)
    requires xs != [] && !strategy.Failover? && !strategy.CustomStrategy? && !strategy.LowestCost?
    ensures
      var sorted := Sorted(xs, KeyOf(strategy, context, counter));
      Route(xs, strategy, context, counter) == Chosen(Decision(sorted[0],
        if strategy.CapabilityBased? && context.required == [] then Fastest else strategy, sorted[1..]))
  {
    hide Sorted;
  }

  lemma CheapestIsBest(xs: seq<EngineType>, context: Context, counter: Counter) returns (i: nat)
    requires xs != []
    ensures FirstBest(xs, LowestCost, context, counter, i) && SelectLowestCost(xs).selected == xs[i]
    ensures Remainder(xs, SelectLowestCost(xs), LowestCost, context, counter)
  {
    FreeHead(xs);
    if OnlyFree(xs) != [] {
      i := FirstFree(xs);
    } else {
      i := SortedHead(xs, CostKey());
      forall j | 0 <= j < |xs|
        ensures Cost(xs[j], 0.0) == CostKey()(xs[j])
      {
        assert xs[j] in xs && Cost(xs[j], 0.0) > 0.0;
      }
    }
    OthersExact(xs, xs[i]);
  }
}
