/**
  The two cycle detectors of `_resolve`: the set of names visited by the chain, and the
  chain's number left on each registration under construction. `Calls` lists every call of
  `_resolve` that one resolution makes, with the state each call starts in.
 */
module Detectors {
  import opened Prelude
  import opened ContainerModel
  import opened ContainerGrowth
  import opened RootResolution

  datatype Call = Call(state: State, id: nat, key: Key)

  function Calls(o: Oracle, s: State, id: nat, key: Key, rid: nat): seq<Call>
    requires WellFormed(s) && id < |s.scopes|
    decreases Unvisited(s), id, 0, 0
  {
    [Call(s, id, key)] +
    if key !in s.scopes[id].regs then
      if s.scopes[id].parent.Some? then Calls(o, s, s.scopes[id].parent.value, key, rid) else []
    else if Builds(s, id, key, rid) then
      EnterMeasure(s, id, key, rid);
      GatherCalls(o, Enter(s, id, key, rid), id, s.scopes[id].regs[key], 0, NoArgs, rid)
    else []
  }

  function GatherCalls(o: Oracle, s: State, id: nat, reg: Registration, p: nat, args: Args, rid: nat): seq<Call>
    requires WellFormed(s) && id < |s.scopes| && p <= PlanSize(reg)
    decreases Unvisited(s), id, 1, PlanSize(reg) - p
  {
    if p == PlanSize(reg) then []
    else
      var want := WantAt(reg, p);
      match NeedOf(want, args)
      case Take(more) => GatherCalls(o, s, id, reg, p + 1, more, rid)
      case First(key) =>
        var r := Resolve(o, s, id, key, rid);
        UndoneMeasure(s, r.state);
        Calls(o, s, id, key, rid) +
        if r.outcome.Ok? then
          GatherCalls(o, r.state, id, reg, p + 1, Supply(want, args, r.outcome.instance), rid)
        else if r.outcome.Missing? && want.Fill? then GatherCalls(o, r.state, id, reg, p + 1, args, rid)
        else []
  }

  /** In every scope, a registration marked by this chain is also visited by name. */
  ghost predicate MarkedIsVisited(s: State, rid: nat) {
    forall i :: 0 <= i < |s.scopes| ==> MarksVisited(s, i, rid)
  }

  /** In scope `id` the two detectors say the same of every key. */
  ghost predicate Agree(s: State, id: nat, rid: nat) {
    id < |s.scopes| && forall k :: k in s.visited <==> (k, rid) in s.scopes[id].marks
  }

  lemma EnterAgrees(s: State, id: nat, key: Key, rid: nat)
    requires id < |s.scopes|
    ensures MarkedIsVisited(s, rid) ==> MarkedIsVisited(Enter(s, id, key, rid), rid)
    ensures Agree(s, id, rid) ==> Agree(Enter(s, id, key, rid), id, rid)
  {
    var e := Enter(s, id, key, rid);
    if MarkedIsVisited(s, rid) {
      forall i | 0 <= i < |e.scopes|
        ensures MarksVisited(e, i, rid)
      {
        assert MarksVisited(s, i, rid);
      }
    }
  }

  lemma UndoneAgrees(s: State, t: State, id: nat, rid: nat)
    requires Undone(s, t) && id < |s.scopes|
    ensures |t.scopes| == |s.scopes| && t.scopes[id].parent == s.scopes[id].parent
    ensures MarkedIsVisited(s, rid) ==> MarkedIsVisited(t, rid)
    ensures Agree(s, id, rid) ==> Agree(t, id, rid)
  {
    UndoneAt(s, t, id);
    if MarkedIsVisited(s, rid) {
      forall i | 0 <= i < |t.scopes|
        ensures MarksVisited(t, i, rid)
      {
        assert MarksVisited(s, i, rid);
        MarksKept(s, t, i, rid);
      }
    }
  }

  /** In any tree: at every call, being marked by the chain implies being visited. */
  lemma {:induction false} CallsMarked(o: Oracle, s: State, id: nat, key: Key, rid: nat, c: Call)
    requires WellFormed(s) && id < |s.scopes| && MarkedIsVisited(s, rid)
    requires c in Calls(o, s, id, key, rid)
    ensures MarkedIsVisited(c.state, rid)
    ensures s.scopes[id].parent.None? && Agree(s, id, rid) ==> c.id == id && Agree(c.state, id, rid)
    decreases Unvisited(s), id, 0, 0
  {
    hide Resolve, Gather, GatherCalls, MarkedIsVisited, Agree;
    if c != Call(s, id, key) {
      if key !in s.scopes[id].regs {
        CallsMarked(o, s, s.scopes[id].parent.value, key, rid, c);
      } else {
        EnterMeasure(s, id, key, rid);
        EnterAgrees(s, id, key, rid);
        GatherCallsMarked(o, Enter(s, id, key, rid), id, s.scopes[id].regs[key], 0, NoArgs, rid, c);
      }
    }
  }

  lemma {:induction false} GatherCallsMarked(
    o: Oracle, s: State, id: nat, reg: Registration, p: nat, args: Args, rid: nat, c: Call)
    requires WellFormed(s) && id < |s.scopes| && p <= PlanSize(reg) && MarkedIsVisited(s, rid)
    requires c in GatherCalls(o, s, id, reg, p, args, rid)
    ensures MarkedIsVisited(c.state, rid)
    ensures s.scopes[id].parent.None? && Agree(s, id, rid) ==> c.id == id && Agree(c.state, id, rid)
    decreases Unvisited(s), id, 1, PlanSize(reg) - p
  {
    hide Resolve, Gather, Calls, MarkedIsVisited, Agree;
    match NeedOf(WantAt(reg, p), args)
    case Take(more) => GatherCallsMarked(o, s, id, reg, p + 1, more, rid, c);
    case First(key) =>
      var r := Resolve(o, s, id, key, rid);
      UndoneMeasure(s, r.state);
      UndoneAgrees(s, r.state, id, rid);
      if c in Calls(o, s, id, key, rid) {
        CallsMarked(o, s, id, key, rid, c);
      } else if r.outcome.Ok? {
        GatherCallsMarked(o, r.state, id, reg, p + 1, Supply(WantAt(reg, p), args, r.outcome.instance), rid, c);
      } else {
        GatherCallsMarked(o, r.state, id, reg, p + 1, args, rid, c);
      }
  }

  /**
    From a quiet state, at every nested call of `_resolve`, however deep: the chain-number
    test can only hold where the name test already holds; and in a root container the two
    tests hold of exactly the same keys.
   */
  lemma DetectorsAgree(o: Oracle, s: State, id: nat, key: Key, rid: nat)
    requires WellFormed(s) && id < |s.scopes| && Quiet(s)
    ensures forall c :: c in Calls(o, s, id, key, rid) ==> MarkedIsVisited(c.state, rid)
    ensures s.scopes[id].parent.None? ==>
              forall c :: c in Calls(o, s, id, key, rid) ==> c.id == id && Agree(c.state, id, rid)
  {
    hide Calls;
    forall c | c in Calls(o, s, id, key, rid)
      ensures MarkedIsVisited(c.state, rid)
      ensures s.scopes[id].parent.None? ==> c.id == id && Agree(c.state, id, rid)
    {
      CallsMarked(o, s, id, key, rid, c);
    }
  }
}
