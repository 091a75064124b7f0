/**
 The cap on concurrent builds: a counter and a limit that every acquire brings along, read fresh from the
 cluster's settings.
 */
module BuildSlots {

  datatype Holder = Holder(build: nat, limit: int)

  // `holders` are the builds that hold a slot, in the order in which they got it.
  datatype State = State(active: int, holders: seq<Holder>, waiting: map<nat, int>)

  datatype Step =
    | Ask(build: nat, limit: int)
    | Poll(build: nat)    // one turn of the acquire loop
    | GiveUp(build: nat)  // the context ended while waiting
    | Free(build: nat)

  function Init(): State {
    State(0, [], map[])
  }

  predicate HoldsSlot(hs: seq<Holder>, build: nat) {
    exists i :: 0 <= i < |hs| && hs[i].build == build
  }

  function Place(hs: seq<Holder>, build: nat): (i: nat)
    requires HoldsSlot(hs, build)
    ensures i < |hs| && hs[i].build == build
  {
    if hs[0].build == build then 0
    else
      assert HoldsSlot(hs[1..], build) by {
        var i :| 0 <= i < |hs| && hs[i].build == build;
        assert hs[1..][i - 1].build == build;
      }
      1 + Place(hs[1..], build)
  }

  predicate Enabled(s: State, step: Step) {
    match step
    case Ask(b, _) => b !in s.waiting && !HoldsSlot(s.holders, b)
    case Poll(b) => b in s.waiting
    case GiveUp(b) => b in s.waiting
    case Free(b) => HoldsSlot(s.holders, b)
  }

  function Apply(s: State, step: Step): State
    requires Enabled(s, step)
  {
    match step
    case Ask(b, limit) => s.(waiting := s.waiting[b := limit])
    case Poll(b) =>
      if s.active < s.waiting[b]
      then State(s.active + 1, s.holders + [Holder(b, s.waiting[b])], s.waiting - {b})
      else s
    case GiveUp(b) => s.(waiting := s.waiting - {b})
    case Free(b) =>
      var i := Place(s.holders, b);
      s.(active := s.active - 1, holders := s.holders[..i] + s.holders[i + 1..])
  }

  // The k-th holder, counted from one, was admitted under a limit of at least k.
  predicate Staircase(hs: seq<Holder>) {
    forall k | 0 <= k < |hs| :: hs[k].limit >= k + 1
  }

  predicate Inv(s: State) {
    && s.active == |s.holders|
    && Staircase(s.holders)
    && (forall i, j | 0 <= i < j < |s.holders| :: s.holders[i].build != s.holders[j].build)
    && (forall i | 0 <= i < |s.holders| :: s.holders[i].build !in s.waiting)
  }

  lemma StepKeepsInv(s: State, step: Step)
    requires Inv(s) && Enabled(s, step)
    ensures Inv(Apply(s, step))
  {
  }

  ghost predicate IsRun(run: seq<State>, steps: seq<Step>) {
    && |run| == |steps| + 1
    && run[0] == Init()
    && forall i | 0 <= i < |steps| :: Enabled(run[i], steps[i]) && run[i + 1] == Apply(run[i], steps[i])
  }

  lemma {:induction false} RunKeepsInv(run: seq<State>, steps: seq<Step>, i: nat)
    requires IsRun(run, steps) && i < |run|
    ensures Inv(run[i])
  {
    hide Enabled, Apply, Inv;
    if i == 0 {
      assert Inv(Init()) by { InitInv(); }
    } else {
      RunKeepsInv(run, steps, i - 1);
      StepKeepsInv(run[i - 1], steps[i - 1]);
    }
  }

  lemma InitInv()
    ensures Inv(Init())
  {
  }

  /** In every state of every run the counter is the number of holders and never negative, the holders form a
      staircase, and so the count never exceeds the largest limit among them. */
  lemma CapHolds(run: seq<State>, steps: seq<Step>, i: nat, cap: int)
    requires IsRun(run, steps) && i < |run|
    requires cap >= 0 && forall k | 0 <= k < |run[i].holders| :: run[i].holders[k].limit <= cap
    ensures 0 <= run[i].active == |run[i].holders| <= cap
    ensures Staircase(run[i].holders)
  {
    RunKeepsInv(run, steps, i);
    var hs := run[i].holders;
    if hs != [] { assert hs[|hs| - 1].limit >= |hs|; }
  }

  /** When the limit drops, nobody is thrown out, but nobody new is let in until fewer builds run than the
      new limit; and a build that polls then is let in. */
  lemma PollAdmitsIff(s: State, b: nat)
    requires Inv(s) && b in s.waiting
    ensures HoldsSlot(Apply(s, Poll(b)).holders, b) <==> |s.holders| < s.waiting[b]
    ensures s.holders <= Apply(s, Poll(b)).holders
  {
    var t := Apply(s, Poll(b));
    if |s.holders| < s.waiting[b] { assert t.holders[|s.holders|].build == b; }
  }

  /** A build that frees its slot no longer holds one, and the others keep theirs in their order; a build that gives
      up no longer waits, and nobody's slot changes. */
  lemma LeavingLeaves(s: State, b: nat)
    requires Inv(s)
    ensures HoldsSlot(s.holders, b) ==>
              var t := Apply(s, Free(b));
              && t.active == s.active - 1 && !HoldsSlot(t.holders, b) && t.waiting == s.waiting
              && exists i :: 0 <= i < |s.holders| && s.holders[i].build == b
                             && t.holders == s.holders[..i] + s.holders[i + 1..]
    ensures b in s.waiting ==>
              var t := Apply(s, GiveUp(b));
              b !in t.waiting && t.holders == s.holders && t.active == s.active
              && forall x | x in s.waiting && x != b :: x in t.waiting && t.waiting[x] == s.waiting[x]
  {
    if HoldsSlot(s.holders, b) {
      var i, t := Place(s.holders, b), Apply(s, Free(b));
      assert t.holders == s.holders[..i] + s.holders[i + 1..];
    }
  }

  /** The counter itself. The holders are not in the program; they are recorded beside it. */
  class Slots {
    var active: int
    ghost var holders: seq<Holder>

    ghost predicate Valid()
      reads this
    {
      active == |holders| && Staircase(holders)
    }

    constructor ()
      ensures Valid() && active == 0
    {
      active, holders := 0, [];
    }

    // The critical section of one turn of the acquire loop.
    method TryAcquire(limit: int, ghost build: nat) returns (ok: bool)
      requires Valid()
      modifies this
      ensures Valid()
      ensures ok == (old(active) < limit)
      ensures active == old(active) + (if ok then 1 else 0)
      ensures holders == old(holders) + (if ok then [Holder(build, limit)] else [])
    {
      ok := active < limit;
      if ok {
        active := active + 1;
        holders := holders + [Holder(build, limit)];
      }
    }

    method Release(ghost build: nat)
      requires Valid() && HoldsSlot(holders, build)
      modifies this
      ensures Valid() && active == old(active) - 1
      ensures var i := Place(old(holders), build); holders == old(holders)[..i] + old(holders)[i + 1..]
    {
      active := active - 1;
      ghost var i := Place(holders, build);
      holders := holders[..i] + holders[i + 1..];
    }
  }
}
