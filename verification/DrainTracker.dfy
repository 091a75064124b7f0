/**
 The in-flight work tracker of the agent.

 Every unit of work registers with `Begin` and is handed an end function of which only the first call
 counts. `Drain` refuses new work for good and waits on a channel that the last end function closes.

 The module has three layers: the mutex-guarded fields as a value (`Core`) with one function per critical
 section; the protocol, a state machine in which any number of callers take those critical sections in any
 order; and the class `Tracker`, whose methods do to its fields what the functions do to `Core`.
 */
module DrainTracker {

  datatype Refusal = ErrDraining | ErrStarting

  // The fields under the mutex; `pending` says that the idle channel exists and is not closed yet.
  datatype Core = Core(inFlight: int, draining: bool, held: bool, pending: bool)

  const NEW := Core(0, false, false, false)

  // Why `Begin` would refuse, in the order in which it looks.
  predicate Refuses(c: Core) {
    c.draining || c.held
  }

  function BeginCore(c: Core): Core {
    if Refuses(c) then c else c.(inFlight := c.inFlight + 1)
  }

  function FinishCore(c: Core): Core {
    var n := c.inFlight - 1;
    if n == 0 && c.pending then c.(inFlight := n, pending := false) else c.(inFlight := n)
  }

  function DrainCore(c: Core): Core {
    if c.inFlight == 0 then c.(draining := true) else c.(draining := true, pending := true)
  }

  // ---------------------------------------------------------------------------------------------
  // The protocol: callers interleave at the granularity of critical sections.
  // ---------------------------------------------------------------------------------------------

  // A call of Drain either waits on a channel or has returned the number of units that still ran.
  datatype DrainCall = Waiting(channel: nat) | Returned(remaining: int)

  datatype State = State(
    core: Core,
    ends: map<nat, bool>,       // every end function handed out; true once it was called
    channel: nat,               // number of channels made so far; the newest is `channel`
    closes: multiset<nat>,      // how often each channel was closed
    drains: map<nat, DrainCall>
  )

  datatype Step =
    | Begin(unit: nat)
    | End(unit: nat)
    | Drain(call: nat)
    | Wake(call: nat)
    | Timeout(call: nat)
    | Hold
    | Release

  function Init(): State {
    State(NEW, map[], 0, multiset{}, map[])
  }

  predicate Enabled(s: State, step: Step) {
    match step
    case Begin(u) => u !in s.ends
    case End(u) => u in s.ends
    case Drain(d) => d !in s.drains
    case Wake(d) => d in s.drains && s.drains[d].Waiting? && s.drains[d].channel in s.closes
    case Timeout(d) => d in s.drains && s.drains[d].Waiting?
    case Hold => true
    case Release => true
  }

  function Apply(s: State, step: Step): State
    requires Enabled(s, step)
  {
    match step
    case Begin(u) =>
      if Refuses(s.core) then s else s.(core := BeginCore(s.core), ends := s.ends[u := false])
    case End(u) =>
      // sync.Once: only the first call reaches finish.
      if s.ends[u] then s
      else
        var c := FinishCore(s.core);
        s.(core := c, ends := s.ends[u := true],
           closes := if s.core.pending && !c.pending then s.closes + multiset{s.channel} else s.closes)
    case Drain(d) =>
      var c := DrainCore(s.core);
      if s.core.inFlight == 0 then s.(core := c, drains := s.drains[d := Returned(0)])
      else
        var ch := if s.core.pending then s.channel else s.channel + 1;
        s.(core := c, channel := ch, drains := s.drains[d := Waiting(ch)])
    case Wake(d) => s.(drains := s.drains[d := Returned(0)])
    case Timeout(d) => s.(drains := s.drains[d := Returned(s.core.inFlight)])
    case Hold => s.(core := s.core.(held := true))
    case Release => s.(core := s.core.(held := false))
  }

  // The end functions handed out and not called yet: the work that runs.
  function Running(s: State): set<nat> {
    set u | u in s.ends && !s.ends[u]
  }

  ghost predicate DrainCallOk(s: State, call: DrainCall) {
    && s.core.draining
    && match call
       case Waiting(ch) =>
         && ch <= s.channel
         && (s.closes[ch] == 0 ==> s.core.pending && ch == s.channel)
         && (ch in s.closes ==> s.core.inFlight == 0)
       case Returned(n) => n == 0 ==> s.core.inFlight == 0
  }

  ghost predicate Inv(s: State) {
    && s.core.inFlight == |Running(s)|
    && (s.core.pending ==> s.core.draining && s.core.inFlight > 0 && s.closes[s.channel] == 0)
    && (forall ch: nat :: ch in s.closes ==> s.closes[ch] == 1 && ch <= s.channel)
    && (forall d | d in s.drains :: DrainCallOk(s, s.drains[d]))
  }

  lemma RunningAfterBegin(s: State, u: nat)
    requires u !in s.ends
    ensures |Running(s.(ends := s.ends[u := false]))| == |Running(s)| + 1
  {
    assert Running(s.(ends := s.ends[u := false])) == Running(s) + {u};
  }

  lemma RunningAfterEnd(s: State, u: nat)
    requires u in s.ends && !s.ends[u]
    ensures |Running(s.(ends := s.ends[u := true]))| == |Running(s)| - 1
  {
    assert Running(s.(ends := s.ends[u := true])) == Running(s) - {u};
  }

  lemma StepKeepsInv(s: State, step: Step)
    requires Inv(s) && Enabled(s, step)
    ensures Inv(Apply(s, step))
  {
    var t := Apply(s, step);
    match step
    case Begin(u) =>
      if !Refuses(s.core) { RunningAfterBegin(s, u); assert Running(t) == Running(s.(ends := s.ends[u := false])); }
    case End(u) =>
      if !s.ends[u] { RunningAfterEnd(s, u); assert Running(t) == Running(s.(ends := s.ends[u := true])); }
    case Drain(d) =>
      assert Running(t) == Running(s);
      assert s.channel + 1 !in s.closes;
    case Wake(d) =>
      assert Running(t) == Running(s);
      assert DrainCallOk(s, s.drains[d]);
    case Timeout(d) =>
      assert Running(t) == Running(s);
      assert DrainCallOk(s, s.drains[d]);
    case _ =>
      assert Running(t) == Running(s);
  }

  // Once draining, the count never rises and the flag never falls.
  ghost predicate Later(s: State, t: State) {
    s.core.draining ==>
      && t.core.draining
      && t.core.inFlight <= s.core.inFlight
      && t.ends.Keys == s.ends.Keys
      && (forall u | u in s.ends && s.ends[u] :: t.ends[u])
  }

  ghost predicate IsRun(run: seq<State>, steps: seq<Step>) {
    && |run| == |steps| + 1
    && run[0] == Init()
    && forall i | 0 <= i < |steps| :: Enabled(run[i], steps[i]) && run[i + 1] == Apply(run[i], steps[i])
  }

  /** Conservation: in every state of every run the count is the number of end functions not called yet, a
      pending idle channel means a drain with work in flight, and no channel is closed twice. */
  lemma {:induction false} RunKeepsInv(run: seq<State>, steps: seq<Step>, i: nat)
    requires IsRun(run, steps) && i < |run|
    ensures Inv(run[i])
  {
    if i > 0 {
      RunKeepsInv(run, steps, i - 1);
      StepKeepsInv(run[i - 1], steps[i - 1]);
    }
  }

  lemma {:induction false} RunOnlyDrains(run: seq<State>, steps: seq<Step>, i: nat, j: nat)
    requires IsRun(run, steps) && i <= j < |run|
    ensures Later(run[i], run[j])
    decreases j
  {
    hide Inv, Enabled, Apply;
    if i < j {
      RunOnlyDrains(run, steps, i, j - 1);
      RunKeepsInv(run, steps, j - 1);
      StepOnlyDrains(run[j - 1], steps[j - 1]);
    }
  }

  lemma StepOnlyDrains(s: State, step: Step)
    requires Inv(s) && Enabled(s, step)
    ensures Later(s, Apply(s, step))
  {
    hide Running, DrainCallOk;
  }

  /** No begin succeeds after a drain has started, whatever holds and releases come in between. */
  lemma NoBeginAfterDrain(run: seq<State>, steps: seq<Step>, i: nat, j: nat)
    requires IsRun(run, steps) && i < j < |steps|
    requires steps[i].Drain? && steps[j].Begin?
    ensures run[j + 1] == run[j]
  {
    assert run[i + 1] == Apply(run[i], steps[i]);
    RunOnlyDrains(run, steps, i + 1, j);
    assert Refuses(run[j].core);
  }

  /** After a drain returned 0 nothing runs for the rest of the run. */
  lemma CleanDrainIsFinal(run: seq<State>, steps: seq<Step>, d: nat, i: nat, j: nat)
    requires IsRun(run, steps) && i <= j < |run|
    requires d in run[i].drains && run[i].drains[d] == Returned(0)
    ensures run[j].core.inFlight == 0 && Running(run[j]) == {}
  {
    RunKeepsInv(run, steps, i);
    RunOnlyDrains(run, steps, i, j);
    RunKeepsInv(run, steps, j);
    assert DrainCallOk(run[i], run[i].drains[d]);
    assert |Running(run[j])| == 0;
  }

  /** No lost wake-up: in every reachable state a waiting drain can wake exactly when nothing runs. */
  lemma WaitingDrainWakesIffIdle(run: seq<State>, steps: seq<Step>, d: nat, i: nat)
    requires IsRun(run, steps) && i < |run|
    requires d in run[i].drains && run[i].drains[d].Waiting?
    ensures Enabled(run[i], Wake(d)) <==> run[i].core.inFlight == 0
  {
    RunKeepsInv(run, steps, i);
    assert DrainCallOk(run[i], run[i].drains[d]);
  }

  /** A repeated call of an end function changes nothing. */
  lemma SecondEndIsNoOp(run: seq<State>, steps: seq<Step>, i: nat, j: nat)
    requires IsRun(run, steps) && i < j < |steps|
    requires steps[i].End? && steps[j] == steps[i]
    ensures run[j + 1] == run[j]
  {
    var u := steps[i].unit;
    assert run[i + 1].ends[u];
    EndedStaysEnded(run, steps, u, i + 1, j);
  }

  lemma {:induction false} EndedStaysEnded(run: seq<State>, steps: seq<Step>, u: nat, i: nat, j: nat)
    requires IsRun(run, steps) && i <= j < |run|
    requires u in run[i].ends && run[i].ends[u]
    ensures u in run[j].ends && run[j].ends[u]
    decreases j
  {
    if i < j {
      EndedStaysEnded(run, steps, u, i, j - 1);
      assert run[j] == Apply(run[j - 1], steps[j - 1]);
    }
  }

  // ---------------------------------------------------------------------------------------------
  // What the state is, from the steps of the run alone.
  // ---------------------------------------------------------------------------------------------

  // Held at step m, and not released since.
  ghost predicate HeldSince(steps: seq<Step>, m: nat, k: nat) {
    m < k <= |steps| && steps[m] == Hold && forall n | m < n < k :: steps[n] != Release
  }

  ghost predicate HeldAt(steps: seq<Step>, k: nat) {
    exists m: nat :: HeldSince(steps, m, k)
  }

  ghost predicate DrainedAt(steps: seq<Step>, k: nat) {
    exists m :: 0 <= m < k <= |steps| && steps[m].Drain?
  }

  lemma HeldAfter(steps: seq<Step>, k: nat)
    requires 0 < k <= |steps|
    ensures HeldAt(steps, k) <==> steps[k - 1] == Hold || (steps[k - 1] != Release && HeldAt(steps, k - 1))
  {
    if HeldAt(steps, k) {
      var m: nat :| HeldSince(steps, m, k);
      if m < k - 1 { assert HeldSince(steps, m, k - 1); }
    }
    if steps[k - 1] == Hold {
      assert HeldSince(steps, k - 1, k);
    } else if steps[k - 1] != Release && HeldAt(steps, k - 1) {
      var m: nat :| HeldSince(steps, m, k - 1);
      assert HeldSince(steps, m, k);
    }
  }

  lemma DrainedAfter(steps: seq<Step>, k: nat)
    requires 0 < k <= |steps|
    ensures DrainedAt(steps, k) <==> steps[k - 1].Drain? || DrainedAt(steps, k - 1)
  {
  }

  lemma FlagsStep(s: State, step: Step)
    requires Enabled(s, step)
    ensures Apply(s, step).core.held == (step == Hold || (step != Release && s.core.held))
    ensures Apply(s, step).core.draining == (step.Drain? || s.core.draining)
  {
  }

  /** The flags are the history: held exactly while the last hold is not released, draining exactly from the first
      drain on. */
  lemma {:induction false} FlagsMean(run: seq<State>, steps: seq<Step>, k: nat)
    requires IsRun(run, steps) && k < |run|
    ensures run[k].core.held <==> HeldAt(steps, k)
    ensures run[k].core.draining <==> DrainedAt(steps, k)
  {
    hide Enabled, Apply;
    if k > 0 {
      FlagsMean(run, steps, k - 1);
      FlagsStep(run[k - 1], steps[k - 1]);
      HeldAfter(steps, k);
      DrainedAfter(steps, k);
    }
  }

  // Unit u was begun when neither held nor draining, and has not been ended.
  ghost predicate RunsAt(steps: seq<Step>, k: nat, u: nat)
    requires k <= |steps|
  {
    if k == 0 then false
    else if steps[k - 1] == Begin(u) then !HeldAt(steps, k - 1) && !DrainedAt(steps, k - 1)
    else steps[k - 1] != End(u) && RunsAt(steps, k - 1, u)
  }

  lemma RunsStep(s: State, step: Step, u: nat)
    requires Enabled(s, step)
    ensures u in Running(Apply(s, step)) <==>
            if step == Begin(u) then !s.core.held && !s.core.draining else step != End(u) && u in Running(s)
  {
  }

  /** Exactly the units that were begun while neither held nor draining and not ended since are running, and their
      number is the in-flight count. */
  lemma {:induction false} RunningMeans(run: seq<State>, steps: seq<Step>, k: nat, u: nat)
    requires IsRun(run, steps) && k < |run|
    ensures u in Running(run[k]) <==> RunsAt(steps, k, u)
    ensures run[k].core.inFlight == |Running(run[k])|
  {
    hide Enabled, Apply, Inv;
    if k > 0 {
      RunningMeans(run, steps, k - 1, u);
      FlagsMean(run, steps, k - 1);
      RunsStep(run[k - 1], steps[k - 1], u);
    }
    RunKeepsInv(run, steps, k);
    CountByInv(run[k]);
  }

  lemma CountByInv(s: State)
    requires Inv(s)
    ensures s.core.inFlight == |Running(s)|
  {
  }

  /** What a drain returns: 0 at once exactly when nothing runs, 0 when it is woken, and at its timeout the number
      of units that run at that moment. */
  lemma DrainReturns(run: seq<State>, steps: seq<Step>, i: nat)
    requires IsRun(run, steps) && i < |steps|
    ensures steps[i].Drain? ==>
              && steps[i].call in run[i + 1].drains
              && (run[i + 1].drains[steps[i].call].Returned? <==> Running(run[i]) == {})
              && (Running(run[i]) == {} ==> run[i + 1].drains[steps[i].call] == Returned(0))
    ensures steps[i].Wake? ==> steps[i].call in run[i + 1].drains && run[i + 1].drains[steps[i].call] == Returned(0)
    ensures steps[i].Timeout? ==>
              steps[i].call in run[i + 1].drains && run[i + 1].drains[steps[i].call] == Returned(|Running(run[i])|)
  {
    RunKeepsInv(run, steps, i);
    assert Enabled(run[i], steps[i]) && run[i + 1] == Apply(run[i], steps[i]);
    assert |Running(run[i])| == 0 <==> Running(run[i]) == {};
  }

  // ---------------------------------------------------------------------------------------------
  // The tracker object. Each method is one critical section.
  // ---------------------------------------------------------------------------------------------

  class Channel {
    var closed: bool

    constructor ()
      ensures !closed
    {
      closed := false;
    }

    // Closing a closed channel panics in Go.
    method Close()
      requires !closed
      modifies this
      ensures closed
    {
      closed := true;
    }
  }

  // The closure Begin returns, with the state of its sync.Once.
  class EndFunc {
    const tracker: Tracker
    var called: bool

    constructor (t: Tracker)
      ensures tracker == t && !called
    {
      tracker := t;
      called := false;
    }

    method Call()
      requires tracker.Valid() && this in tracker.issued
      modifies this, tracker, tracker.idle
      ensures tracker.Valid() && called
      ensures tracker.View() == if old(called) then old(tracker.View()) else FinishCore(old(tracker.View()))
      ensures tracker.issued == old(tracker.issued) && tracker.running == old(tracker.running) - {this}
      ensures old(tracker.idle) != null && tracker.idle == null ==> old(tracker.idle).closed
    {
      if !called {
        called := true;
        tracker.running := tracker.running - {this};
        tracker.Finish();
      }
    }
  }

  class Tracker {
    var inFlight: int
    var draining: bool
    var held: bool
    var idle: Channel?
    ghost var issued: set<EndFunc>
    ghost var running: set<EndFunc>

    ghost predicate Valid()
      reads this, issued, idle
    {
      && inFlight == |running|
      && running <= issued
      && (forall e | e in issued :: e.tracker == this && (e in running <==> !e.called))
      && (idle != null ==> draining && inFlight > 0 && !idle.closed)
    }

    ghost function View(): Core
      reads this
    {
      Core(inFlight, draining, held, idle != null)
    }

    constructor ()
      ensures Valid() && View() == NEW && issued == {}
    {
      inFlight, draining, held, idle := 0, false, false, null;
      issued, running := {}, {};
    }

    method Begin() returns (end: EndFunc?, err: Refusal)
      requires Valid()
      modifies this
      ensures Valid() && View() == BeginCore(old(View()))
      ensures end == null <==> old(draining || held)
      ensures end == null ==> err == (if draining then ErrDraining else ErrStarting) && issued == old(issued)
      ensures end != null ==> fresh(end) && end in running && issued == old(issued) + {end}
    {
      err := if draining then ErrDraining else ErrStarting;
      if draining || held {
        return null, err;
      }
      inFlight := inFlight + 1;
      end := new EndFunc(this);
      issued, running := issued + {end}, running + {end};
    }

    // Called through an end function that has just left `running`, so the count is one ahead.
    method Finish()
      requires inFlight == |running| + 1
      requires running <= issued
      requires forall e | e in issued :: e.tracker == this && (e in running <==> !e.called)
      requires idle != null ==> draining && !idle.closed
      modifies this`inFlight, this`idle, idle
      ensures Valid() && View() == FinishCore(old(View()))
      ensures old(idle) != null && idle == null ==> old(idle).closed
    {
      inFlight := inFlight - 1;
      if inFlight == 0 && idle != null {
        idle.Close();
        idle := null;
      }
    }

    // Drain up to the point where it would wait: a null channel means it returned 0.
    method StartDrain() returns (wait: Channel?)
      requires Valid()
      modifies this`draining, this`idle
      ensures Valid() && View() == DrainCore(old(View()))
      ensures wait == null <==> inFlight == 0
      ensures wait != null ==> wait == idle && !wait.closed
      ensures old(idle) != null ==> wait == old(idle)
    {
      draining := true;
      if inFlight == 0 {
        return null;
      }
      if idle == null {
        idle := new Channel();
      }
      wait := idle;
    }

    method Hold()
      requires Valid()
      modifies this`held
      ensures Valid() && View() == old(View()).(held := true)
    {
      held := true;
    }

    method Release()
      requires Valid()
      modifies this`held
      ensures Valid() && View() == old(View()).(held := false)
    {
      held := false;
    }
  }
}
