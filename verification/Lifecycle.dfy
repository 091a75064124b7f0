/**
 Whole runs of the agent over its life: start, hold, pod sweep and row reconcile in parallel, release,
 builds, SIGTERM, drain, exit, crash at any moment, and the next process. The build rows and build pods
 survive a process; its tracker, its goroutines and its units of work do not. One process runs at a time.
 */
module Lifecycle {
  import D = DrainTracker
  import opened BuildRows
  import opened Options

  // Booting is main before it holds the tracker; no service runs yet, so nothing can begin work.
  datatype Phase = Down | Booting | Up

  datatype Sweep = Listing | Deleting(todo: set<string>) | Swept

  // The reconcile goroutine: retrying, then waiting for the sweep, then done. `closed` tells success from
  // giving up.
  datatype Reconcile = Trying | AwaitingSweep(closed: bool) | Released(closed: bool)

  datatype Pod = Pod(owner: nat, unit: nat)

  datatype State = State(
    process: nat,
    phase: Phase,
    tracker: D.State,
    sweep: Sweep,
    reconcile: Reconcile,
    releases: nat,              // calls of Release by this process
    rows: map<string, Row>,
    pods: map<string, Pod>
  )

  datatype Step =
    | Start
    | HoldWork
    | SkipSweep                                     // no cluster client, or the list failed
    | ListPods
    | SweepPod(pod: string, deleted: bool)
    | EndSweep
    | TryReconcile(committed: bool, reported: bool) // a commit may still be reported as an error
    | GiveUp
    | ReleaseWork
    | Begin(unit: nat)
    | End(unit: nat)
    | CreateRow(unit: nat, job: string)
    | SetStatus(unit: nat, job: string, status: Status)
    | CreatePod(unit: nat, pod: string)
    | DeletePod(unit: nat, pod: string)
    | Terminate                                     // SIGTERM: main enters the drain
    | DrainWoken
    | DrainTimedOut
    | FailRowsAtShutdown(timeout: string)
    | Stop                                          // exit or crash

  const MAIN_DRAIN: nat := 0
  const REASON_RESTART :=
    "build interrupted by agent restart: the previous agent process ended while the build ran"

  function ShutdownReason(timeout: string): string {
    "build interrupted by agent shutdown: it still ran after the " + timeout + " drain wait"
  }

  predicate Works(s: State, u: nat) {
    s.phase == Up && u in D.Running(s.tracker)
  }

  predicate Enabled(s: State, step: Step) {
    match step
    case Start => s.phase == Down
    case HoldWork => s.phase == Booting
    case SkipSweep => s.phase == Up && s.sweep == Listing
    case ListPods => s.phase == Up && s.sweep == Listing
    case SweepPod(p, _) => s.phase == Up && s.sweep.Deleting? && p in s.sweep.todo
    case EndSweep => s.phase == Up && s.sweep == Deleting({})
    case TryReconcile(committed, reported) => s.phase == Up && s.reconcile == Trying && (reported ==> committed)
    case GiveUp => s.phase == Up && s.reconcile == Trying
    case ReleaseWork => s.phase == Up && s.reconcile.AwaitingSweep? && s.sweep == Swept
    case Begin(u) => s.phase == Up && D.Enabled(s.tracker, D.Begin(u))
    case End(u) => s.phase == Up && D.Enabled(s.tracker, D.End(u))
    case CreateRow(u, j) => Works(s, u)
    case SetStatus(u, j, _) => Works(s, u) && j in s.rows && s.rows[j].owner == s.process && s.rows[j].unit == u
    case CreatePod(u, p) => Works(s, u)
    case DeletePod(u, p) => Works(s, u) && p in s.pods && s.pods[p] == Pod(s.process, u)
    case Terminate => s.phase == Up && D.Enabled(s.tracker, D.Drain(MAIN_DRAIN))
    case DrainWoken => s.phase == Up && D.Enabled(s.tracker, D.Wake(MAIN_DRAIN))
    case DrainTimedOut => s.phase == Up && D.Enabled(s.tracker, D.Timeout(MAIN_DRAIN))
    case FailRowsAtShutdown(_) =>
      s.phase == Up && MAIN_DRAIN in s.tracker.drains
      && s.tracker.drains[MAIN_DRAIN].Returned? && s.tracker.drains[MAIN_DRAIN].remaining != 0
    case Stop => s.phase != Down
  }

  // The transition of the tracker, which is the tracker module's own.
  function Track(s: State, step: D.Step): State
    requires D.Enabled(s.tracker, step)
  {
    s.(tracker := D.Apply(s.tracker, step))
  }

  function Apply(s: State, step: Step): State
    requires Enabled(s, step)
  {
    match step
    case Start =>
      State(s.process + 1, Booting, D.Init(), Listing, Trying, 0, s.rows, s.pods)
    case HoldWork => Track(s, D.Hold).(phase := Up)
    case SkipSweep => s.(sweep := Swept)
    case ListPods => s.(sweep := Deleting(s.pods.Keys))
    case SweepPod(p, deleted) =>
      s.(sweep := Deleting(s.sweep.todo - {p}), pods := if deleted then s.pods - {p} else s.pods)
    case EndSweep => s.(sweep := Swept)
    case TryReconcile(committed, reported) =>
      s.(rows := if committed then CloseAll(s.rows, REASON_RESTART) else s.rows,
         reconcile := if reported then AwaitingSweep(true) else Trying)
    case GiveUp => s.(reconcile := AwaitingSweep(false))
    case ReleaseWork =>
      Track(s, D.Release).(reconcile := Released(s.reconcile.closed), releases := s.releases + 1)
    case Begin(u) => Track(s, D.Begin(u))
    case End(u) => Track(s, D.End(u))
    case CreateRow(u, j) =>
      // a taken job id is refused by the unique index
      if j in s.rows then s else s.(rows := s.rows[j := Row(Pending, s.process, u, [])])
    case SetStatus(u, j, st) => s.(rows := s.rows[j := s.rows[j].(status := st)])
    case CreatePod(u, p) => s.(pods := s.pods[p := Pod(s.process, u)])
    case DeletePod(u, p) => s.(pods := s.pods - {p})
    case Terminate => Track(s, D.Drain(MAIN_DRAIN))
    case DrainWoken => Track(s, D.Wake(MAIN_DRAIN))
    case DrainTimedOut => Track(s, D.Timeout(MAIN_DRAIN))
    case FailRowsAtShutdown(d) => s.(rows := CloseAll(s.rows, ShutdownReason(d)))
    case Stop => s.(phase := Down)
  }

  function Init(): State {
    State(0, Down, D.Init(), Listing, Trying, 0, map[], map[])
  }

  ghost predicate IsRun(run: seq<State>, steps: seq<Step>) {
    && |run| == |steps| + 1
    && run[0] == Init()
    && forall i | 0 <= i < |steps| :: Enabled(run[i], steps[i]) && run[i + 1] == Apply(run[i], steps[i])
  }

  // ---------------------------------------------------------------------------------------------
  // The invariant of every reachable state.
  // ---------------------------------------------------------------------------------------------

  // Nothing of the present process exists in the cluster yet.
  ghost predicate Untouched(s: State) {
    && s.tracker.ends == map[]
    && (forall j | j in s.rows :: s.rows[j].owner < s.process)
    && (forall p | p in s.pods :: s.pods[p].owner < s.process)
  }

  ghost predicate OwnersKnown(s: State) {
    && (forall j | j in s.rows :: s.rows[j].owner <= s.process)
    && (forall p | p in s.pods :: s.pods[p].owner <= s.process)
  }

  ghost predicate Inv(s: State) {
    && D.Inv(s.tracker)
    && OwnersKnown(s)
    && s.releases == (if s.reconcile.Released? then 1 else 0)
    && (s.phase == Booting ==> Untouched(s) && s.reconcile == Trying && s.tracker == D.Init())
    && (s.phase == Up && !s.reconcile.Released? ==> Untouched(s) && s.tracker.core.held)
    && (s.reconcile == AwaitingSweep(true) && s.phase == Up ==> Open(s.rows) == {})
    && (s.reconcile.Released? ==> s.sweep == Swept)
    && (s.reconcile == Released(true) && s.phase == Up ==> forall j | j in Open(s.rows) :: s.rows[j].owner == s.process)
  }

  lemma TrackKeepsInv(s: State, step: D.Step)
    requires Inv(s) && s.phase == Up && D.Enabled(s.tracker, step)
    requires step.Begin? || step.End? || step.Drain? || step.Wake? || step.Timeout?
    ensures Inv(Track(s, step))
  {
    D.StepKeepsInv(s.tracker, step);
  }

  lemma StepKeepsInv(s: State, step: Step)
    requires Inv(s) && Enabled(s, step)
    ensures Inv(Apply(s, step))
  {
    match step
    case HoldWork => D.StepKeepsInv(s.tracker, D.Hold);
    case ReleaseWork => D.StepKeepsInv(s.tracker, D.Release);
    case Begin(u) => TrackKeepsInv(s, D.Begin(u));
    case End(u) => TrackKeepsInv(s, D.End(u));
    case Terminate => TrackKeepsInv(s, D.Drain(MAIN_DRAIN));
    case DrainWoken => TrackKeepsInv(s, D.Wake(MAIN_DRAIN));
    case DrainTimedOut => TrackKeepsInv(s, D.Timeout(MAIN_DRAIN));
    case TryReconcile(committed, _) => CloseAllCloses(s.rows, REASON_RESTART, "");
    case FailRowsAtShutdown(d) => CloseAllCloses(s.rows, ShutdownReason(d), "");
    case _ =>
  }

  lemma {:induction false} RunKeepsInv(run: seq<State>, steps: seq<Step>, i: nat)
    requires IsRun(run, steps) && i < |run|
    ensures Inv(run[i])
  {
    if i == 0 {
      assert D.Running(D.Init()) == {};
    } else {
      RunKeepsInv(run, steps, i - 1);
      StepKeepsInv(run[i - 1], steps[i - 1]);
    }
  }

  // ---------------------------------------------------------------------------------------------
  // What holds over every run.
  // ---------------------------------------------------------------------------------------------

  /** The startup cleanup never touches the running process: a row the reconcile changes and a pod the sweep
      deletes belong to an earlier process. */
  lemma CleanupSparesOwnWork(run: seq<State>, steps: seq<Step>, i: nat)
    requires IsRun(run, steps) && i < |steps|
    requires steps[i].TryReconcile? || steps[i].SweepPod?
    ensures run[i].rows.Keys == run[i + 1].rows.Keys
    ensures forall j | j in run[i].rows && run[i + 1].rows[j] != run[i].rows[j] ::
              run[i].rows[j].owner < run[i].process
    ensures forall p | p in run[i].pods && p !in run[i + 1].pods :: run[i].pods[p].owner < run[i].process
  {
    RunKeepsInv(run, steps, i);
    assert Enabled(run[i], steps[i]) && run[i + 1] == Apply(run[i], steps[i]);
  }

  /** A process releases at most once, only after the sweep ended and the reconcile worked or gave up; when
      it worked, no open row exists at that moment, and from then on only rows of this process are open. */
  lemma ReleaseIsOrderly(run: seq<State>, steps: seq<Step>, i: nat)
    requires IsRun(run, steps) && i < |steps| && steps[i] == ReleaseWork
    ensures run[i].releases == 0 && run[i + 1].releases == 1
    ensures run[i].sweep == Swept && run[i].reconcile.AwaitingSweep?
    ensures run[i].reconcile.closed ==> Open(run[i].rows) == {}
    ensures D.Running(run[i].tracker) == {}
  {
    RunKeepsInv(run, steps, i);
    assert Enabled(run[i], steps[i]) && run[i + 1] == Apply(run[i], steps[i]);
  }

  /** Two releases in a run are releases of two processes. */
  lemma ReleasedOncePerProcess(run: seq<State>, steps: seq<Step>, i: nat, j: nat)
    requires IsRun(run, steps) && i < j < |steps|
    requires steps[i] == ReleaseWork && steps[j] == ReleaseWork
    ensures run[i].process < run[j].process
  {
    ReleaseIsOrderly(run, steps, i);
    ReleaseIsOrderly(run, steps, j);
    ReleasesOnlyGrow(run, steps, i + 1, j);
  }

  lemma {:induction false} ReleasesOnlyGrow(run: seq<State>, steps: seq<Step>, i: nat, j: nat)
    requires IsRun(run, steps) && i <= j < |run|
    ensures run[i].process <= run[j].process
    ensures run[i].process == run[j].process ==> run[i].releases <= run[j].releases
    decreases j
  {
    hide Enabled, Apply;
    if i < j {
      ReleasesOnlyGrow(run, steps, i, j - 1);
      ReleasesGrowStep(run[j - 1], steps[j - 1]);
    }
  }

  lemma ReleasesGrowStep(s: State, step: Step)
    requires Enabled(s, step)
    ensures s.process <= Apply(s, step).process
    ensures s.process == Apply(s, step).process ==> s.releases <= Apply(s, step).releases
  {
    hide D.Apply, D.Enabled, CloseAll;
  }

  /** Work only begins in a process that has released, and whenever a process that reconciled accepts work,
      every row left open by the processes before it has been closed. */
  lemma NoOrphanWhileWorking(run: seq<State>, steps: seq<Step>, i: nat, u: nat)
    requires IsRun(run, steps) && i < |run| && Works(run[i], u)
    ensures run[i].releases == 1 && run[i].reconcile.Released?
    ensures run[i].reconcile.closed ==> forall j | j in Open(run[i].rows) :: run[i].rows[j].owner == run[i].process
  {
    RunKeepsInv(run, steps, i);
    assert run[i].tracker.ends != map[];
  }

  ghost predicate Settled(s: State, j: string) {
    j in s.rows && Terminal(s.rows[j].status) && (s.rows[j].owner < s.process || s.phase == Down)
  }

  lemma SettledStep(s: State, step: Step, job: string)
    requires Inv(s) && Enabled(s, step) && Settled(s, job)
    ensures Settled(Apply(s, step), job) && Apply(s, step).rows[job] == s.rows[job]
  {
  }

  /** Once the row of a dead process is terminal it never changes again, in this process or any later one. */
  lemma {:induction false} SettledForEver(run: seq<State>, steps: seq<Step>, job: string, i: nat, j: nat)
    requires IsRun(run, steps) && i <= j < |run| && Settled(run[i], job)
    ensures Settled(run[j], job) && run[j].rows[job] == run[i].rows[job]
    decreases j
  {
    if i < j {
      SettledForEver(run, steps, job, i, j - 1);
      RunKeepsInv(run, steps, j - 1);
      SettledStep(run[j - 1], steps[j - 1], job);
    }
  }

  ghost predicate Orphan(s: State, job: string) {
    job in s.rows && (s.rows[job].owner < s.process || s.phase == Down)
  }

  // The reason with which a step closes all open rows, if it does: a reconcile that commits, or the close at
  // the end of a drain that ran out of time.
  function Closes(step: Step): Option<string> {
    match step
    case TryReconcile(committed, _) => if committed then Some(REASON_RESTART) else None
    case FailRowsAtShutdown(timeout) => Some(ShutdownReason(timeout))
    case _ => None
  }

  // The reason of the first closing step among steps[i..k].
  function FirstClose(steps: seq<Step>, i: nat, k: nat): Option<string>
    requires k <= |steps|
    decreases k
  {
    if k <= i then None
    else
      var before := FirstClose(steps, i, k - 1);
      if before.Some? then before else Closes(steps[k - 1])
  }

  lemma {:induction false} FirstCloseMeans(steps: seq<Step>, i: nat, k: nat)
    requires i <= k <= |steps|
    ensures FirstClose(steps, i, k).None? <==> forall m | i <= m < k :: Closes(steps[m]).None?
    ensures FirstClose(steps, i, k).Some? ==>
              exists m :: i <= m < k && Closes(steps[m]) == FirstClose(steps, i, k)
                          && forall n | i <= n < m :: Closes(steps[n]).None?
    decreases k
  {
    hide Closes;
    if i < k {
      FirstCloseMeans(steps, i, k - 1);
      if FirstClose(steps, i, k - 1).Some? {
        var m :| i <= m < k - 1 && Closes(steps[m]) == FirstClose(steps, i, k - 1)
                 && forall n | i <= n < m :: Closes(steps[n]).None?;
        assert Closes(steps[m]) == FirstClose(steps, i, k);
      } else if Closes(steps[k - 1]).Some? {
        assert Closes(steps[k - 1]) == FirstClose(steps, i, k);
      }
    }
  }

  // The row after the first close, if there was one.
  function ClosedBy(r: Row, reason: Option<string>): Row {
    if reason.None? then r else CloseRow(r, reason.value)
  }

  lemma OrphanStep(s: State, step: Step, job: string)
    requires Inv(s) && Enabled(s, step) && Orphan(s, job)
    ensures Orphan(Apply(s, step), job) && Apply(s, step).rows[job] == ClosedBy(s.rows[job], Closes(step))
  {
    hide D.Apply, D.Inv, D.Enabled, D.Running, ShutdownReason;
  }

  /** The whole history of a row that a process leaves open when it dies, through any number of later processes:
      it stays exactly as it was until the first reconcile that commits or the first close at the end of a
      drain, which fails it with that step's reason as one more error line; after that it never changes. */
  lemma {:induction false} OrphanHistory(run: seq<State>, steps: seq<Step>, job: string, i: nat, k: nat)
    requires IsRun(run, steps) && i <= k < |run|
    requires run[i].phase == Down && job in Open(run[i].rows)
    ensures job in run[k].rows && Orphan(run[k], job)
    ensures var was, now, reason := run[i].rows[job], run[k].rows[job], FirstClose(steps, i, k);
            now == if reason.None? then was
                   else was.(status := Failed, errors := was.errors + ["ERROR: " + reason.value])
    decreases k
  {
    hide Inv, Enabled, Apply, Closes;
    if i < k {
      OrphanHistory(run, steps, job, i, k - 1);
      RunKeepsInv(run, steps, k - 1);
      OrphanStep(run[k - 1], steps[k - 1], job);
    }
  }

  /** The close at the end of a drain that ran out of time fails every row that is pending or busy, those of the
      running builds included, each with the shutdown reason as one more error line, and touches no other. */
  lemma ShutdownClosesEverything(run: seq<State>, steps: seq<Step>, i: nat, d: string)
    requires IsRun(run, steps) && i < |steps| && steps[i] == FailRowsAtShutdown(d)
    ensures run[i + 1].rows.Keys == run[i].rows.Keys && Open(run[i + 1].rows) == {}
    ensures forall j | j in run[i].rows ::
              var was, now := run[i].rows[j], run[i + 1].rows[j];
              if was.status == Pending || was.status == Busy
              then now.status == Failed && now.owner == was.owner && now.unit == was.unit
                   && now.errors == was.errors + [
                     "ERROR: " + ("build interrupted by agent shutdown: it still ran after the " + d + " drain wait")]
              else now == was
  {
    assert run[i + 1] == Apply(run[i], steps[i]);
    CloseAllCloses(run[i].rows, ShutdownReason(d), "");
  }

  // ---------------------------------------------------------------------------------------------
  // Histories: every row and every pod from the steps of the run alone.
  // ---------------------------------------------------------------------------------------------

  // How many processes have started in the first k steps.
  function ProcessAt(steps: seq<Step>, k: nat): nat
    requires k <= |steps|
  {
    if k == 0 then 0 else ProcessAt(steps, k - 1) + if steps[k - 1] == Start then 1 else 0
  }

  // What a step does to one row, given the process that runs.
  function RowAfter(r: Option<Row>, job: string, step: Step, process: nat): Option<Row> {
    if r.None? then
      if step.CreateRow? && step.job == job then Some(Row(Pending, process, step.unit, [])) else None
    else if step.SetStatus? && step.job == job then Some(r.value.(status := step.status))
    else if Closes(step).Some? && (r.value.status == Pending || r.value.status == Busy) then
      Some(r.value.(status := Failed, errors := r.value.errors + ["ERROR: " + Closes(step).value]))
    else r
  }

  function RowAt(steps: seq<Step>, job: string, k: nat): Option<Row>
    requires k <= |steps|
  {
    if k == 0 then None else RowAfter(RowAt(steps, job, k - 1), job, steps[k - 1], ProcessAt(steps, k - 1))
  }

  function RowIn(s: State, job: string): Option<Row> {
    if job in s.rows then Some(s.rows[job]) else None
  }

  lemma RowStep(s: State, step: Step, job: string)
    requires Enabled(s, step)
    ensures RowIn(Apply(s, step), job) == RowAfter(RowIn(s, job), job, step, s.process)
    ensures Apply(s, step).process == s.process + if step == Start then 1 else 0
  {
    hide D.Apply, D.Enabled, D.Running;
  }

  /** Every row at every moment of every run is what the creations, status changes and closes so far make of it:
      created pending for the process and unit that made it, and only once; then whatever was set last; failed
      with one more error line by a close that finds it pending or busy. */
  lemma {:induction false} RowHistory(run: seq<State>, steps: seq<Step>, job: string, k: nat)
    requires IsRun(run, steps) && k < |run|
    ensures RowIn(run[k], job) == RowAt(steps, job, k) && run[k].process == ProcessAt(steps, k)
  {
    hide Enabled, Apply, RowAfter;
    if k > 0 {
      RowHistory(run, steps, job, k - 1);
      RowStep(run[k - 1], steps[k - 1], job);
    }
  }

  function PodAfter(p: Option<Pod>, pod: string, step: Step, process: nat): Option<Pod> {
    match step
    case CreatePod(u, q) => if q == pod then Some(Pod(process, u)) else p
    case DeletePod(_, q) => if q == pod then None else p
    case SweepPod(q, deleted) => if q == pod && deleted then None else p
    case _ => p
  }

  function PodAt(steps: seq<Step>, pod: string, k: nat): Option<Pod>
    requires k <= |steps|
  {
    if k == 0 then None else PodAfter(PodAt(steps, pod, k - 1), pod, steps[k - 1], ProcessAt(steps, k - 1))
  }

  function PodIn(s: State, pod: string): Option<Pod> {
    if pod in s.pods then Some(s.pods[pod]) else None
  }

  lemma PodStep(s: State, step: Step, pod: string)
    requires Enabled(s, step)
    ensures PodIn(Apply(s, step), pod) == PodAfter(PodIn(s, pod), pod, step, s.process)
    ensures Apply(s, step).process == s.process + if step == Start then 1 else 0
  {
    hide D.Apply, D.Enabled, D.Running, CloseAll;
  }

  /** Likewise every pod: it is there exactly when its last creation was followed by no deletion that worked. */
  lemma {:induction false} PodHistory(run: seq<State>, steps: seq<Step>, pod: string, k: nat)
    requires IsRun(run, steps) && k < |run|
    ensures PodIn(run[k], pod) == PodAt(steps, pod, k) && run[k].process == ProcessAt(steps, k)
  {
    hide Enabled, Apply, PodAfter;
    if k > 0 {
      PodHistory(run, steps, pod, k - 1);
      PodStep(run[k - 1], steps[k - 1], pod);
    }
  }

  // While the sweep deletes, every pod of an earlier process is still on its list.
  ghost predicate SweepCovers(s: State) {
    s.sweep != Listing &&
    (s.sweep.Deleting? ==> forall p | p in s.pods && s.pods[p].owner != s.process :: p in s.sweep.todo)
  }

  lemma SweepCoversStep(s: State, step: Step)
    requires Inv(s) && Enabled(s, step) && SweepCovers(s) && step != Start && (step.SweepPod? ==> step.deleted)
    ensures SweepCovers(Apply(s, step))
  {
    hide D.Apply, D.Enabled, D.Running, D.Inv, CloseAll;
  }

  lemma {:induction false} SweepStaysCovered(run: seq<State>, steps: seq<Step>, i: nat, k: nat)
    requires IsRun(run, steps) && i < k < |run| && steps[i] == ListPods
    requires forall m | i < m < k :: steps[m] != Start && (steps[m].SweepPod? ==> steps[m].deleted)
    ensures SweepCovers(run[k])
    decreases k
  {
    hide Enabled, Apply, Inv;
    if k == i + 1 {
      ListCovers(run[i]);
    } else {
      SweepStaysCovered(run, steps, i, k - 1);
      RunKeepsInv(run, steps, k - 1);
      SweepCoversStep(run[k - 1], steps[k - 1]);
    }
  }

  lemma ListCovers(s: State)
    requires Enabled(s, ListPods)
    ensures SweepCovers(Apply(s, ListPods))
  {
  }

  /** A sweep that lists the pods and deletes all it listed leaves no pod of an earlier process. */
  lemma SweepRemovesOrphans(run: seq<State>, steps: seq<Step>, i: nat, k: nat)
    requires IsRun(run, steps) && i < k < |steps| && steps[i] == ListPods && steps[k] == EndSweep
    requires forall m | i < m < k :: steps[m] != Start && (steps[m].SweepPod? ==> steps[m].deleted)
    ensures var s := run[k + 1]; forall p | p in s.pods :: s.pods[p].owner == s.process
  {
    SweepStaysCovered(run, steps, i, k);
    assert run[k + 1] == Apply(run[k], steps[k]) && Enabled(run[k], EndSweep);
  }

  // The flags of the tracker say where the process is.
  ghost predicate Flagged(s: State) {
    && (s.phase == Booting ==> s.tracker == D.Init() && s.reconcile == Trying)
    && (s.phase == Up ==>
          && (s.tracker.core.held <==> !s.reconcile.Released?)
          && (s.tracker.core.draining <==> MAIN_DRAIN in s.tracker.drains)
          && s.tracker.drains.Keys <= {MAIN_DRAIN})
  }

  lemma FlaggedStep(s: State, step: Step)
    requires Inv(s) && Enabled(s, step) && Flagged(s)
    ensures Flagged(Apply(s, step))
  {
    hide D.Inv, CloseAll, D.Running;
  }

  lemma {:induction false} RunKeepsFlagged(run: seq<State>, steps: seq<Step>, k: nat)
    requires IsRun(run, steps) && k < |run|
    ensures Flagged(run[k])
  {
    hide Enabled, Apply, Inv;
    if k > 0 {
      RunKeepsFlagged(run, steps, k - 1);
      RunKeepsInv(run, steps, k - 1);
      FlaggedStep(run[k - 1], steps[k - 1]);
    }
  }

  /** A running process accepts work exactly from its release until it is told to stop. */
  lemma AcceptsWorkIff(run: seq<State>, steps: seq<Step>, k: nat, u: nat)
    requires IsRun(run, steps) && k < |steps| && steps[k] == Begin(u)
    ensures Works(run[k + 1], u) <==> run[k].reconcile.Released? && MAIN_DRAIN !in run[k].tracker.drains
  {
    RunKeepsFlagged(run, steps, k);
    assert Enabled(run[k], steps[k]) && run[k + 1] == Apply(run[k], steps[k]);
  }

  /** Startup cannot get stuck: whether the pods can be listed or not, and whether the reconcile works or gives up, the
      process can go on to its release, which lifts the hold and records which of the two it was. */
  lemma StartupCompletes(s: State, gaveUp: bool)
    requires s.phase == Up && s.sweep == Listing && s.reconcile == Trying
    ensures Enabled(s, ListPods) && Enabled(s, SkipSweep)
    ensures var s1 := Apply(s, SkipSweep);
            var step := if gaveUp then GiveUp else TryReconcile(true, true);
            && Enabled(s1, step)
            && var s2 := Apply(s1, step);
            && Enabled(s2, ReleaseWork)
            && var s3 := Apply(s2, ReleaseWork);
            && s3.reconcile == Released(!gaveUp) && !s3.tracker.core.held && s3.sweep == Swept
  {
  }

  /** Nor can the end: a process told to stop either drains at once, or may time out and then close its rows. */
  lemma ShutdownCompletes(s: State, d: string)
    requires Inv(s) && s.phase == Up && MAIN_DRAIN !in s.tracker.drains
    ensures Enabled(s, Terminate)
    ensures var s1 := Apply(s, Terminate);
            if D.Running(s.tracker) == {} then s1.tracker.drains[MAIN_DRAIN] == D.Returned(0)
            else
              && Enabled(s1, DrainTimedOut)
              && var s2 := Apply(s1, DrainTimedOut);
              && s2.tracker.drains[MAIN_DRAIN] == D.Returned(|D.Running(s.tracker)|)
              && Enabled(s2, FailRowsAtShutdown(d))
  {
    hide CloseAll;
    D.CountByInv(s.tracker);
  }

  ghost predicate DrainedClean(s: State) {
    && s.phase != Booting
    && MAIN_DRAIN in s.tracker.drains && s.tracker.drains[MAIN_DRAIN] == D.Returned(0)
  }

  // The rows and pods of process n are the same in s and t.
  ghost predicate SameOwn(s: State, t: State, n: nat) {
    && (forall job | job in s.rows && s.rows[job].owner == n :: job in t.rows && t.rows[job] == s.rows[job])
    && (forall job | job in t.rows && t.rows[job].owner == n :: job in s.rows && t.rows[job] == s.rows[job])
    && (forall p | p in s.pods && s.pods[p].owner == n :: p in t.pods && t.pods[p] == s.pods[p])
    && (forall p | p in t.pods && t.pods[p].owner == n :: p in s.pods && t.pods[p] == s.pods[p])
  }

  lemma DrainedStep(s: State, step: Step)
    requires Inv(s) && Enabled(s, step) && DrainedClean(s) && step != Start
    ensures DrainedClean(Apply(s, step)) && SameOwn(s, Apply(s, step), s.process)
  {
    assert D.DrainCallOk(s.tracker, s.tracker.drains[MAIN_DRAIN]);
    assert D.Running(s.tracker) == {};
  }

  /** After a clean drain the process writes no row and no pod of its own until it is gone. */
  lemma {:induction false} CleanDrainFreezesOwnWork(run: seq<State>, steps: seq<Step>, i: nat, j: nat)
    requires IsRun(run, steps) && i <= j < |run|
    requires DrainedClean(run[i]) && run[j].process == run[i].process
    ensures DrainedClean(run[j]) && SameOwn(run[i], run[j], run[i].process)
    decreases j
  {
    hide Inv, Enabled, Apply, DrainedClean, SameOwn;
    if i < j {
      ReleasesOnlyGrow(run, steps, i, j - 1);
      ReleasesOnlyGrow(run, steps, j - 1, j);
      CleanDrainFreezesOwnWork(run, steps, i, j - 1);
      RunKeepsInv(run, steps, j - 1);
      StartIsNewProcess(run[j - 1], steps[j - 1]);
      DrainedStep(run[j - 1], steps[j - 1]);
      SameOwnTransitive(run[i], run[j - 1], run[j], run[i].process);
    } else {
      SameOwnReflexive(run[i], run[i].process);
    }
  }

  lemma StartIsNewProcess(s: State, step: Step)
    requires Enabled(s, step)
    ensures step == Start ==> Apply(s, step).process > s.process
  {
  }

  lemma SameOwnReflexive(s: State, n: nat)
    ensures SameOwn(s, s, n)
  {
  }

  lemma SameOwnTransitive(s: State, t: State, u: State, n: nat)
    requires SameOwn(s, t, n) && SameOwn(t, u, n)
    ensures SameOwn(s, u, n)
  {
  }
}
