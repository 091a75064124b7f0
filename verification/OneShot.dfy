/**
 How the outcome of a one-shot run is decided: the classification of one snapshot of the Job and its pod, and
 the loop that polls snapshots until one may be trusted.
 */
module OneShot {

  const WINDOW := 10_000_000_000   // ten seconds, in nanoseconds
  const INTERVAL := 1_000_000_000
  const TIMEOUT_EXIT_CODE := 124

  datatype Inputs = Inputs(
    deadlineExceeded: bool, jobSucceeded: bool, jobFailed: bool,
    podSucceeded: bool, podFailed: bool, podTerminated: bool, podExitCode: int)

  datatype Status = Success | Failed | Timeout

  predicate HasTerminalSignal(x: Inputs) {
    x.deadlineExceeded || x.podTerminated || x.podSucceeded || x.podFailed || x.jobSucceeded || x.jobFailed
  }

  predicate LooksLikeSignalKill(code: int) {
    code >= 128
  }

  function Classify(x: Inputs): (Status, int) {
    if x.deadlineExceeded then (Timeout, TIMEOUT_EXIT_CODE)
    else if x.podTerminated then if x.podExitCode == 0 then (Success, 0) else (Failed, x.podExitCode)
    else if x.jobSucceeded || x.podSucceeded then (Success, 0)
    else (Failed, 1)
  }

  // Evidence in a snapshot that the command succeeded: the exit code where it is readable, and otherwise an
  // aggregate of the pod or the Job.
  predicate SuccessEvidence(x: Inputs) {
    if x.podTerminated then x.podExitCode == 0 else x.jobSucceeded || x.podSucceeded
  }

  predicate SignalExit(x: Inputs) {
    x.podTerminated && LooksLikeSignalKill(x.podExitCode)
  }

  predicate CleanExit(x: Inputs) {
    x.podTerminated && !LooksLikeSignalKill(x.podExitCode)
  }

  // A snapshot that ends the polling whatever the time.
  predicate Conclusive(x: Inputs) {
    x.deadlineExceeded || CleanExit(x) || (HasTerminalSignal(x) && !x.podTerminated)
  }

  // What the world shows a run of the resolver: the snapshot poll k reads, the time since entry at its time
  // check, and whether its wait is cut short by the end of the context.
  datatype World = World(snap: nat -> Inputs, elapsed: nat -> int, ended: nat -> bool)

  predicate Stops(w: World, k: nat) {
    Conclusive(w.snap(k)) || (SignalExit(w.snap(k)) && w.elapsed(k) >= WINDOW) || w.ended(k)
  }

  ghost predicate FirstStop(w: World, k: nat) {
    Stops(w, k) && forall i: nat | i < k :: !Stops(w, i)
  }

  // Waits take at least the interval, and once the context's deadline has passed a wait ends at once.
  ghost predicate EndsAt(w: World, deadline: int) {
    && (forall k: nat :: w.elapsed(k + 1) >= w.elapsed(k) + INTERVAL)
    && (forall k: nat :: w.elapsed(k) >= deadline ==> w.ended(k))
  }

  /** The polling loop. It ends for every context with a deadline, at the first poll that may stop, with the
      classification of the last snapshot it read. */
  method ResolveOutcome(w: World, ghost deadline: int) returns (status: Status, code: int, polls: nat)
    requires EndsAt(w, deadline)
    ensures polls >= 1 && FirstStop(w, polls - 1)
    ensures (status, code) == Classify(w.snap(polls - 1))
  {
    polls := 0;
    while true
      invariant forall i: nat | i < polls :: !Stops(w, i)
      decreases deadline - w.elapsed(polls)
    {
      var k := polls;
      var x := w.snap(k);
      polls := polls + 1;
      if x.deadlineExceeded {
        status, code := Classify(x).0, Classify(x).1;
        return;
      }
      if x.podTerminated && !LooksLikeSignalKill(x.podExitCode) {
        status, code := Classify(x).0, Classify(x).1;
        return;
      }
      if x.podTerminated && LooksLikeSignalKill(x.podExitCode) {
        if w.elapsed(k) >= WINDOW {
          status, code := Classify(x).0, Classify(x).1;
          return;
        }
        if w.ended(k) {
          status, code := Classify(x).0, Classify(x).1;
          return;
        }
        assert w.elapsed(k + 1) >= w.elapsed(k) + INTERVAL;
        continue;
      }
      if HasTerminalSignal(x) {
        status, code := Classify(x).0, Classify(x).1;
        return;
      }
      if w.ended(k) {
        status, code := Classify(x).0, Classify(x).1;
        return;
      }
      assert w.elapsed(k + 1) >= w.elapsed(k) + INTERVAL;
    }
  }

  /** Success needs success evidence and no deadline evidence in the snapshot, the exit code is 0 exactly for
      a success, and a run without any terminal evidence is failed only because the context ended. */
  lemma OutcomeIsJustified(w: World, k: nat)
    requires FirstStop(w, k)
    ensures var (status, code) := Classify(w.snap(k));
            && (status == Success <==> SuccessEvidence(w.snap(k)) && !w.snap(k).deadlineExceeded)
            && (status == Timeout <==> w.snap(k).deadlineExceeded)
            && (code == 0 <==> status == Success)
            && (status == Timeout ==> code == 124)
            && (status == Failed ==> code == if w.snap(k).podTerminated then w.snap(k).podExitCode else 1)
            && (!HasTerminalSignal(w.snap(k)) ==> w.ended(k) && status == Failed)
  {
    assert Stops(w, k);
  }

  /** When a poll ends the loop, written out: at a deadline, at an exit code below 128, at an exit code from 128 on
      once ten seconds have passed since entry, at any of the four aggregate signals while no exit code is
      readable, or when the context ends. */
  lemma StopsIff(w: World, k: nat)
    ensures var x := w.snap(k);
            Stops(w, k) <==>
            || x.deadlineExceeded
            || (x.podTerminated && x.podExitCode < 128)
            || (x.podTerminated && x.podExitCode >= 128 && w.elapsed(k) >= 10 * 1_000_000_000)
            || (!x.podTerminated && (x.podSucceeded || x.podFailed || x.jobSucceeded || x.jobFailed))
            || w.ended(k)
  {
  }

  /** A clean exit is returned by the poll that reads it. */
  lemma CleanExitReturnsAtOnce(w: World, k: nat, stop: nat)
    requires CleanExit(w.snap(k)) && FirstStop(w, stop)
    requires forall i: nat | i < k :: !Stops(w, i)
    ensures stop == k
    ensures !w.snap(k).deadlineExceeded ==>
              Classify(w.snap(k)) == (if w.snap(k).podExitCode == 0 then Success else Failed, w.snap(k).podExitCode)
  {
    assert Stops(w, k);
  }

  // What has been observed stays observed.
  ghost predicate NonRetracting(w: World) {
    forall i: nat, j: nat | i <= j ::
      && (w.snap(i).deadlineExceeded ==> w.snap(j).deadlineExceeded)
      && (w.snap(i).podTerminated ==> w.snap(j).podTerminated && w.snap(j).podExitCode == w.snap(i).podExitCode)
  }

  // The deadline condition is read at poll m, before the window closed or the context ended.
  ghost predicate DeadlineInTime(w: World, k: nat, m: nat) {
    k <= m && w.snap(m).deadlineExceeded && forall i: nat | k <= i < m :: w.elapsed(i) < WINDOW && !w.ended(i)
  }

  /** A signal-coded exit is reported as timeout/124 exactly when the deadline condition is read before the
      window closes or the context ends; otherwise it is reported with its own code. */
  lemma SignalExitIsTimeoutIff(w: World, k: nat, stop: nat)
    requires NonRetracting(w) && FirstStop(w, stop)
    requires SignalExit(w.snap(k)) && forall i: nat | i < k :: !Stops(w, i)
    ensures Classify(w.snap(stop)) == (Timeout, TIMEOUT_EXIT_CODE) <==> exists m: nat :: DeadlineInTime(w, k, m)
    ensures (forall m: nat :: !DeadlineInTime(w, k, m)) ==>
              Classify(w.snap(stop)) == (Failed, w.snap(k).podExitCode)
  {
    assert k <= stop;
    assert SignalExit(w.snap(stop)) by { assert w.snap(k).podTerminated; }
    if w.snap(stop).deadlineExceeded {
      forall i: nat | k <= i < stop
        ensures w.elapsed(i) < WINDOW && !w.ended(i)
      {
        assert !Stops(w, i) && SignalExit(w.snap(i));
      }
      assert DeadlineInTime(w, k, stop);
    }
    forall m: nat | DeadlineInTime(w, k, m)
      ensures w.snap(stop).deadlineExceeded
    {
      TimelyDeadlineIsSeen(w, k, stop, m);
    }
  }

  lemma TimelyDeadlineIsSeen(w: World, k: nat, stop: nat, m: nat)
    requires NonRetracting(w) && Stops(w, stop) && k <= stop
    requires SignalExit(w.snap(stop)) && DeadlineInTime(w, k, m)
    ensures w.snap(stop).deadlineExceeded
  {
    if m <= stop { assert w.snap(m).deadlineExceeded; }
  }
}
