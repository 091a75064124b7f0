/**
 The build-row table and the two loops of the startup reconcile: closing every open row in one
 transaction, and retrying that until it works or the time is up.
 */
module BuildRows {

  datatype Status = Pending | Busy | Success | Failed

  // `owner` is the number of the agent process that created the row and `unit` its unit of work.
  datatype Row = Row(status: Status, owner: nat, unit: nat, errors: seq<string>)

  predicate Terminal(st: Status) {
    st == Success || st == Failed
  }

  function CloseRow(r: Row, reason: string): Row {
    if Terminal(r.status) then r else r.(status := Failed, errors := r.errors + ["ERROR: " + reason])
  }

  /** What one committed reconcile does to the table: it closes the open rows and only those. */
  function CloseAll(rows: map<string, Row>, reason: string): map<string, Row> {
    map j | j in rows :: CloseRow(rows[j], reason)
  }

  function Open(rows: map<string, Row>): set<string> {
    set j | j in rows && !Terminal(rows[j].status)
  }

  /** A reconcile leaves no open row, keeps every terminal row as it is, gives each row it closes exactly one
      more error line, and running it again changes nothing. */
  lemma CloseAllCloses(rows: map<string, Row>, reason: string, again: string)
    ensures CloseAll(rows, reason).Keys == rows.Keys
    ensures Open(CloseAll(rows, reason)) == {}
    ensures forall j | j in rows ::
              && CloseAll(rows, reason)[j].owner == rows[j].owner
              && CloseAll(rows, reason)[j].errors ==
                 rows[j].errors + (if j in Open(rows) then ["ERROR: " + reason] else [])
              && (j !in Open(rows) ==> CloseAll(rows, reason)[j] == rows[j])
    ensures CloseAll(CloseAll(rows, reason), again) == CloseAll(rows, reason)
  {
    var closed := CloseAll(rows, reason);
    assert forall j | j in rows :: Terminal(closed[j].status) && closed[j] == CloseRow(rows[j], reason);
    assert forall j | j in closed :: CloseRow(closed[j], again) == closed[j];
  }

  class Table {
    var rows: map<string, Row>
    var ready: bool // whether the database handle is live

    constructor ()
      ensures rows == map[] && !ready
    {
      rows, ready := map[], false;
    }

    // job_id is a unique index, so creating a row under a taken id fails and leaves the old row alone.
    method Create(job: string, owner: nat, unit: nat) returns (ok: bool)
      modifies this`rows
      ensures ok == (ready && job !in old(rows))
      ensures rows == if ok then old(rows)[job := Row(Pending, owner, unit, [])] else old(rows)
    {
      ok := ready && job !in rows;
      if ok {
        rows := rows[job := Row(Pending, owner, unit, [])];
      }
    }

    method UpdateStatus(job: string, st: Status) returns (ok: bool)
      modifies this`rows
      ensures ok == (ready && job in old(rows))
      ensures rows == if ok then old(rows)[job := old(rows)[job].(status := st)] else old(rows)
    {
      ok := ready && job in rows;
      if ok {
        rows := rows[job := rows[job].(status := st)];
      }
    }

    /** Closes the open rows in one transaction: they are plucked first, updated together, and get their
        error lines in a loop; a transaction that does not commit leaves the table as it was. */
    method FailNonTerminal(reason: string, commits: bool) returns (ok: bool, closed: nat)
      modifies this`rows
      ensures ok == (ready && commits)
      ensures rows == if ok then CloseAll(old(rows), reason) else old(rows)
      ensures closed == if ok then |Open(old(rows))| else 0
    {
      if !ready || !commits {
        return false, 0;
      }
      var jobs := Open(rows);
      var updated := map j | j in rows :: if j in jobs then rows[j].(status := Failed) else rows[j];
      var todo := jobs;
      while todo != {}
        invariant todo <= jobs
        invariant updated.Keys == rows.Keys
        invariant forall j | j in rows ::
                    updated[j] == if j !in jobs then rows[j]
                                  else if j in todo then rows[j].(status := Failed)
                                  else CloseRow(rows[j], reason)
        decreases todo
      {
        var j :| j in todo;
        updated := updated[j := updated[j].(errors := updated[j].errors + ["ERROR: " + reason])];
        todo := todo - {j};
      }
      assert updated == CloseAll(rows, reason);
      rows := updated;
      return true, |jobs|;
    }
  }

  /** The retry loop around the reconcile. `worked(k)` and `elapsed(k)` are the outcome and the clock of
      attempt k; every sleep moves the clock by at least `every`. It releases exactly once, at the end of
      the first attempt that worked or ran out of time. */
  method ReconcileUntilDone(worked: nat -> bool, elapsed: nat -> int, every: int, maxWait: int)
    returns (releases: nat, attempts: nat, closed: bool)
    requires every > 0
    requires forall k: nat :: elapsed(k + 1) >= elapsed(k) + every
    ensures releases == 1
    ensures attempts >= 1 && (worked(attempts - 1) || elapsed(attempts - 1) >= maxWait)
    ensures forall k: nat | k < attempts - 1 :: !worked(k) && elapsed(k) < maxWait
    ensures closed == worked(attempts - 1)
  {
    attempts, releases := 0, 0;
    while true
      invariant releases == 0
      invariant forall k: nat | k < attempts :: !worked(k) && elapsed(k) < maxWait
      decreases maxWait - elapsed(attempts)
    {
      var k := attempts;
      attempts := attempts + 1;
      if worked(k) {
        releases := releases + 1;
        return releases, attempts, true;
      }
      if elapsed(k) >= maxWait {
        releases := releases + 1;
        return releases, attempts, false;
      }
      assert elapsed(k + 1) >= elapsed(k) + every;
    }
  }
}
