/**
 Single-use tokens and the handlers that spend them or start work.

 Uploads and downloads look a token up, check it and mark it used in separate database calls, while other
 handlers, token creations and the expiry sweep run in between. Uploads, VCS builds and one-shot runs also
 register with the drain tracker and must end their registration exactly once: by the deferred call of the
 handler, or by the background goroutine the work was handed to.

 A raw token stands for its hash. Rows carry the number of their creation, so that a row made again under an
 old token is told apart from the old one.
 */
module Tokens {
  import opened Options
  import DT = DrainTracker

  // ---------------------------------------------------------------------------------------------
  // The table.
  // ---------------------------------------------------------------------------------------------

  datatype Purpose = Upload | BuildImage | Pull

  datatype Row = Row(id: nat, purpose: Purpose, expires: int, used: bool)

  // The hash has a unique index.
  function Insert(rows: map<string, Row>, token: string, row: Row): map<string, Row> {
    if token in rows then rows else rows[token := row]
  }

  function Lookup(rows: map<string, Row>, token: string, purposes: set<Purpose>): Option<Row> {
    if token in rows && rows[token].purpose in purposes then Some(rows[token]) else None
  }

  // Whether the conditional update finds an unused row.
  predicate Markable(rows: map<string, Row>, token: string) {
    token in rows && !rows[token].used
  }

  function MarkUsed(rows: map<string, Row>, token: string): map<string, Row> {
    if Markable(rows, token) then rows[token := rows[token].(used := true)] else rows
  }

  function DropExpired(rows: map<string, Row>, now: int): map<string, Row> {
    map t | t in rows && rows[t].expires >= now :: rows[t]
  }

  class Table {
    var rows: map<string, Row>
    var created: nat

    constructor ()
      ensures rows == map[] && created == 0
    {
      rows, created := map[], 0;
    }

    method Create(token: string, purpose: Purpose, expires: int) returns (ok: bool)
      modifies this
      ensures ok == (token !in old(rows))
      ensures rows == Insert(old(rows), token, Row(old(created), purpose, expires, false))
      ensures created == if ok then old(created) + 1 else old(created)
    {
      ok := token !in rows;
      if ok {
        rows := rows[token := Row(created, purpose, expires, false)];
        created := created + 1;
      }
    }

    method Mark(token: string) returns (ok: bool)
      modifies this`rows
      ensures ok == Markable(old(rows), token)
      ensures rows == MarkUsed(old(rows), token)
    {
      if token !in rows || rows[token].used {
        return false;
      }
      rows := rows[token := rows[token].(used := true)];
      return true;
    }

    method DeleteExpired(now: int)
      modifies this`rows
      ensures rows == DropExpired(old(rows), now)
    {
      rows := map t | t in rows && !(rows[t].expires < now) :: rows[t];
    }
  }

  // What became of one upload request.
  datatype Reply = Unavailable | Unauthorized | Failed | Accepted

  // The part of the upload handler below its deferred end call. `dbUp`, `answered` and `prepared` say
  // whether the lookup works, whether the answer of the update arrives, and whether everything between the
  // mark and the hand-off works.
  method ReceiveUpload(table: Table, token: string, now: int, dbUp: bool, answered: bool, prepared: bool)
    returns (started: bool, reply: Reply)
    modifies table`rows
    ensures (started <==> reply == Accepted) && reply != Unavailable
    ensures reply == Accepted <==>
            && Spendable(old(table.rows), token, now)
            && dbUp && answered && prepared
    ensures table.rows ==
            if dbUp && Spendable(old(table.rows), token, now) then MarkUsed(old(table.rows), token)
            else old(table.rows)
  {
    started := false;
    var found := if dbUp then Lookup(table.rows, token, {Upload, BuildImage}) else None;
    if found.None? || now > found.value.expires || found.value.used {
      return false, Unauthorized;
    }
    var marked := table.Mark(token);
    if !marked || !answered || !prepared {
      return false, Failed;
    }
    return true, Accepted;
  }

  /** The token part of one download with nothing in between: it is let through exactly for an unexpired, unused pull
      token whose update is answered. The table changes exactly when the update is sent, and then only in the used
      flag of that token. */
  method HandlePull(table: Table, token: string, now: int, dbUp: bool, answered: bool) returns (reply: Reply)
    modifies table`rows
    ensures reply == Unauthorized <==>
            !(&& dbUp && token in old(table.rows) && old(table.rows)[token].purpose == Pull
              && now <= old(table.rows)[token].expires && !old(table.rows)[token].used)
    ensures reply == Accepted <==> reply != Unauthorized && answered
    ensures table.rows ==
            if reply == Unauthorized then old(table.rows)
            else old(table.rows)[token := old(table.rows)[token].(used := true)]
  {
    var found := if dbUp then Lookup(table.rows, token, {Pull}) else None;
    if found.None? || now > found.value.expires || found.value.used {
      return Unauthorized;
    }
    var marked := table.Mark(token);
    if !marked || !answered {
      return Failed;
    }
    return Accepted;
  }

  predicate Spendable(rows: map<string, Row>, token: string, now: int) {
    && token in rows
    && rows[token].purpose in {Upload, BuildImage}
    && now <= rows[token].expires
    && !rows[token].used
  }

  /** One upload with nothing in between: a refusal touches neither the tracker nor the table; a hand-off
      leaves exactly one running end function more and the token used; every other way out leaves the
      tracker's count as it was. */
  method HandleUpload(tracker: DT.Tracker, table: Table, token: string, now: int,
                      dbUp: bool, answered: bool, prepared: bool)
    returns (reply: Reply, background: DT.EndFunc?)
    requires tracker.Valid()
    modifies tracker, table`rows
    ensures tracker.Valid()
    ensures reply == Unavailable <==> old(tracker.draining || tracker.held)
    ensures reply == Unavailable ==> table.rows == old(table.rows) && tracker.View() == old(tracker.View())
    ensures reply == Accepted <==> background != null
    ensures background != null ==>
              && background in tracker.running
              && tracker.inFlight == old(tracker.inFlight) + 1
              && Spendable(old(table.rows), token, now)
              && token in table.rows && table.rows[token].used
    ensures background == null ==> tracker.inFlight == old(tracker.inFlight)
  {
    background := null;
    var end, refusal := tracker.Begin();
    if end == null {
      return Unavailable, null;
    }
    var started;
    started, reply := ReceiveUpload(table, token, now, dbUp, answered, prepared);
    if started {
      background := end;
    } else {
      end.Call();
    }
  }

  // ---------------------------------------------------------------------------------------------
  // The handlers.
  // ---------------------------------------------------------------------------------------------

  datatype Kind = UploadHandler | PullHandler | VcsBuild | OneShot

  function Wants(k: Kind): set<Purpose> {
    match k
    case UploadHandler => {Upload, BuildImage}
    case PullHandler => {Pull}
    case VcsBuild => {}
    case OneShot => {}
  }

  // A download does not register with the tracker.
  predicate Tracks(k: Kind) {
    k != PullHandler
  }

  datatype Pc = Called | Refused | Begun | Looked(row: Row) | Checked(row: Row) | Marked(row: Row)

  // `started` is the flag that moves the end call from the deferred function to the goroutine; `ends` counts
  // the calls of the end function.
  datatype Handler = Handler(
    kind: Kind, token: string, pc: Pc, started: bool, returned: bool, finished: bool, ends: nat)

  // The handler holds an end function.
  predicate Began(h: Handler) {
    Tracks(h.kind) && !h.pc.Called? && !h.pc.Refused?
  }

  // The work is over: the goroutine it was handed to has finished, or the handler left without handing it on.
  predicate Over(h: Handler) {
    if h.started then h.finished else h.returned
  }

  datatype Creation = Creation(token: string, purpose: Purpose)

  // A handler that got past the mark: the row it looked up and the row it marked.
  datatype Pass = Pass(handler: nat, seen: nat, row: nat)

  datatype State = State(
    now: int,
    rows: map<string, Row>,
    handlers: map<nat, Handler>,
    work: DT.State,
    created: seq<Creation>, // every row ever made, by number
    passed: seq<Pass>       // every mark that let a handler through
  )

  datatype Step =
    | Create(token: string, purpose: Purpose, expires: int)
    | Tick(now: int)
    | Sweep
    | Call(h: nat, kind: Kind, token: string)
    | Begin(h: nat)
    | Look(h: nat)
    | Check(h: nat)
    | Mark(h: nat)
    | MarkUnheard(h: nat)    // the update commits but its answer is lost
    | HandOff(h: nat)
    | Return(h: nat)         // any return of the handler, early ones and panics included
    | Finish(h: nat)
    | Tracker(step: DT.Step) // what others do to the tracker

  function Init(): State {
    State(0, map[], map[], DT.Init(), [], [])
  }

  // A handler that is still executing.
  predicate Active(s: State, h: nat) {
    h in s.handlers && !s.handlers[h].returned
  }

  predicate Enabled(s: State, step: Step) {
    match step
    case Create(t, _, _) => t !in s.rows
    case Tick(now) => now >= s.now
    case Sweep => true
    case Call(h, _, _) => h !in s.handlers
    case Begin(h) => Active(s, h) && Tracks(s.handlers[h].kind) && s.handlers[h].pc.Called?
    case Look(h) =>
      && Active(s, h)
      && s.handlers[h].pc == (if Tracks(s.handlers[h].kind) then Begun else Called)
      && Lookup(s.rows, s.handlers[h].token, Wants(s.handlers[h].kind)).Some?
    case Check(h) =>
      && Active(s, h)
      && s.handlers[h].pc.Looked?
      && s.now <= s.handlers[h].pc.row.expires
      && !s.handlers[h].pc.row.used
    case Mark(h) => Active(s, h) && s.handlers[h].pc.Checked? && Markable(s.rows, s.handlers[h].token)
    case MarkUnheard(h) => Active(s, h) && s.handlers[h].pc.Checked?
    case HandOff(h) =>
      && Active(s, h)
      && !s.handlers[h].started
      && Tracks(s.handlers[h].kind)
      && (if s.handlers[h].kind == UploadHandler then s.handlers[h].pc.Marked? else s.handlers[h].pc.Begun?)
    case Return(h) => Active(s, h)
    case Finish(h) => h in s.handlers && s.handlers[h].started && !s.handlers[h].finished
    case Tracker(d) => !d.Begin? && !d.End? && DT.Enabled(s.work, d)
  }

  function SetPc(s: State, h: nat, pc: Pc): State
    requires h in s.handlers
  {
    s.(handlers := s.handlers[h := s.handlers[h].(pc := pc)])
  }

  // The handler returns; its deferred function ends the work unless that was handed on.
  function Leave(s: State, h: nat): State
    requires h in s.handlers && (Began(s.handlers[h]) ==> h in s.work.ends)
  {
    var x := s.handlers[h];
    if Began(x) && !x.started
    then s.(handlers := s.handlers[h := x.(returned := true, ends := x.ends + 1)],
            work := DT.Apply(s.work, DT.End(h)))
    else s.(handlers := s.handlers[h := x.(returned := true)])
  }

  // What the handlers and the tracker agree on.
  ghost predicate Registered(s: State) {
    && (forall h | h in s.handlers && Began(s.handlers[h]) ::
          h in s.work.ends && s.work.ends[h] == (s.handlers[h].ends > 0))
    && (forall h | h in s.work.ends :: h in s.handlers && Began(s.handlers[h]))
  }

  ghost function Apply(s: State, step: Step): State
    requires Registered(s) && Enabled(s, step)
  {
    match step
    case Create(t, p, e) =>
      s.(rows := Insert(s.rows, t, Row(|s.created|, p, e, false)), created := s.created + [Creation(t, p)])
    case Tick(now) => s.(now := now)
    case Sweep => s.(rows := DropExpired(s.rows, s.now))
    case Call(h, k, t) => s.(handlers := s.handlers[h := Handler(k, t, Called, false, false, false, 0)])
    case Begin(h) =>
      if DT.Refuses(s.work.core)
      then s.(handlers := s.handlers[h := s.handlers[h].(pc := Refused, returned := true)])
      else SetPc(s, h, Begun).(work := DT.Apply(s.work, DT.Begin(h)))
    case Look(h) =>
      SetPc(s, h, Looked(Lookup(s.rows, s.handlers[h].token, Wants(s.handlers[h].kind)).value))
    case Check(h) => SetPc(s, h, Checked(s.handlers[h].pc.row))
    case Mark(h) =>
      var x := s.handlers[h];
      SetPc(s, h, Marked(x.pc.row)).(rows := MarkUsed(s.rows, x.token),
                                     passed := s.passed + [Pass(h, x.pc.row.id, s.rows[x.token].id)])
    case MarkUnheard(h) => Leave(s, h).(rows := MarkUsed(s.rows, s.handlers[h].token))
    case HandOff(h) => s.(handlers := s.handlers[h := s.handlers[h].(started := true)])
    case Return(h) => Leave(s, h)
    case Finish(h) =>
      var x := s.handlers[h];
      if Began(x) then
        s.(handlers := s.handlers[h := x.(finished := true, ends := x.ends + 1)],
           work := DT.Apply(s.work, DT.End(h)))
      else s
    case Tracker(d) => s.(work := DT.Apply(s.work, d))
  }

  // ---------------------------------------------------------------------------------------------
  // The invariant.
  // ---------------------------------------------------------------------------------------------

  predicate Flags(x: Handler) {
    && (x.started ==> Began(x))
    && (x.finished ==> x.started)
    && x.ends == (if Began(x) && x.returned && !x.started then 1 else 0) + (if x.finished then 1 else 0)
  }

  // A row number the handler holds is of its token and of a purpose it may spend.
  predicate Holds(s: State, x: Handler) {
    (x.pc.Looked? || x.pc.Checked? || x.pc.Marked?) ==>
      && x.pc.row.id < |s.created|
      && s.created[x.pc.row.id].token == x.token
      && s.created[x.pc.row.id].purpose in Wants(x.kind)
  }

  predicate RowsOk(s: State) {
    forall t | t in s.rows ::
      s.rows[t].id < |s.created| && s.created[s.rows[t].id] == Creation(t, s.rows[t].purpose)
  }

  predicate PassOk(s: State, p: Pass) {
    && p.handler in s.handlers
    && s.handlers[p.handler].pc.Marked?
    && p.row < |s.created| && p.seen < |s.created|
    && s.created[p.row].token == s.created[p.seen].token == s.handlers[p.handler].token
    && s.created[p.seen].purpose in Wants(s.handlers[p.handler].kind)
    && (s.handlers[p.handler].token in s.rows && s.rows[s.handlers[p.handler].token].id == p.row
        ==> s.rows[s.handlers[p.handler].token].used)
  }

  predicate PassesOk(s: State) {
    && (forall i | 0 <= i < |s.passed| :: PassOk(s, s.passed[i]))
    && (forall i, j | 0 <= i < j < |s.passed| ::
          s.passed[i].row != s.passed[j].row && s.passed[i].handler != s.passed[j].handler)
  }

  predicate HandlersOk(s: State) {
    forall h | h in s.handlers :: Flags(s.handlers[h]) && Holds(s, s.handlers[h])
  }

  ghost predicate Inv(s: State) {
    Registered(s) && HandlersOk(s) && RowsOk(s) && PassesOk(s) && DT.Inv(s.work)
  }

  lemma WorkKeepsInv(s: State, step: Step)
    requires Inv(s) && Enabled(s, step)
    ensures DT.Inv(Apply(s, step).work)
  {
    hide DT.Inv, DT.Apply, PassesOk, RowsOk, HandlersOk, Insert, MarkUsed, DropExpired, Lookup, Markable;
    var t := Apply(s, step);
    if step.Begin? && !DT.Refuses(s.work.core) {
      DT.StepKeepsInv(s.work, DT.Begin(step.h));
    } else if step.Tracker? {
      DT.StepKeepsInv(s.work, step.step);
    } else if t.work != s.work {
      DT.StepKeepsInv(s.work, DT.End(step.h));
    }
  }

  lemma EndsAfter(w: DT.State, step: DT.Step)
    requires DT.Enabled(w, step)
    ensures DT.Apply(w, step).ends ==
            match step
            case Begin(u) => if DT.Refuses(w.core) then w.ends else w.ends[u := false]
            case End(u) => w.ends[u := true]
            case _ => w.ends
  {
    if step.End? { assert w.ends[step.unit] ==> w.ends[step.unit := true] == w.ends; }
  }

  predicate Ends(s: State, step: Step) {
    && (step.Finish? || step.Return? || step.MarkUnheard?)
    && step.h in s.handlers
    && Began(s.handlers[step.h])
    && (step.Finish? || !s.handlers[step.h].started)
  }

  lemma EndKeepsRegistered(s: State, step: Step)
    requires Inv(s) && Enabled(s, step) && Ends(s, step)
    ensures Registered(Apply(s, step))
  {
    hide DT.Inv, DT.Apply, PassesOk, RowsOk, HandlersOk, MarkUsed;
    EndsAfter(s.work, DT.End(step.h));
    var t := Apply(s, step);
    assert t.work == DT.Apply(s.work, DT.End(step.h));
    assert forall h | h in s.handlers && h != step.h :: t.handlers[h] == s.handlers[h];
  }

  lemma BeginKeepsRegistered(s: State, h: nat)
    requires Inv(s) && Enabled(s, Begin(h))
    ensures Registered(Apply(s, Begin(h)))
  {
    hide DT.Inv, DT.Apply, PassesOk, RowsOk, Holds;
    assert Flags(s.handlers[h]);
    if !DT.Refuses(s.work.core) { EndsAfter(s.work, DT.Begin(h)); }
  }

  lemma RegisteredKeepsInv(s: State, step: Step)
    requires Inv(s) && Enabled(s, step)
    ensures Registered(Apply(s, step))
  {
    hide DT.Inv, DT.Apply, PassesOk, RowsOk, HandlersOk, Insert, MarkUsed, DropExpired, Lookup, Markable;
    if Ends(s, step) {
      EndKeepsRegistered(s, step);
    } else if step.Tracker? {
      EndsAfter(s.work, step.step);
    } else if step.Begin? {
      BeginKeepsRegistered(s, step.h);
    }
  }

  lemma FlagsKeepInv(s: State, step: Step)
    requires Inv(s) && Enabled(s, step)
    ensures forall h | h in Apply(s, step).handlers :: Flags(Apply(s, step).handlers[h])
  {
    hide DT.Inv, DT.Apply, PassesOk, RowsOk, Holds, Insert, MarkUsed, DropExpired, Lookup, Markable;
  }

  // What a handler holds stays right when only creations are added and the handler is not the one that looks.
  lemma HoldsOnceMore(s: State, t: State, x: Handler, y: Handler)
    requires Holds(s, x) && s.created <= t.created && y.token == x.token && y.kind == x.kind
    requires (y.pc.Looked? || y.pc.Checked? || y.pc.Marked?) ==>
               (x.pc.Looked? || x.pc.Checked? || x.pc.Marked?) && y.pc.row == x.pc.row
    ensures Holds(t, y)
  {
  }

  lemma LookHolds(s: State, h: nat)
    requires Inv(s) && Enabled(s, Look(h))
    ensures Holds(Apply(s, Look(h)), Apply(s, Look(h)).handlers[h])
  {
    hide DT.Inv, DT.Apply, DT.Enabled, PassesOk, HandlersOk, Registered, Wants;
  }

  lemma HoldsKeepInv(s: State, step: Step)
    requires Inv(s) && Enabled(s, step)
    ensures forall h | h in Apply(s, step).handlers :: Holds(Apply(s, step), Apply(s, step).handlers[h])
  {
    hide DT.Inv, DT.Apply, DT.Enabled, PassesOk, RowsOk, Flags, Holds, Wants;
    hide Insert, MarkUsed, DropExpired, Lookup, Markable;
    var t := Apply(s, step);
    forall h | h in t.handlers ensures Holds(t, t.handlers[h]) {
      if h !in s.handlers {
        NewHolds(t, t.handlers[h]);
      } else {
        assert Holds(s, s.handlers[h]);
        if step == Look(h) { LookHolds(s, h); } else { HoldsOnceMore(s, t, s.handlers[h], t.handlers[h]); }
      }
    }
  }

  lemma NewHolds(t: State, x: Handler)
    requires x.pc == Called
    ensures Holds(t, x)
  {
  }

  lemma RowsKeepInv(s: State, step: Step)
    requires Inv(s) && Enabled(s, step)
    ensures RowsOk(Apply(s, step))
  {
    hide DT.Inv, DT.Apply, PassesOk, HandlersOk, Registered;
  }

  lemma OldPassesKeepInv(s: State, step: Step)
    requires Inv(s) && Enabled(s, step)
    ensures forall i | 0 <= i < |s.passed| :: PassOk(Apply(s, step), s.passed[i])
  {
    hide DT.Inv, DT.Apply, Registered, HandlersOk, Wants;
    forall i | 0 <= i < |s.passed|
      ensures PassOk(Apply(s, step), s.passed[i])
    {
      assert PassOk(s, s.passed[i]);
    }
  }

  lemma NewPassIsOk(s: State, h: nat)
    requires Inv(s) && Enabled(s, Mark(h))
    ensures var p := Pass(h, s.handlers[h].pc.row.id, s.rows[s.handlers[h].token].id);
            && PassOk(Apply(s, Mark(h)), p)
            && forall i | 0 <= i < |s.passed| :: s.passed[i].row != p.row && s.passed[i].handler != h
  {
    hide DT.Inv, DT.Apply, Registered;
    assert Holds(s, s.handlers[h]);
    forall i | 0 <= i < |s.passed|
      ensures s.passed[i].row != s.rows[s.handlers[h].token].id && s.passed[i].handler != h
    {
      assert PassOk(s, s.passed[i]);
    }
  }

  lemma PassesKeepInv(s: State, step: Step)
    requires Inv(s) && Enabled(s, step)
    ensures PassesOk(Apply(s, step))
  {
    hide DT.Inv, DT.Apply, Registered, HandlersOk, PassOk, Insert, MarkUsed, DropExpired, Lookup;
    OldPassesKeepInv(s, step);
    if step.Mark? { NewPassIsOk(s, step.h); }
  }

  lemma StepKeepsInv(s: State, step: Step)
    requires Inv(s) && Enabled(s, step)
    ensures Inv(Apply(s, step))
  {
    hide Registered, Flags, Holds, RowsOk, PassesOk, DT.Inv, Apply, Enabled;
    WorkKeepsInv(s, step);
    RegisteredKeepsInv(s, step);
    FlagsKeepInv(s, step);
    HoldsKeepInv(s, step);
    RowsKeepInv(s, step);
    PassesKeepInv(s, step);
  }

  // ---------------------------------------------------------------------------------------------
  // Whole runs.
  // ---------------------------------------------------------------------------------------------

  ghost predicate IsRun(run: seq<State>, steps: seq<Step>) {
    && |run| == |steps| + 1
    && run[0] == Init()
    && forall i | 0 <= i < |steps| ::
         Registered(run[i]) && Enabled(run[i], steps[i]) && run[i + 1] == Apply(run[i], steps[i])
  }

  lemma {:induction false} RunKeepsInv(run: seq<State>, steps: seq<Step>, i: nat)
    requires IsRun(run, steps) && i < |run|
    ensures Inv(run[i])
  {
    hide Inv, Registered, Enabled, Apply;
    if i == 0 {
      InitInv();
    } else {
      RunKeepsInv(run, steps, i - 1);
      StepKeepsInv(run[i - 1], steps[i - 1]);
    }
  }

  lemma InitInv()
    ensures Inv(Init())
  {
  }

  // What has passed stays on record, so the last state of a run speaks about the whole run.
  lemma {:induction false} HistoryGrows(run: seq<State>, steps: seq<Step>, i: nat, j: nat)
    requires IsRun(run, steps) && i <= j < |run|
    ensures run[i].passed <= run[j].passed && run[i].created <= run[j].created
    decreases j
  {
    hide Registered, Enabled, DT.Apply;
    if i < j { HistoryGrows(run, steps, i, j - 1); }
  }

  /** Single use of a row, over a whole run and at any two moments of it: no row lets two handlers through, and no
      handler passes twice; what a handler passed with is a row of its own token. */
  lemma SingleUse(run: seq<State>, steps: seq<Step>, i: nat, j: nat, a: nat, b: nat)
    requires IsRun(run, steps) && i <= j < |run| && a < |run[i].passed| && b < |run[j].passed| && a != b
    ensures run[i].passed[a].row != run[j].passed[b].row
    ensures run[i].passed[a].handler != run[j].passed[b].handler
    ensures PassOk(run[j], run[i].passed[a])
  {
    RunKeepsInv(run, steps, j);
    HistoryGrows(run, steps, i, j);
    assert run[i].passed[a] == run[j].passed[a];
    assert PassOk(run[j], run[j].passed[a]);
  }

  // ---------------------------------------------------------------------------------------------
  // What a handler saw before it passed, and how long a token lasts.
  // ---------------------------------------------------------------------------------------------

  // The row in a handler's hand.
  predicate HasRow(x: Handler) {
    x.pc.Looked? || x.pc.Checked? || x.pc.Marked?
  }

  // At step l the handler looked that row up in the table, under its own token and for a purpose it may spend.
  ghost predicate LookedUp(run: seq<State>, steps: seq<Step>, l: nat, h: nat, x: Handler, row: Row) {
    && l < |steps| < |run| && steps[l] == Look(h)
    && x.token in run[l].rows && run[l].rows[x.token] == row && row.purpose in Wants(x.kind)
  }

  // At step c it found the row unused and not expired.
  ghost predicate FoundValid(run: seq<State>, steps: seq<Step>, c: nat, h: nat, row: Row) {
    c < |steps| < |run| && steps[c] == Check(h) && run[c].now <= row.expires && !row.used
  }

  lemma HandStep(s: State, step: Step, h: nat)
    requires Registered(s) && Enabled(s, step) && h in Apply(s, step).handlers && HasRow(Apply(s, step).handlers[h])
    ensures h in s.handlers
    ensures var x, y := s.handlers[h], Apply(s, step).handlers[h];
            && y.token == x.token && y.kind == x.kind
            && (if step == Look(h) then
                  x.token in s.rows && y.pc == Looked(s.rows[x.token]) && y.pc.row.purpose in Wants(x.kind)
                else HasRow(x) && y.pc.row == x.pc.row)
            && (y.pc.Checked? && !x.pc.Checked? ==> step == Check(h) && s.now <= y.pc.row.expires && !y.pc.row.used)
            && (y.pc.Marked? && !x.pc.Marked? ==> step == Mark(h) && x.pc.Checked?)
            && (x.pc.Checked? || x.pc.Marked? ==> step != Look(h))
  {
    hide DT.Apply, DT.Enabled, Insert, MarkUsed, DropExpired;
  }

  ghost predicate Justified(run: seq<State>, steps: seq<Step>, k: nat, h: nat)
    requires k < |run| && h in run[k].handlers && HasRow(run[k].handlers[h])
  {
    var x := run[k].handlers[h];
    && (exists l :: 0 <= l < k && LookedUp(run, steps, l, h, x, x.pc.row))
    && (x.pc.Checked? || x.pc.Marked? ==> exists c :: 0 <= c < k && FoundValid(run, steps, c, h, x.pc.row))
  }

  /** A handler holds a row only after looking it up under its own token and for a purpose it may spend, and gets past
      its checks, and so to the mark, only after finding that row unused and not expired. */
  lemma {:induction false} HandIsJustified(run: seq<State>, steps: seq<Step>, k: nat, h: nat)
    requires IsRun(run, steps) && k < |run| && h in run[k].handlers && HasRow(run[k].handlers[h])
    ensures Justified(run, steps, k, h)
  {
    hide Registered, Enabled, Apply;
    if k > 0 {
      HandStep(run[k - 1], steps[k - 1], h);
      var x, y := run[k - 1].handlers[h], run[k].handlers[h];
      if steps[k - 1] == Look(h) {
        assert LookedUp(run, steps, k - 1, h, y, y.pc.row);
      } else {
        HandIsJustified(run, steps, k - 1, h);
        var l :| 0 <= l < k - 1 && LookedUp(run, steps, l, h, x, x.pc.row);
        assert LookedUp(run, steps, l, h, y, y.pc.row);
        if y.pc.Checked? && !x.pc.Checked? {
          assert FoundValid(run, steps, k - 1, h, y.pc.row);
        } else if y.pc.Checked? || y.pc.Marked? {
          var c :| 0 <= c < k - 1 && FoundValid(run, steps, c, h, x.pc.row);
          assert FoundValid(run, steps, c, h, y.pc.row);
        }
      }
    }
  }

  // The row of creation i is in the table as it was made, but for the used flag.
  ghost predicate Lasting(s: State, i: nat, row: Row) {
    && i < |s.created| && row.id == i
    && s.created[i].token in s.rows && s.rows[s.created[i].token].(used := false) == row
  }

  lemma LastingStep(s: State, step: Step, i: nat, row: Row)
    requires Inv(s) && Enabled(s, step) && Lasting(s, i, row)
    ensures step != Sweep || s.now <= row.expires ==> Lasting(Apply(s, step), i, row)
    ensures Lasting(Apply(s, step), i, row) ==>
              var t := s.created[i].token;
              if (step.Mark? || step.MarkUnheard?) && s.handlers[step.h].token == t then Apply(s, step).rows[t].used
              else Apply(s, step).rows[t] == s.rows[t]
  {
    hide DT.Apply, DT.Enabled, DT.Inv, PassesOk, HandlersOk;
  }

  /** A token lasts until it expires: as long as no sweep comes after its expiry, its row is in the table as it was
      made, used exactly if a handler with that token reached the mark since. */
  lemma {:induction false} TokenLasts(run: seq<State>, steps: seq<Step>, i: nat, k: nat)
    requires IsRun(run, steps) && i < k < |run| && steps[i].Create?
    requires forall m | i < m < k && steps[m] == Sweep :: run[m].now <= steps[i].expires
    ensures var t, row := steps[i].token, Row(|run[i].created|, steps[i].purpose, steps[i].expires, false);
            && Lasting(run[k], |run[i].created|, row) && run[k].created[|run[i].created|].token == t
            && (run[k].rows[t].used <==>
                exists m :: i < m < k && (steps[m].Mark? || steps[m].MarkUnheard?)
                            && steps[m].h in run[m].handlers && run[m].handlers[steps[m].h].token == t)
    decreases k
  {
    hide Registered, Inv, Enabled, Apply;
    var t, n := steps[i].token, |run[i].created|;
    if k == i + 1 {
      RunKeepsInv(run, steps, i);
      MadeLasts(run[i], steps[i]);
    } else {
      TokenLasts(run, steps, i, k - 1);
      RunKeepsInv(run, steps, k - 1);
      LastingStep(run[k - 1], steps[k - 1], n, Row(n, steps[i].purpose, steps[i].expires, false));
      MarkerIsThere(run[k - 1], steps[k - 1]);
      HistoryGrows(run, steps, k - 1, k);
      var step := steps[k - 1];
      if (step.Mark? || step.MarkUnheard?) && run[k - 1].handlers[step.h].token == t {
        assert run[k].rows[t].used;
      } else if run[k].rows[t].used {
        var m :| i < m < k - 1 && (steps[m].Mark? || steps[m].MarkUnheard?)
                 && steps[m].h in run[m].handlers && run[m].handlers[steps[m].h].token == t;
      }
    }
  }

  lemma MarkerIsThere(s: State, step: Step)
    requires Enabled(s, step)
    ensures step.Mark? || step.MarkUnheard? ==> step.h in s.handlers
  {
  }

  lemma MadeLasts(s: State, step: Step)
    requires Inv(s) && Enabled(s, step) && step.Create?
    ensures var r := Apply(s, step);
            && Lasting(r, |s.created|, Row(|s.created|, step.purpose, step.expires, false))
            && r.created[|s.created|].token == step.token && !r.rows[step.token].used
  {
    hide DT.Apply, DT.Enabled, DT.Inv, PassesOk, HandlersOk;
  }

  /** After a sweep every token that is left has not expired, and none that had not expired is gone. */
  lemma SweepMeans(s: State, t: string)
    requires Inv(s)
    ensures var r := Apply(s, Sweep);
            && (t in r.rows <==> t in s.rows && s.now <= s.rows[t].expires)
            && (t in r.rows ==> r.rows[t] == s.rows[t])
  {
  }

  // ---------------------------------------------------------------------------------------------
  // Single use of a token value, and purposes: the exact conditions on what was created.
  // ---------------------------------------------------------------------------------------------

  ghost predicate Reachable(s: State) {
    exists run: seq<State>, steps: seq<Step> :: IsRun(run, steps) && run[|steps|] == s
  }

  lemma ReachableInv(s: State)
    requires Reachable(s)
    ensures Inv(s)
  {
    var run: seq<State>, steps: seq<Step> :| IsRun(run, steps) && run[|steps|] == s;
    RunKeepsInv(run, steps, |steps|);
  }

  lemma ReachableStart()
    ensures Reachable(Init())
  {
    var none: seq<Step> := [];
    assert IsRun([Init()], none) && [Init()][|none|] == Init();
  }

  lemma ReachableStep(s: State, step: Step)
    requires Reachable(s) && Inv(s) && Enabled(s, step)
    ensures Reachable(Apply(s, step)) && Inv(Apply(s, step))
  {
    hide Inv, Enabled, Apply, Registered;
    RegisteredByInv(s);
    var run: seq<State>, steps: seq<Step> :| IsRun(run, steps) && run[|steps|] == s;
    assert IsRun(run + [Apply(s, step)], steps + [step]);
    assert (run + [Apply(s, step)])[|steps + [step]|] == Apply(s, step);
    StepKeepsInv(s, step);
  }

  lemma RegisteredByInv(s: State)
    requires Inv(s)
    ensures Registered(s)
  {
  }

  // No token value was ever used for two rows.
  predicate Fresh(created: seq<Creation>) {
    forall i, j | 0 <= i < j < |created| :: created[i].token != created[j].token
  }

  // The two kinds of token: one is spent by an upload, the other by a download.
  predicate SameClass(p: Purpose, q: Purpose) {
    (p == Pull) == (q == Pull)
  }

  // A token value was used for rows of both kinds.
  predicate Mixed(created: seq<Creation>) {
    exists i, j :: 0 <= i < j < |created| && created[i].token == created[j].token
                   && !SameClass(created[i].purpose, created[j].purpose)
  }

  // No token value let two handlers through.
  predicate OncePerToken(s: State) {
    forall a, b | 0 <= a < b < |s.passed| ::
      && s.passed[a].handler in s.handlers && s.passed[b].handler in s.handlers
      && s.handlers[s.passed[a].handler].token != s.handlers[s.passed[b].handler].token
  }

  // Some handler marked a row of a purpose it may not spend.
  predicate Crossed(s: State) {
    exists a :: 0 <= a < |s.passed| && Crosses(s, s.passed[a])
  }

  predicate Crosses(s: State, p: Pass) {
    && p.handler in s.handlers && p.row < |s.created|
    && s.created[p.row].purpose !in Wants(s.handlers[p.handler].kind)
  }

  /** Single use of a token value, exactly: every run in which the tokens `created` were made lets each token value
      through at most once if and only if no value was made twice. */
  lemma SingleUseIffFresh(created: seq<Creation>)
    ensures (forall s: State | Reachable(s) && s.created == created :: OncePerToken(s)) <==> Fresh(created)
  {
    hide Reachable, OncePerToken;
    if Fresh(created) {
      forall s: State | Reachable(s) && s.created == created ensures OncePerToken(s) { FreshIsOnce(s); }
    } else {
      var s := AllSpent(created);
      var i, j :| 0 <= i < j < |created| && created[i].token == created[j].token;
      SpentTwice(s, i, j);
    }
  }

  lemma FreshIsOnce(s: State)
    requires Reachable(s) && Fresh(s.created)
    ensures OncePerToken(s)
  {
    ReachableInv(s);
    forall a, b | 0 <= a < b < |s.passed|
      ensures s.passed[a].handler in s.handlers && s.passed[b].handler in s.handlers
      ensures s.handlers[s.passed[a].handler].token != s.handlers[s.passed[b].handler].token
    {
      assert PassOk(s, s.passed[a]) && PassOk(s, s.passed[b]);
    }
  }

  lemma SpentTwice(s: State, i: nat, j: nat)
    requires Inv(s) && i < j < |s.created| == |s.passed| && s.created[i].token == s.created[j].token
    requires s.passed[i].row == i && s.passed[j].row == j
    ensures !OncePerToken(s)
  {
    assert PassOk(s, s.passed[i]) && PassOk(s, s.passed[j]);
  }

  /** Purposes, exactly: some run in which the tokens `created` were made lets a handler mark a row of a purpose it
      may not spend if and only if a token value was made both as an upload or build-image and as a pull token. */
  lemma CrossesIffMixed(created: seq<Creation>)
    ensures (exists s: State :: Reachable(s) && s.created == created && Crossed(s)) <==> Mixed(created)
  {
    hide Reachable, Crossed;
    if Mixed(created) {
      var i, j :| 0 <= i < j < |created| && created[i].token == created[j].token
                  && !SameClass(created[i].purpose, created[j].purpose);
      var s := Crossing(created, i, j);
    }
    forall s: State | Reachable(s) && s.created == created && Crossed(s) ensures Mixed(created) { CrossedIsMixed(s); }
  }

  lemma CrossedIsMixed(s: State)
    requires Reachable(s) && Crossed(s)
    ensures Mixed(s.created)
  {
    hide Reachable, Registered, HandlersOk, RowsOk, DT.Inv, PassOk, Crosses, Mixed;
    ReachableInv(s);
    var a :| 0 <= a < |s.passed| && Crosses(s, s.passed[a]);
    assert PassOk(s, s.passed[a]);
    CrossingPassMixes(s, s.passed[a]);
  }

  lemma CrossingPassMixes(s: State, p: Pass)
    requires PassOk(s, p) && Crosses(s, p)
    ensures Mixed(s.created)
  {
    assert !SameClass(s.created[p.seen].purpose, s.created[p.row].purpose);
    if p.seen < p.row {
      assert s.created[p.seen].token == s.created[p.row].token;
    } else {
      assert p.row < p.seen;
    }
  }

  // ---------------------------------------------------------------------------------------------
  // Runs for any history of creations.
  // ---------------------------------------------------------------------------------------------

  // Between two creations: no row is left, work is accepted, and handler numbers from n on are free.
  ghost predicate Calm(s: State, n: nat) {
    && Reachable(s) && Inv(s) && s.rows == map[]
    && !DT.Refuses(s.work.core)
    && forall h | h in s.handlers :: h < n
  }

  function KindFor(p: Purpose): Kind {
    if p == Pull then PullHandler else UploadHandler
  }

  // The row of a creation made now, which the next tick of the clock lets expire.
  function RowFor(s: State, c: Creation): Row {
    Row(|s.created|, c.purpose, s.now, false)
  }

  // A state right after a creation in a calm state.
  ghost predicate JustMade(s: State, c: Creation, row: Row, n: nat) {
    && Reachable(s) && Inv(s) && s.rows == map[c.token := row]
    && row.purpose == c.purpose && row.expires == s.now
    && !DT.Refuses(s.work.core)
    && forall h | h in s.handlers :: h < n
  }

  lemma Make(s: State, c: Creation, n: nat) returns (t: State)
    requires Calm(s, n)
    ensures t == s.(rows := map[c.token := RowFor(s, c)], created := s.created + [c])
    ensures JustMade(t, c, RowFor(s, c), n)
  {
    hide Inv, Reachable;
    var step := Create(c.token, c.purpose, s.now);
    ReachableStep(s, step);
    RegisteredByInv(s);
    t := Apply(s, step);
    assert s.rows[c.token := RowFor(s, c)] == map[c.token := RowFor(s, c)];
  }

  // The clock moves on and the sweep takes the row.
  lemma Expire(s: State, c: Creation, row: Row, n: nat) returns (t: State)
    requires JustMade(s, c, row, n)
    ensures t == s.(now := s.now + 1, rows := map[]) && Calm(t, n)
  {
    hide Inv, Reachable;
    ReachableStep(s, Tick(s.now + 1));
    RegisteredByInv(s);
    var u := Apply(s, Tick(s.now + 1));
    ReachableStep(u, Sweep);
    RegisteredByInv(u);
    t := Apply(u, Sweep);
    assert DropExpired(u.rows, u.now) == map[];
  }

  // Handler n is called with the token and gets past its checks.
  lemma Arrive(s: State, c: Creation, row: Row, n: nat) returns (t: State)
    requires JustMade(s, c, row, n) && !row.used
    ensures t.created == s.created && t.passed == s.passed && t.now == s.now && t.rows == s.rows
    ensures t.handlers == s.handlers[n := Handler(KindFor(c.purpose), c.token, Checked(row), false, false, false, 0)]
    ensures JustMade(t, c, row, n + 1)
  {
    hide Inv, Reachable;
    var kind := KindFor(c.purpose);
    var t1 := Calls(s, n, kind, c.token);
    var t2 := Begins(t1, n);
    ReachableStep(t2, Look(n));
    RegisteredByInv(t2);
    var t3 := Apply(t2, Look(n));
    ReachableStep(t3, Check(n));
    RegisteredByInv(t3);
    t := Apply(t3, Check(n));
  }

  lemma Calls(s: State, n: nat, kind: Kind, token: string) returns (t: State)
    requires Reachable(s) && Inv(s) && n !in s.handlers
    ensures t == s.(handlers := s.handlers[n := Handler(kind, token, Called, false, false, false, 0)])
    ensures Reachable(t) && Inv(t)
  {
    hide Inv, Reachable;
    ReachableStep(s, Call(n, kind, token));
    RegisteredByInv(s);
    t := Apply(s, Call(n, kind, token));
  }

  // A handler that registers begins; a download has nothing to begin.
  lemma Begins(s: State, n: nat) returns (t: State)
    requires Reachable(s) && Inv(s) && !DT.Refuses(s.work.core)
    requires n in s.handlers && !s.handlers[n].returned && s.handlers[n].pc == Called
    ensures Reachable(t) && Inv(t) && !DT.Refuses(t.work.core)
    ensures t.(work := s.work) ==
            s.(handlers := s.handlers[n := s.handlers[n].(pc := if Tracks(s.handlers[n].kind) then Begun else Called)])
  {
    hide Inv, Reachable;
    if Tracks(s.handlers[n].kind) {
      ReachableStep(s, Begin(n));
      RegisteredByInv(s);
      t := Apply(s, Begin(n));
    } else {
      t := s;
      assert s.handlers[n := s.handlers[n]] == s.handlers;
    }
  }

  // Handler h, past its checks, marks the row that is there now.
  lemma Spend(s: State, c: Creation, row: Row, n: nat, h: nat) returns (t: State)
    requires JustMade(s, c, row, n) && !row.used
    requires h in s.handlers && !s.handlers[h].returned && s.handlers[h].pc.Checked? && s.handlers[h].token == c.token
    ensures t.created == s.created && t.passed == s.passed + [Pass(h, s.handlers[h].pc.row.id, row.id)]
    ensures t.handlers.Keys == s.handlers.Keys && t.handlers[h].kind == s.handlers[h].kind
    ensures JustMade(t, c, row.(used := true), n)
  {
    hide Inv, Reachable;
    ReachableStep(s, Mark(h));
    RegisteredByInv(s);
    t := Apply(s, Mark(h));
    assert t.rows == map[c.token := row.(used := true)];
  }

  // A creation that nobody uses.
  lemma Wasted(s: State, c: Creation, n: nat) returns (t: State)
    requires Calm(s, n)
    ensures Calm(t, n) && t.created == s.created + [c] && t.passed == s.passed && t.handlers == s.handlers
  {
    hide Inv, Reachable;
    var m := Make(s, c, n);
    t := Expire(m, c, RowFor(s, c), n);
  }

  lemma CalmStart()
    ensures Calm(Init(), 0)
  {
    ReachableStart();
    InitInv();
  }

  // A run in which every row that is made is spent once, by a handler of its own kind.
  lemma {:induction false} AllSpent(created: seq<Creation>) returns (s: State)
    ensures Calm(s, |created|) && s.created == created && |s.passed| == |created|
    ensures forall k | 0 <= k < |created| :: s.passed[k].row == k
  {
    hide Calm, JustMade, Inv, Reachable;
    if created == [] {
      CalmStart();
      s := Init();
    } else {
      var n := |created| - 1;
      var c := created[n];
      var before := AllSpent(created[..n]);
      var made := Make(before, c, n);
      var arrived := Arrive(made, c, RowFor(before, c), n);
      var spent := Spend(arrived, c, RowFor(before, c), n + 1, n);
      s := Expire(spent, c, RowFor(before, c).(used := true), n + 1);
      assert created == created[..n] + [c];
    }
  }

  // Creations that nobody uses, one after the other.
  lemma {:induction false} AllWasted(s: State, cs: seq<Creation>, n: nat) returns (t: State)
    requires Calm(s, n)
    ensures Calm(t, n) && t.created == s.created + cs && t.passed == s.passed && t.handlers == s.handlers
    decreases |cs|
  {
    hide Calm, Inv, Reachable;
    if cs == [] {
      t := s;
      assert s.created + cs == s.created;
    } else {
      var u := AllWasted(s, cs[..|cs| - 1], n);
      t := Wasted(u, cs[|cs| - 1], n);
      assert cs == cs[..|cs| - 1] + [cs[|cs| - 1]];
      assert s.created + cs == (s.created + cs[..|cs| - 1]) + [cs[|cs| - 1]];
    }
  }

  /** A handler that looked up and checked row i marks row j instead, when row i was swept and row j was made
      under the same token value in between. */
  lemma Crossing(created: seq<Creation>, i: nat, j: nat) returns (s: State)
    requires i < j < |created| && created[i].token == created[j].token
    requires !SameClass(created[i].purpose, created[j].purpose)
    ensures Reachable(s) && s.created == created && Crossed(s)
  {
    hide Calm, JustMade, Inv, Reachable;
    CalmStart();
    var ci, cj := created[i], created[j];
    var s0 := AllWasted(Init(), created[..i], 0);
    var s1 := Make(s0, ci, 0);
    var s2 := Arrive(s1, ci, RowFor(s0, ci), 0);
    var s3 := Expire(s2, ci, RowFor(s0, ci), 1);
    var s4 := AllWasted(s3, created[i + 1..j], 1);
    var s5 := Make(s4, cj, 1);
    var s6 := Spend(s5, cj, RowFor(s4, cj), 1, 0);
    var s7 := Expire(s6, cj, RowFor(s4, cj).(used := true), 1);
    s := AllWasted(s7, created[j + 1..], 1);
    CalmIsReachable(s, 1);
    CrossingHistory(created, i, j);
    assert s.passed[0] == Pass(0, RowFor(s0, ci).id, RowFor(s4, cj).id);
    assert Crosses(s, s.passed[0]);
  }

  lemma CalmIsReachable(s: State, n: nat)
    requires Calm(s, n)
    ensures Reachable(s)
  {
  }

  lemma CrossingHistory(created: seq<Creation>, i: nat, j: nat)
    requires i < j < |created|
    ensures [] + created[..i] + [created[i]] + created[i + 1..j] + [created[j]] + created[j + 1..] == created
    ensures |[] + created[..i] + [created[i]] + created[i + 1..j]| == j
  {
  }

  /** Every handler that began work calls its end function exactly once, exactly when it is over, whichever
      way it left and whether or not the work was handed on; so the tracker's count is the number of handlers
      that began and are not over. */
  lemma EndExactlyOnce(run: seq<State>, steps: seq<Step>, i: nat)
    requires IsRun(run, steps) && i < |run|
    ensures forall h | h in run[i].handlers && Began(run[i].handlers[h]) ::
              run[i].handlers[h].ends == if Over(run[i].handlers[h]) then 1 else 0
    ensures forall h | h in run[i].handlers && !Began(run[i].handlers[h]) :: run[i].handlers[h].ends == 0
    ensures run[i].work.core.inFlight ==
            |set h | h in run[i].handlers && Began(run[i].handlers[h]) && !Over(run[i].handlers[h])|
  {
    hide DT.Enabled, DT.Apply, Enabled, Apply, RowsOk, PassesOk, Holds;
    RunKeepsInv(run, steps, i);
    var s := run[i];
    assert forall h | h in s.handlers :: Flags(s.handlers[h]);
    assert (set h | h in s.handlers && Began(s.handlers[h]) && !Over(s.handlers[h])) == DT.Running(s.work);
  }

  // The handler a step belongs to.
  function Actor(step: Step): Option<nat> {
    match step
    case Begin(h) => Some(h)
    case Look(h) => Some(h)
    case Check(h) => Some(h)
    case Mark(h) => Some(h)
    case MarkUnheard(h) => Some(h)
    case HandOff(h) => Some(h)
    case Return(h) => Some(h)
    case Finish(h) => Some(h)
    case _ => None
  }

  /** A handler refused by a hold or a drain changes no row, takes no further step, and so spends no token. */
  lemma RefusalSpendsNothing(run: seq<State>, steps: seq<Step>, i: nat, j: nat)
    requires IsRun(run, steps) && i < j < |steps|
    requires steps[i].Begin? && DT.Refuses(run[i].work.core)
    ensures run[i + 1].rows == run[i].rows && run[i + 1].work == run[i].work
    ensures Actor(steps[j]) != Some(steps[i].h)
    ensures forall a | 0 <= a < |run[j].passed| :: run[j].passed[a].handler != steps[i].h
  {
    hide Registered;
    var h := steps[i].h;
    assert run[i + 1] == Apply(run[i], steps[i]);
    RefusedStays(run, steps, h, i + 1, j);
    RunKeepsInv(run, steps, j);
    forall a | 0 <= a < |run[j].passed|
      ensures run[j].passed[a].handler != h
    {
      assert PassOk(run[j], run[j].passed[a]);
    }
    assert Enabled(run[j], steps[j]) && Flags(run[j].handlers[h]);
  }

  predicate Gone(s: State, h: nat) {
    h in s.handlers && s.handlers[h].pc.Refused? && s.handlers[h].returned
  }

  lemma GoneStep(s: State, step: Step, h: nat)
    requires Inv(s) && Enabled(s, step) && Gone(s, h)
    ensures Gone(Apply(s, step), h)
  {
    hide DT.Apply, DT.Inv, Registered, PassesOk, RowsOk, Holds;
    assert Flags(s.handlers[h]);
  }

  lemma {:induction false} RefusedStays(run: seq<State>, steps: seq<Step>, h: nat, i: nat, j: nat)
    requires IsRun(run, steps) && i <= j < |run| && Gone(run[i], h)
    ensures Gone(run[j], h)
    decreases j
  {
    hide Registered, Enabled, Apply, Gone;
    if i < j {
      RefusedStays(run, steps, h, i, j - 1);
      RunKeepsInv(run, steps, j - 1);
      GoneStep(run[j - 1], steps[j - 1], h);
    }
  }

  /** Only a creation, the expiry sweep or a handler past its checks changes a row, and a mark changes
      nothing but the used flag of the handler's own token. */
  lemma WhatChangesRows(s: State, step: Step)
    requires Inv(s) && Enabled(s, step) && Apply(s, step).rows != s.rows
    ensures step.Create? || step.Sweep? || step.Mark? || step.MarkUnheard?
    ensures (step.Mark? || step.MarkUnheard?) ==>
              var x := s.handlers[step.h];
              && x.pc.Checked?
              && (x.kind == UploadHandler ==> Began(x))
              && x.token in s.rows
              && Apply(s, step).rows == s.rows[x.token := s.rows[x.token].(used := true)]
  {
    hide DT.Apply, DT.Inv, Registered, PassesOk, RowsOk, Holds;
  }
}
