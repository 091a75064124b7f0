/**
 Request/response correlation on the control stream.

 A caller draws a fresh tag, stores a one-slot channel under it in a shared map, sends, and waits. Inbound
 messages look their tag up and try to put themselves into the channel. When the stream drops, a cleanup
 ranges over the map and closes and deletes every entry. The three run concurrently and take their steps in
 any order; every look-up, store, delete, send, receive and close is one step.

 A call owns exactly one channel, so channels are named by their call. Tags are parsed UUIDs.
 */
module Correlation {
  import opened Options

  type Uuid = nat

  datatype Reply = Reply(tag: Uuid, payload: string)

  datatype Outcome = GotReply(reply: Reply) | ChannelClosed | ContextDone | SendFailed

  // sendAndWait: stored, then sent and selecting, then returning with its deferred delete to come, then gone.
  datatype CallStage = Stored | Selecting | Returning(outcome: Outcome) | Gone(outcome: Outcome)

  datatype Call = Call(tag: Uuid, buffer: Option<Reply>, closes: nat, stage: CallStage)

  // handleInstruction: before the look-up; channel in hand; buffer seen full and delete to come; done.
  datatype DeliveryStage = Arrived | Loaded(call: nat) | Full | Over

  datatype Delivery = Delivery(reply: Reply, stage: DeliveryStage)

  // The range of the cleanup. `must` were in the map when it began, `may` at any time since, `seen` were
  // visited. `closing` is the visited entry that is closed and not deleted yet.
  datatype Cleanup = NoCleanup | Ranging(must: set<Uuid>, may: set<Uuid>, seen: set<Uuid>, closing: Option<Uuid>)

  datatype State = State(
    pending: map<Uuid, nat>,
    owner: map<Uuid, nat>,        // every tag drawn so far and the call that drew it
    calls: map<nat, Call>,
    deliveries: map<nat, Delivery>,
    cleanup: Cleanup
  )

  datatype Step =
    | Store(call: nat, tag: Uuid)
    | SendOk(call: nat)
    | SendFails(call: nat)
    | Receive(call: nat)
    | CancelCall(call: nat)
    | Leave(call: nat)
    | Arrive(delivery: nat, reply: Reply)
    | Load(delivery: nat)
    | TrySend(delivery: nat)
    | DropEntry(delivery: nat)
    | StartCleanup
    | CloseEntry(tag: Uuid)
    | DeleteEntry
    | EndCleanup

  function Init(): State {
    State(map[], map[], map[], map[], NoCleanup)
  }

  predicate CanReceive(c: Call) {
    c.buffer.Some? || c.closes > 0
  }

  predicate InCall(s: State, c: nat, stage: CallStage) {
    c in s.calls && s.calls[c].stage == stage
  }

  predicate Enabled(s: State, step: Step) {
    match step
    case Store(c, t) => c !in s.calls && t !in s.owner
    case SendOk(c) => InCall(s, c, Stored)
    case SendFails(c) => InCall(s, c, Stored)
    case Receive(c) => InCall(s, c, Selecting) && CanReceive(s.calls[c])
    case CancelCall(c) => InCall(s, c, Selecting)
    case Leave(c) => c in s.calls && s.calls[c].stage.Returning?
    case Arrive(d, r) => d !in s.deliveries
    case Load(d) => d in s.deliveries && s.deliveries[d].stage == Arrived
    case TrySend(d) =>
      d in s.deliveries && s.deliveries[d].stage.Loaded? && s.deliveries[d].stage.call in s.calls
    case DropEntry(d) => d in s.deliveries && s.deliveries[d].stage == Full
    case StartCleanup => s.cleanup == NoCleanup
    // A range shows each key at most once, with a value it had at some time during the range.
    case CloseEntry(t) =>
      s.cleanup.Ranging? && s.cleanup.closing.None? && t in s.cleanup.may && t !in s.cleanup.seen
      && t in s.owner && s.owner[t] in s.calls
    case DeleteEntry => s.cleanup.Ranging? && s.cleanup.closing.Some?
    // A range ends only after showing every key that stayed in the map.
    case EndCleanup =>
      s.cleanup.Ranging? && s.cleanup.closing.None?
      && forall t | t in s.cleanup.must :: t in s.cleanup.seen || t !in s.pending
  }

  function SetStage(s: State, c: nat, stage: CallStage): State
    requires c in s.calls
  {
    s.(calls := s.calls[c := s.calls[c].(stage := stage)])
  }

  function SetDelivery(s: State, d: nat, stage: DeliveryStage): State
    requires d in s.deliveries
  {
    s.(deliveries := s.deliveries[d := s.deliveries[d].(stage := stage)])
  }

  function ApplyCall(s: State, step: Step): State
    requires Enabled(s, step)
    requires step.Store? || step.SendOk? || step.SendFails? || step.Receive? || step.CancelCall? || step.Leave?
  {
    match step
    case Store(c, t) =>
      s.(pending := s.pending[t := c], owner := s.owner[t := c], calls := s.calls[c := Call(t, None, 0, Stored)],
         cleanup := if s.cleanup.Ranging? then s.cleanup.(may := s.cleanup.may + {t}) else s.cleanup)
    case SendOk(c) => SetStage(s, c, Selecting)
    case SendFails(c) => SetStage(s, c, Returning(SendFailed))
    case Receive(c) =>
      // a buffered value comes out before the close shows
      var call := s.calls[c];
      if call.buffer.Some? then
        s.(calls := s.calls[c := call.(buffer := None, stage := Returning(GotReply(call.buffer.value)))])
      else SetStage(s, c, Returning(ChannelClosed))
    case CancelCall(c) => SetStage(s, c, Returning(ContextDone))
    case Leave(c) =>
      SetStage(s, c, Gone(s.calls[c].stage.outcome)).(pending := s.pending - {s.calls[c].tag})
  }

  function Fill(s: State, c: nat, r: Reply): State
    requires c in s.calls
  {
    s.(calls := s.calls[c := s.calls[c].(buffer := Some(r))])
  }

  function ApplyDelivery(s: State, step: Step): State
    requires Enabled(s, step)
    requires step.Arrive? || step.Load? || step.TrySend? || step.DropEntry?
  {
    match step
    case Arrive(d, r) => s.(deliveries := s.deliveries[d := Delivery(r, Arrived)])
    case Load(d) =>
      var t := s.deliveries[d].reply.tag;
      SetDelivery(s, d, if t in s.pending then Loaded(s.pending[t]) else Over)
    case TrySend(d) =>
      var c := s.deliveries[d].stage.call;
      if s.calls[c].closes > 0 then SetDelivery(s, d, Over) // send on a closed channel: the panic is recovered
      else if s.calls[c].buffer.None? then
        SetDelivery(Fill(s, c, s.deliveries[d].reply), d, Over)
      else SetDelivery(s, d, Full)
    case DropEntry(d) =>
      SetDelivery(s, d, Over).(pending := s.pending - {s.deliveries[d].reply.tag})
  }

  function ApplyCleanup(s: State, step: Step): State
    requires Enabled(s, step)
    requires step.StartCleanup? || step.CloseEntry? || step.DeleteEntry? || step.EndCleanup?
  {
    match step
    case StartCleanup => s.(cleanup := Ranging(s.pending.Keys, s.pending.Keys, {}, None))
    case CloseEntry(t) =>
      var c := s.owner[t];
      s.(calls := s.calls[c := s.calls[c].(closes := s.calls[c].closes + 1)],
         cleanup := s.cleanup.(seen := s.cleanup.seen + {t}, closing := Some(t)))
    case DeleteEntry =>
      s.(pending := s.pending - {s.cleanup.closing.value}, cleanup := s.cleanup.(closing := None))
    case EndCleanup => s.(cleanup := NoCleanup)
  }

  predicate IsCallStep(step: Step) {
    step.Store? || step.SendOk? || step.SendFails? || step.Receive? || step.CancelCall? || step.Leave?
  }

  predicate IsDeliveryStep(step: Step) {
    step.Arrive? || step.Load? || step.TrySend? || step.DropEntry?
  }

  function Apply(s: State, step: Step): State
    requires Enabled(s, step)
  {
    if IsCallStep(step) then ApplyCall(s, step)
    else if IsDeliveryStep(step) then ApplyDelivery(s, step)
    else ApplyCleanup(s, step)
  }

  ghost predicate IsRun(run: seq<State>, steps: seq<Step>) {
    && |run| == |steps| + 1
    && run[0] == Init()
    && forall i | 0 <= i < |steps| :: Enabled(run[i], steps[i]) && run[i + 1] == Apply(run[i], steps[i])
  }

  // ---------------------------------------------------------------------------------------------
  // The invariant.
  // ---------------------------------------------------------------------------------------------

  // The call still waits, or is about to.
  predicate Open(c: Call) {
    c.stage == Stored || c.stage == Selecting
  }

  ghost predicate Registry(s: State) {
    && (forall t | t in s.owner :: s.owner[t] in s.calls && s.calls[s.owner[t]].tag == t)
    && (forall c | c in s.calls :: s.calls[c].tag in s.owner && s.owner[s.calls[c].tag] == c)
    && (forall t | t in s.pending :: t in s.owner && s.pending[t] == s.owner[t])
  }

  ghost predicate CallOk(s: State, c: nat)
    requires c in s.calls
  {
    var call := s.calls[c];
    && call.closes <= 1
    && (call.buffer.Some? ==> call.buffer.value.tag == call.tag)
    && (call.stage.Returning? && call.stage.outcome.GotReply? ==> call.stage.outcome.reply.tag == call.tag)
    && (call.stage.Gone? && call.stage.outcome.GotReply? ==> call.stage.outcome.reply.tag == call.tag)
    // no lost waiter
    && (Open(call) && call.tag !in s.pending ==> CanReceive(call))
    // a closed channel is out of reach of this range and, once the entry is deleted, of the map
    && (call.closes > 0 ==>
          && (s.cleanup.Ranging? && call.tag in s.cleanup.may ==> call.tag in s.cleanup.seen)
          && (call.tag in s.pending ==> s.cleanup.Ranging? && s.cleanup.closing == Some(call.tag)))
  }

  ghost predicate DeliveryOk(s: State, d: Delivery) {
    && (d.stage.Loaded? ==> d.reply.tag in s.owner && d.stage.call == s.owner[d.reply.tag])
    && (d.stage.Full? ==>
          d.reply.tag in s.owner && s.owner[d.reply.tag] in s.calls
          && (Open(s.calls[s.owner[d.reply.tag]]) ==> s.calls[s.owner[d.reply.tag]].buffer.Some?))
  }

  ghost predicate CleanupOk(s: State) {
    s.cleanup.Ranging? ==>
      && s.cleanup.must <= s.cleanup.may <= s.owner.Keys
      && s.cleanup.seen <= s.cleanup.may
      && s.pending.Keys <= s.cleanup.may
      && (forall t | t in s.cleanup.seen :: s.owner[t] in s.calls && s.calls[s.owner[t]].closes > 0)
      && (s.cleanup.closing.Some? ==> s.cleanup.closing.value in s.cleanup.seen)
  }

  ghost predicate Inv(s: State) {
    && Registry(s)
    && CleanupOk(s)
    && (forall c | c in s.calls :: CallOk(s, c))
    && (forall d | d in s.deliveries :: DeliveryOk(s, s.deliveries[d]))
  }

  lemma StoreKeepsInv(s: State, c: nat, t: Uuid)
    requires Inv(s) && Enabled(s, Store(c, t))
    ensures Inv(ApplyCall(s, Store(c, t)))
  {
    hide CallOk, CleanupOk;
    var s' := ApplyCall(s, Store(c, t));
    forall x | x in s'.calls ensures CallOk(s', x) {
      StoreKeepsCall(s, c, t, x);
    }
    StoreKeepsCleanup(s, c, t);
  }

  lemma StoreKeepsCleanup(s: State, c: nat, t: Uuid)
    requires Inv(s) && Enabled(s, Store(c, t))
    ensures CleanupOk(ApplyCall(s, Store(c, t)))
  {
    hide CallOk, DeliveryOk;
  }

  lemma StoreKeepsCall(s: State, c: nat, t: Uuid, x: nat)
    requires Inv(s) && Enabled(s, Store(c, t)) && x in ApplyCall(s, Store(c, t)).calls
    ensures CallOk(ApplyCall(s, Store(c, t)), x)
  {
    hide DeliveryOk;
    if x != c { assert CallOk(s, x); }
  }

  // Moving a call on without touching its channel or the map.
  lemma StageKeepsInv(s: State, c: nat, stage: CallStage)
    requires Inv(s) && c in s.calls && Open(s.calls[c])
    requires stage == Selecting || (stage.Returning? && !stage.outcome.GotReply?)
    ensures Inv(SetStage(s, c, stage))
  {
    var s' := SetStage(s, c, stage);
    forall x | x in s'.calls ensures CallOk(s', x) {
      assert CallOk(s, x);
    }
  }

  lemma ReceiveKeepsInv(s: State, c: nat)
    requires Inv(s) && Enabled(s, Receive(c))
    ensures Inv(ApplyCall(s, Receive(c)))
  {
    var s' := ApplyCall(s, Receive(c));
    if s.calls[c].buffer.None? {
      StageKeepsInv(s, c, Returning(ChannelClosed));
    } else {
      forall x | x in s'.calls ensures CallOk(s', x) {
        assert CallOk(s, x);
      }
    }
  }

  lemma LeaveKeepsInv(s: State, c: nat)
    requires Inv(s) && Enabled(s, Leave(c))
    ensures Inv(ApplyCall(s, Leave(c)))
  {
    var s' := ApplyCall(s, Leave(c));
    forall x | x in s'.calls ensures CallOk(s', x) {
      assert CallOk(s, x);
    }
  }

  lemma CallStepKeepsInv(s: State, step: Step)
    requires Inv(s) && Enabled(s, step) && IsCallStep(step)
    ensures Inv(ApplyCall(s, step))
  {
    match step
    case Store(c, t) => StoreKeepsInv(s, c, t);
    case SendOk(c) => StageKeepsInv(s, c, Selecting);
    case SendFails(c) => StageKeepsInv(s, c, Returning(SendFailed));
    case Receive(c) => ReceiveKeepsInv(s, c);
    case CancelCall(c) => StageKeepsInv(s, c, Returning(ContextDone));
    case Leave(c) => LeaveKeepsInv(s, c);
  }

  lemma FillKeepsInv(s: State, c: nat, r: Reply)
    requires Inv(s) && c in s.calls && r.tag == s.calls[c].tag
    ensures Inv(Fill(s, c, r))
  {
    var s' := Fill(s, c, r);
    forall x | x in s'.calls ensures CallOk(s', x) {
      assert CallOk(s, x);
    }
  }

  // Moving a delivery on without touching channels or the map.
  lemma SetDeliveryKeepsInv(s: State, d: nat, stage: DeliveryStage)
    requires Inv(s) && d in s.deliveries && DeliveryOk(s, Delivery(s.deliveries[d].reply, stage))
    ensures Inv(SetDelivery(s, d, stage))
  {
    var s' := SetDelivery(s, d, stage);
    forall x | x in s'.calls ensures CallOk(s', x) {
      assert CallOk(s, x);
    }
  }

  lemma TrySendKeepsInv(s: State, d: nat)
    requires Inv(s) && Enabled(s, TrySend(d))
    ensures Inv(ApplyDelivery(s, TrySend(d)))
  {
    var c, r := s.deliveries[d].stage.call, s.deliveries[d].reply;
    assert DeliveryOk(s, s.deliveries[d]);
    if s.calls[c].closes > 0 {
      SetDeliveryKeepsInv(s, d, Over);
    } else if s.calls[c].buffer.None? {
      FillKeepsInv(s, c, r);
      SetDeliveryKeepsInv(Fill(s, c, r), d, Over);
    } else {
      SetDeliveryKeepsInv(s, d, Full);
    }
  }

  lemma DropKeepsInv(s: State, d: nat)
    requires Inv(s) && Enabled(s, DropEntry(d))
    ensures Inv(ApplyDelivery(s, DropEntry(d)))
  {
    var s' := ApplyDelivery(s, DropEntry(d));
    assert DeliveryOk(s, s.deliveries[d]);
    forall x | x in s'.calls ensures CallOk(s', x) {
      assert CallOk(s, x);
    }
  }

  lemma DeliveryStepKeepsInv(s: State, step: Step)
    requires Inv(s) && Enabled(s, step) && IsDeliveryStep(step)
    ensures Inv(ApplyDelivery(s, step))
  {
    if step.TrySend? {
      TrySendKeepsInv(s, step.delivery);
    } else if step.DropEntry? {
      DropKeepsInv(s, step.delivery);
    } else {
      var s' := ApplyDelivery(s, step);
      forall x | x in s'.calls ensures CallOk(s', x) {
        assert CallOk(s, x);
      }
    }
  }

  lemma CloseKeepsInv(s: State, t: Uuid)
    requires Inv(s) && Enabled(s, CloseEntry(t))
    ensures Inv(ApplyCleanup(s, CloseEntry(t)))
  {
    var s' := ApplyCleanup(s, CloseEntry(t));
    forall x | x in s'.calls ensures CallOk(s', x) {
      assert CallOk(s, x);
    }
  }

  lemma CleanupStepKeepsInv(s: State, step: Step)
    requires Inv(s) && Enabled(s, step) && !IsCallStep(step) && !IsDeliveryStep(step)
    ensures Inv(ApplyCleanup(s, step))
  {
    if step.CloseEntry? {
      CloseKeepsInv(s, step.tag);
    } else {
      var s' := ApplyCleanup(s, step);
      forall x | x in s'.calls ensures CallOk(s', x) {
        assert CallOk(s, x);
      }
    }
  }

  lemma StepKeepsInv(s: State, step: Step)
    requires Inv(s) && Enabled(s, step)
    ensures Inv(Apply(s, step))
  {
    if IsCallStep(step) { CallStepKeepsInv(s, step); }
    else if IsDeliveryStep(step) { DeliveryStepKeepsInv(s, step); }
    else { CleanupStepKeepsInv(s, step); }
  }

  /** Every reachable state: no channel is closed twice, a buffered or returned reply carries the tag of its
      call, and a call whose tag has left the map can receive. */
  lemma {:induction false} RunKeepsInv(run: seq<State>, steps: seq<Step>, i: nat)
    requires IsRun(run, steps) && i < |run|
    ensures Inv(run[i])
  {
    if i > 0 {
      RunKeepsInv(run, steps, i - 1);
      StepKeepsInv(run[i - 1], steps[i - 1]);
    }
  }

  /** No lost waiter, at every moment of every run: a call that still waits and whose tag is missing from the
      map can receive now. */
  lemma NoLostWaiter(run: seq<State>, steps: seq<Step>, i: nat, c: nat)
    requires IsRun(run, steps) && i < |run|
    requires InCall(run[i], c, Selecting) && run[i].calls[c].tag !in run[i].pending
    ensures Enabled(run[i], Receive(c))
  {
    RunKeepsInv(run, steps, i);
    assert CallOk(run[i], c);
  }

  ghost predicate Released(s: State, c: nat) {
    c in s.calls && (Open(s.calls[c]) ==> CanReceive(s.calls[c]))
  }

  lemma ReleasedStep(s: State, step: Step, c: nat)
    requires Inv(s) && Enabled(s, step) && Released(s, c)
    ensures Released(Apply(s, step), c)
  {
  }

  // While the range runs, a call from before it is in `must` or has already been released.
  ghost predicate Covered(s: State, c: nat) {
    c in s.calls && s.cleanup.Ranging? && (s.calls[c].tag in s.cleanup.must || Released(s, c))
  }

  lemma CoveredStep(s: State, step: Step, c: nat)
    requires Inv(s) && Enabled(s, step) && step != EndCleanup && Covered(s, c)
    ensures Covered(Apply(s, step), c)
  {
    if Released(s, c) { ReleasedStep(s, step, c); }
  }

  lemma {:induction false} MustIsKept(run: seq<State>, steps: seq<Step>, b: nat, k: nat, c: nat)
    requires IsRun(run, steps) && b < k < |run|
    requires steps[b] == StartCleanup && forall m | b < m < k :: steps[m] != EndCleanup
    requires c in run[b].calls
    ensures Covered(run[k], c)
    decreases k
  {
    RunKeepsInv(run, steps, k - 1);
    if k == b + 1 {
      assert CallOk(run[b], c);
      assert run[k] == Apply(run[b], steps[b]);
    } else {
      MustIsKept(run, steps, b, k - 1, c);
      CoveredStep(run[k - 1], steps[k - 1], c);
    }
  }

  lemma EndReleases(s: State, c: nat)
    requires Inv(s) && Enabled(s, EndCleanup) && Covered(s, c)
    ensures Released(Apply(s, EndCleanup), c)
  {
    assert CallOk(s, c);
  }

  lemma {:induction false} ReleasedForEver(run: seq<State>, steps: seq<Step>, i: nat, j: nat, c: nat)
    requires IsRun(run, steps) && i <= j < |run| && Released(run[i], c)
    ensures Released(run[j], c)
    decreases j
  {
    if i < j {
      ReleasedForEver(run, steps, i, j - 1, c);
      RunKeepsInv(run, steps, j - 1);
      ReleasedStep(run[j - 1], steps[j - 1], c);
    }
  }

  /** A disconnect leaves nobody behind: every call stored before a cleanup began has, once that cleanup is
      over, returned or something to receive, and that stays so. */
  lemma CleanupReleasesEveryCall(run: seq<State>, steps: seq<Step>, b: nat, e: nat, j: nat, c: nat)
    requires IsRun(run, steps) && b < e < j < |run|
    requires steps[b] == StartCleanup && steps[e] == EndCleanup
    requires forall k | b < k < e :: steps[k] != EndCleanup
    requires c in run[b].calls
    ensures Released(run[j], c)
  {
    MustIsKept(run, steps, b, e, c);
    RunKeepsInv(run, steps, e);
    EndReleases(run[e], c);
    ReleasedForEver(run, steps, e + 1, j, c);
  }

  /** A call returns at most once: its outcome, once there, never changes, and a reply among the outcomes
      carries the call's own tag. */
  lemma {:induction false} OutcomeIsFinal(run: seq<State>, steps: seq<Step>, i: nat, j: nat, c: nat)
    requires IsRun(run, steps) && i <= j < |run|
    requires c in run[i].calls && !Open(run[i].calls[c])
    ensures c in run[j].calls && !Open(run[j].calls[c])
    ensures run[j].calls[c].stage.outcome == run[i].calls[c].stage.outcome
    ensures run[j].calls[c].stage.outcome.GotReply? ==>
              run[j].calls[c].stage.outcome.reply.tag == run[j].calls[c].tag
    decreases j
  {
    hide Inv, Enabled, Apply;
    if i < j {
      OutcomeIsFinal(run, steps, i, j - 1, c);
      RunKeepsInv(run, steps, j - 1);
      OutcomeStep(run[j - 1], steps[j - 1], c);
    }
    RunKeepsInv(run, steps, j);
    if run[j].calls[c].stage.outcome.GotReply? { OwnReply(run[j], c); }
  }

  lemma OwnReply(s: State, c: nat)
    requires Inv(s) && c in s.calls && !Open(s.calls[c]) && s.calls[c].stage.outcome.GotReply?
    ensures s.calls[c].stage.outcome.reply.tag == s.calls[c].tag
  {
    assert CallOk(s, c);
  }

  lemma OutcomeStep(s: State, step: Step, c: nat)
    requires Inv(s) && Enabled(s, step) && c in s.calls && !Open(s.calls[c])
    ensures c in Apply(s, step).calls && !Open(Apply(s, step).calls[c])
    ensures Apply(s, step).calls[c].stage.outcome == s.calls[c].stage.outcome
  {
    hide CleanupOk, DeliveryOk, CallOk, Registry;
  }

  // ---------------------------------------------------------------------------------------------
  // Replies reach their callers, and every outcome has its cause.
  // ---------------------------------------------------------------------------------------------

  // A call that waits with an open, empty channel.
  predicate Waiting(s: State, c: nat) {
    c in s.calls && Open(s.calls[c]) && s.calls[c].closes == 0 && s.calls[c].buffer == None
  }

  lemma ArriveAndLoad(s: State, c: nat, d: nat, r: Reply)
    requires Inv(s) && Waiting(s, c) && d !in s.deliveries && r.tag == s.calls[c].tag
    ensures var s1 := ApplyDelivery(s, Arrive(d, r));
            && Enabled(s1, Load(d))
            && var s2 := ApplyDelivery(s1, Load(d));
               && Enabled(s2, TrySend(d)) && s2.deliveries[d] == Delivery(r, Loaded(c)) && s2.calls == s.calls
  {
    assert CallOk(s, c);
  }

  lemma SendAndReceive(s: State, c: nat, d: nat, r: Reply)
    requires Waiting(s, c) && d in s.deliveries && s.deliveries[d] == Delivery(r, Loaded(c))
    ensures var s1 := ApplyDelivery(s, TrySend(d));
            && s1.calls[c] == s.calls[c].(buffer := Some(r))
            && var s2 := if s1.calls[c].stage == Stored then ApplyCall(s1, SendOk(c)) else s1;
               && Enabled(s2, Receive(c))
               && ApplyCall(s2, Receive(c)).calls[c].stage == Returning(GotReply(r))
  {
  }

  /** From every reachable state in which a call waits unanswered, a reply with its tag that arrives, finds the call
      and is put into its channel is what the call returns, payload included. */
  lemma ReplyRoundTrip(s: State, c: nat, d: nat, payload: string)
    requires Inv(s) && Waiting(s, c) && d !in s.deliveries
    ensures var r := Reply(s.calls[c].tag, payload);
            && Enabled(s, Arrive(d, r))
            && var s1 := Apply(s, Arrive(d, r));
            && Enabled(s1, Load(d))
            && var s2 := Apply(s1, Load(d));
            && Enabled(s2, TrySend(d))
            && var s3 := Apply(s2, TrySend(d));
            && c in s3.calls
            && (s3.calls[c].stage == Stored ==> Enabled(s3, SendOk(c)))
            && var s4 := if s3.calls[c].stage == Stored then Apply(s3, SendOk(c)) else s3;
            && Enabled(s4, Receive(c))
            && Apply(s4, Receive(c)).calls[c].stage == Returning(GotReply(r))
  {
    hide Inv;
    var r := Reply(s.calls[c].tag, payload);
    ArriveAndLoad(s, c, d, r);
    var s2 := Apply(Apply(s, Arrive(d, r)), Load(d));
    SendAndReceive(s2, c, d, r);
  }

  lemma ReplyKeptStep(s: State, step: Step, d: nat)
    requires Enabled(s, step) && d in s.deliveries
    ensures d in Apply(s, step).deliveries && Apply(s, step).deliveries[d].reply == s.deliveries[d].reply
  {
  }

  lemma {:induction false} ReplyKept(run: seq<State>, steps: seq<Step>, a: nat, k: nat, d: nat, r: Reply)
    requires IsRun(run, steps) && a < k < |run| && steps[a] == Arrive(d, r)
    ensures d in run[k].deliveries && run[k].deliveries[d].reply == r
    decreases k
  {
    if k > a + 1 {
      hide Enabled, Apply;
      ReplyKept(run, steps, a, k - 1, d, r);
      ReplyKeptStep(run[k - 1], steps[k - 1], d);
    } else {
      assert run[k] == Apply(run[a], steps[a]);
    }
  }

  // The reply in the channel of a call that has not received yet.
  ghost predicate Holds(s: State, c: nat, r: Reply) {
    c in s.calls && (Open(s.calls[c]) ==> s.calls[c].buffer == Some(r))
  }

  lemma HoldsStep(s: State, step: Step, c: nat, r: Reply)
    requires Inv(s) && Enabled(s, step) && Holds(s, c, r)
    ensures Holds(Apply(s, step), c, r)
  {
    hide Registry, CleanupOk, DeliveryOk, CallOk;
    if step.Receive? && step.call != c { assert Apply(s, step).calls[c] == s.calls[c]; }
  }

  lemma {:induction false} HoldsUntilReceived(run: seq<State>, steps: seq<Step>, i: nat, j: nat, c: nat, r: Reply)
    requires IsRun(run, steps) && i <= j < |run| && Holds(run[i], c, r)
    ensures Holds(run[j], c, r)
    decreases j
  {
    hide Inv, Enabled, Apply, Holds;
    if i < j {
      HoldsUntilReceived(run, steps, i, j - 1, c, r);
      RunKeepsInv(run, steps, j - 1);
      HoldsStep(run[j - 1], steps[j - 1], c, r);
    }
  }

  lemma SendFills(s: State, d: nat)
    requires Inv(s) && Enabled(s, TrySend(d))
    requires s.deliveries[d].reply.tag in s.owner && Waiting(s, s.owner[s.deliveries[d].reply.tag])
    ensures var c := s.owner[s.deliveries[d].reply.tag];
            Holds(Apply(s, TrySend(d)), c, s.deliveries[d].reply)
  {
    assert DeliveryOk(s, s.deliveries[d]);
  }

  /** Over any run, with anything in between: once a reply that arrived has been put into the open, empty channel of
      the call that waits for its tag, that call can receive, and the next receive of that call returns exactly
      that reply. */
  lemma ReplyReachesCaller(run: seq<State>, steps: seq<Step>, a: nat, t: nat, j: nat, d: nat, r: Reply, c: nat)
    requires IsRun(run, steps) && a < t < j < |steps|
    requires steps[a] == Arrive(d, r) && steps[t] == TrySend(d) && steps[j] == Receive(c)
    requires r.tag in run[t].owner && run[t].owner[r.tag] == c && Waiting(run[t], c)
    ensures c in run[t + 1].calls && CanReceive(run[t + 1].calls[c])
    ensures run[j + 1].calls[c].stage == Returning(GotReply(r))
  {
    hide Inv;
    ReplyKept(run, steps, a, t, d, r);
    RunKeepsInv(run, steps, t);
    assert Enabled(run[t], steps[t]) && run[t + 1] == Apply(run[t], steps[t]);
    SendFills(run[t], d);
    assert Open(run[t + 1].calls[c]);
    HoldsUntilReceived(run, steps, t + 1, j, c, r);
    assert Enabled(run[j], steps[j]) && run[j + 1] == Apply(run[j], steps[j]);
  }

  // The replies that arrived in the first k steps.
  function Arrivals(steps: seq<Step>, k: nat): set<Reply>
    requires k <= |steps|
  {
    if k == 0 then {} else Arrivals(steps, k - 1) + if steps[k - 1].Arrive? then {steps[k - 1].reply} else {}
  }

  lemma {:induction false} ArrivalsMean(steps: seq<Step>, k: nat, r: Reply)
    requires k <= |steps|
    ensures r in Arrivals(steps, k) <==> exists m :: 0 <= m < k && steps[m].Arrive? && steps[m].reply == r
  {
    if k > 0 { ArrivalsMean(steps, k - 1, r); }
  }

  predicate FromArrivals(s: State, replies: set<Reply>) {
    && (forall d | d in s.deliveries :: s.deliveries[d].reply in replies)
    && (forall c | c in s.calls && s.calls[c].buffer.Some? :: s.calls[c].buffer.value in replies)
  }

  lemma FromArrivalsStep(s: State, step: Step, replies: set<Reply>)
    requires Enabled(s, step) && FromArrivals(s, replies)
    ensures FromArrivals(Apply(s, step), replies + if step.Arrive? then {step.reply} else {})
  {
  }

  lemma {:induction false} RepliesArrived(run: seq<State>, steps: seq<Step>, k: nat)
    requires IsRun(run, steps) && k < |run|
    ensures FromArrivals(run[k], Arrivals(steps, k))
  {
    hide Enabled, Apply, FromArrivals;
    if k == 0 {
      NothingArrived();
    } else {
      RepliesArrived(run, steps, k - 1);
      FromArrivalsStep(run[k - 1], steps[k - 1], Arrivals(steps, k - 1));
    }
  }

  lemma NothingArrived()
    ensures FromArrivals(Init(), {})
  {
  }

  // The channel of call c is closed only by the cleanup's visit to its tag.
  lemma ClosesStep(s: State, step: Step, c: nat)
    requires Inv(s) && Enabled(s, step) && c in s.calls
    ensures c in Apply(s, step).calls && Apply(s, step).calls[c].tag == s.calls[c].tag
    ensures Apply(s, step).calls[c].closes == s.calls[c].closes + if step == CloseEntry(s.calls[c].tag) then 1 else 0
  {
    hide CleanupOk, DeliveryOk, CallOk;
  }

  ghost predicate ClosedEarlier(steps: seq<Step>, k: nat, tag: Uuid) {
    exists m :: 0 <= m < k <= |steps| && steps[m] == CloseEntry(tag)
  }

  lemma NewCallIsOpen(s: State, step: Step, c: nat)
    requires Enabled(s, step) && c !in s.calls && c in Apply(s, step).calls
    ensures Apply(s, step).calls[c].closes == 0 && Open(Apply(s, step).calls[c])
  {
  }

  lemma {:induction false} ClosedByCleanup(run: seq<State>, steps: seq<Step>, k: nat, c: nat)
    requires IsRun(run, steps) && k < |run| && c in run[k].calls && run[k].calls[c].closes > 0
    ensures ClosedEarlier(steps, k, run[k].calls[c].tag)
  {
    hide Enabled, Apply, Inv;
    if k > 0 {
      RunKeepsInv(run, steps, k - 1);
      if c in run[k - 1].calls {
        ClosesStep(run[k - 1], steps[k - 1], c);
        if run[k - 1].calls[c].closes > 0 {
          ClosedByCleanup(run, steps, k - 1, c);
          var m :| 0 <= m < k - 1 && steps[m] == CloseEntry(run[k].calls[c].tag);
        } else {
          assert steps[k - 1] == CloseEntry(run[k].calls[c].tag);
        }
      } else {
        NewCallIsOpen(run[k - 1], steps[k - 1], c);
      }
    }
  }

  // The step and the past that explain an outcome of call c at step m.
  ghost predicate Explains(steps: seq<Step>, m: nat, c: nat, tag: Uuid, o: Outcome)
    requires m < |steps|
  {
    match o
    case GotReply(r) => steps[m] == Receive(c) && r.tag == tag && r in Arrivals(steps, m)
    case ChannelClosed => steps[m] == Receive(c) && ClosedEarlier(steps, m, tag)
    case ContextDone => steps[m] == CancelCall(c)
    case SendFailed => steps[m] == SendFails(c)
  }

  lemma ReturningStep(s: State, step: Step, c: nat)
    requires Inv(s) && Enabled(s, step) && c in s.calls && Open(s.calls[c]) && !Open(Apply(s, step).calls[c])
    ensures var call, o := s.calls[c], Apply(s, step).calls[c].stage.outcome;
            match o
            case GotReply(r) => step == Receive(c) && call.buffer == Some(r) && r.tag == call.tag
            case ChannelClosed => step == Receive(c) && call.closes > 0
            case ContextDone => step == CancelCall(c)
            case SendFailed => step == SendFails(c)
  {
    hide Registry, CleanupOk, DeliveryOk;
    assert CallOk(s, c);
  }

  /** Every outcome has its cause in the run: a reply was received after it arrived, a closed channel was seen after
      the cleanup had visited the tag, a context or send failure was that call's own. */
  lemma {:induction false} OutcomeHasCause(run: seq<State>, steps: seq<Step>, k: nat, c: nat)
    requires IsRun(run, steps) && k < |run| && c in run[k].calls && !Open(run[k].calls[c])
    ensures exists m :: 0 <= m < k && Explains(steps, m, c, run[k].calls[c].tag, run[k].calls[c].stage.outcome)
  {
    hide Enabled, Apply, Inv;
    if k > 0 {
      RunKeepsInv(run, steps, k - 1);
      if c !in run[k - 1].calls {
        NewCallIsOpen(run[k - 1], steps[k - 1], c);
      } else {
        ClosesStep(run[k - 1], steps[k - 1], c);
        var call := run[k - 1].calls[c];
        if Open(call) {
          ReturningStep(run[k - 1], steps[k - 1], c);
          RepliesArrived(run, steps, k - 1);
          if call.closes > 0 { ClosedByCleanup(run, steps, k - 1, c); }
          assert Explains(steps, k - 1, c, call.tag, run[k].calls[c].stage.outcome);
        } else {
          OutcomeStep(run[k - 1], steps[k - 1], c);
          OutcomeHasCause(run, steps, k - 1, c);
          var m :| 0 <= m < k - 1 && Explains(steps, m, c, call.tag, call.stage.outcome);
          assert Explains(steps, m, c, call.tag, run[k].calls[c].stage.outcome);
        }
      }
    }
  }

  /** A second reply to a call does not replace the first: its delivery finds the channel full, leaves it as it is,
      and goes on to take the entry out of the map. */
  lemma SecondReplyIsDropped(s: State, d: nat, r: Reply)
    requires Inv(s) && Enabled(s, TrySend(d)) && s.calls[s.deliveries[d].stage.call].closes == 0
    requires s.calls[s.deliveries[d].stage.call].buffer == Some(r)
    ensures var s1 := Apply(s, TrySend(d));
            && Enabled(s1, DropEntry(d))
            && var s2 := Apply(s1, DropEntry(d));
            && s2.calls == s.calls && s2.pending == s.pending - {s.deliveries[d].reply.tag}
            && s2.deliveries == s.deliveries[d := s.deliveries[d].(stage := Over)]
  {
    hide Inv;
  }

  /** Nothing gets stuck: a call that waits may always be given up, and a cleanup that has begun always has a step to
      take, to an entry it has not shown yet or to its end. */
  lemma NothingIsStuck(s: State, c: nat)
    requires Inv(s)
    ensures c in s.calls && Open(s.calls[c]) ==> Enabled(s, SendFails(c)) || Enabled(s, CancelCall(c))
    ensures s.cleanup == NoCleanup ==> Enabled(s, StartCleanup)
    ensures s.cleanup.Ranging? ==>
              || Enabled(s, DeleteEntry) || Enabled(s, EndCleanup)
              || exists t :: t in s.pending && t !in s.cleanup.seen && Enabled(s, CloseEntry(t))
  {
    hide CallOk, DeliveryOk;
    if s.cleanup.Ranging? && s.cleanup.closing.None? && !Enabled(s, EndCleanup) {
      var t :| t in s.cleanup.must && t !in s.cleanup.seen && t in s.pending;
      assert Enabled(s, CloseEntry(t));
    }
  }

  ghost predicate Forgotten(s: State, c: nat) {
    c in s.calls && s.calls[c].stage.Gone? ==> s.calls[c].tag !in s.pending
  }

  lemma ForgottenStep(s: State, step: Step, c: nat)
    requires Inv(s) && Enabled(s, step) && Forgotten(s, c)
    ensures Forgotten(Apply(s, step), c)
  {
    hide CleanupOk, DeliveryOk, CallOk;
  }

  /** A call that has returned leaves nothing behind in the map, whatever else ran; and a reply that found the
      channel full takes the entry out. */
  lemma {:induction false} GoneIsForgotten(run: seq<State>, steps: seq<Step>, k: nat, c: nat)
    requires IsRun(run, steps) && k < |run|
    ensures c in run[k].calls && run[k].calls[c].stage.Gone? ==> run[k].calls[c].tag !in run[k].pending
    ensures k > 0 && steps[k - 1].DropEntry? ==>
              steps[k - 1].delivery in run[k].deliveries
              && run[k].deliveries[steps[k - 1].delivery].reply.tag !in run[k].pending
  {
    if k > 0 {
      GoneIsForgotten(run, steps, k - 1, c);
      RunKeepsInv(run, steps, k - 1);
      ForgottenStep(run[k - 1], steps[k - 1], c);
    }
  }
}
