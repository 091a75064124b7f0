/**
 The self-healing connection to the system Postgres.

 A reconcile pass resolves the current target, keeps a healthy handle, and otherwise reconnects: with the
 password of the credential Secret when that records the same host, else by provisioning the role and
 rewriting the Secret. The pass is a machine of small steps. Between any two of them a step can fail, fail
 after taking effect, or the world can change: the target moves, a role password is rotated, the Secret is
 edited, a connection dies, the process restarts.

 `Store` holds the same state in fields; its `ReconcileLoopPass` is the body of the loop, and what it does is
 `Pass`, the small steps run to the end.
 */
module Datastore {
  import opened Options
  import opened GoStrings

  // The system Postgres that is current. The instance is its host and port.
  datatype Target = Target(host: string, port: string, adminNamespace: string, adminName: string)

  datatype Instance = Instance(host: string, port: string)

  function InstanceOf(t: Target): Instance {
    Instance(t.host, t.port)
  }

  // Database and role name: fixed for a process and checked against an identifier pattern.
  datatype App = App(name: string, user: string)

  const UNIT_SEPARATOR := '\U{1F}'

  function Signature(t: Target, app: App): string {
    Join([t.host, t.port, t.adminNamespace, t.adminName, app.name, app.user], UNIT_SEPARATOR)
  }

  predicate Plain(s: string) {
    UNIT_SEPARATOR !in s
  }

  // The admin Secret can be asked for: its namespace and name are Kubernetes names, without the separator.
  predicate Named(t: Target) {
    Plain(t.adminNamespace) && Plain(t.adminName)
  }

  // The connection string can be dialled: a port with the separator in it is not a number. The host may be
  // anything, a socket path included.
  predicate Dialable(t: Target) {
    Plain(t.port)
  }

  predicate Addressable(t: Target) {
    Named(t) && Dialable(t)
  }

  datatype Credential = Credential(host: string, password: string)

  // An application connection, with the target it was opened against.
  datatype Conn = Conn(target: Target, alive: bool, closed: bool)

  datatype Stage =
    | Idle
    | Resolved(t: Target)
    | Connecting(t: Target)
    | GotSecret(t: Target, read: Option<Credential>)
    | Provisioning(t: Target)
    | Provisioned(t: Target, password: string)
    | Written(t: Target, password: string)
    | Opened(t: Target, conn: nat)
    | Migrated(t: Target, conn: nat)

  datatype State = State(
    app: App,
    target: Option<Target>,           // what discovery resolves to now
    roles: map<Instance, string>,     // the application role's current password on each instance
    secret: Option<Credential>,
    conns: seq<Conn>,                 // every application connection ever opened
    handle: Option<nat>,
    currentSig: string,
    backoff: int,                     // nanoseconds
    stage: Stage
  )

  const SECOND := 1_000_000_000
  const BACKOFF_MIN := 2 * SECOND
  const BACKOFF_MAX := 30 * SECOND

  function Init(app: App): State {
    State(app, None, map[], None, [], None, "", BACKOFF_MIN, Idle)
  }

  // ---------------------------------------------------------------------------------------------
  // One small step of the loop.
  // ---------------------------------------------------------------------------------------------

  datatype OpenFault = OpenFine | Refused | LostAfterOpen
  datatype ProvisionFault = ProvisionFine | BeforeRole | AfterRole
  datatype WriteFault = WriteFine | NotWritten | WrittenButFailed

  // What goes wrong at each place where a pass leaves the process.
  datatype Faults = Faults(
    resolve: bool, ping: bool, client: bool, readSecret: bool, stored: OpenFault,
    provision: ProvisionFault, write: WriteFault, open: OpenFault, migrate: bool
  )

  const NO_FAULTS := Faults(false, false, false, false, OpenFine, ProvisionFine, WriteFine, OpenFine, false)

  function NextBackoff(b: int): int {
    if 2 * b > BACKOFF_MAX then BACKOFF_MAX else 2 * b
  }

  // The pass ends with an error: back off.
  function Fail(s: State): State {
    s.(stage := Idle, backoff := NextBackoff(s.backoff))
  }

  function Succeed(s: State): State {
    s.(stage := Idle, backoff := BACKOFF_MIN)
  }

  predicate Usable(c: Option<Credential>) {
    c.Some? && TrimSpace(c.value.password) != ""
  }

  predicate PingWorks(s: State, c: nat, fault: bool) {
    !fault && c < |s.conns| && s.conns[c].alive && !s.conns[c].closed
  }

  predicate LoginWorks(s: State, t: Target, password: string, fault: OpenFault) {
    fault == OpenFine && Dialable(t) && InstanceOf(t) in s.roles && s.roles[InstanceOf(t)] == password
  }

  // Opening a connection as the application role and pinging it; a failed ping closes what was opened.
  // The stage moves on only when this works.
  function OpenStep(s: State, t: Target, password: string, fault: OpenFault): State {
    if LoginWorks(s, t, password, fault) then
      s.(conns := s.conns + [Conn(t, true, false)], stage := Opened(t, |s.conns|))
    else if fault == LostAfterOpen && Dialable(t) then s.(conns := s.conns + [Conn(t, false, true)])
    else s
  }

  function CloseConn(s: State, c: nat): State {
    if c < |s.conns| then s.(conns := s.conns[c := s.conns[c].(closed := true)]) else s
  }

  // Installs a connection and closes the one it replaces.
  function Swap(s: State, t: Target, c: nat): State {
    var installed := s.(handle := Some(c), currentSig := Signature(t, s.app));
    if s.handle.Some? && s.handle.value != c then CloseConn(installed, s.handle.value) else installed
  }

  // reconcileOnce up to the point where it reconnects, and the read of the Secret.
  function Look(s: State, f: Faults): State
    requires s.stage.Idle? || s.stage.Resolved? || s.stage.Connecting?
  {
    match s.stage
    case Idle =>
      if f.resolve || s.target.None? || !Named(s.target.value) then Fail(s)
      else s.(stage := Resolved(s.target.value))
    case Resolved(t) =>
      if s.handle.Some? && Signature(t, s.app) == s.currentSig && PingWorks(s, s.handle.value, f.ping) then Succeed(s)
      else if f.client then Fail(s)
      else s.(stage := Connecting(t))
    case Connecting(t) =>
      if f.readSecret then Fail(s) else s.(stage := GotSecret(t, s.secret))
  }

  // connect: the stored password, else provisioning and the write of the Secret.
  function Connect(s: State, f: Faults, password: string): State
    requires s.stage.GotSecret? || s.stage.Provisioning? || s.stage.Provisioned?
  {
    match s.stage
    case GotSecret(t, read) =>
      if Usable(read) && TrimSpace(read.value.host) == t.host then
        var tried := OpenStep(s, t, TrimSpace(read.value.password), f.stored);
        if tried.stage.Opened? then tried else tried.(stage := Provisioning(t))
      else s.(stage := Provisioning(t))
    case Provisioning(t) =>
      if !Dialable(t) then Fail(s)
      else (match f.provision
       case BeforeRole => Fail(s)
       case AfterRole => Fail(s.(roles := s.roles[InstanceOf(t) := password]))
       case ProvisionFine => s.(roles := s.roles[InstanceOf(t) := password], stage := Provisioned(t, password)))
    case Provisioned(t, pw) =>
      var written := s.(secret := Some(Credential(t.host, pw)));
      (match f.write
       case NotWritten => Fail(s)
       case WrittenButFailed => Fail(written)
       case WriteFine => written.(stage := Written(t, pw)))
  }

  // The tail: open with the fresh password, migrate, swap the handle.
  function Install(s: State, f: Faults): State
    requires s.stage.Written? || s.stage.Opened? || s.stage.Migrated?
  {
    match s.stage
    case Written(t, pw) =>
      var tried := OpenStep(s, t, pw, f.open);
      if tried.stage.Opened? then tried else Fail(tried)
    case Opened(t, c) =>
      if f.migrate then Fail(CloseConn(s, c)) else s.(stage := Migrated(t, c))
    case Migrated(t, c) => Succeed(Swap(s, t, c))
  }

  function Advance(s: State, f: Faults, password: string): State {
    match s.stage
    case Idle => Look(s, f)
    case Resolved(_) => Look(s, f)
    case Connecting(_) => Look(s, f)
    case GotSecret(_, _) => Connect(s, f, password)
    case Provisioning(_) => Connect(s, f, password)
    case Provisioned(_, _) => Connect(s, f, password)
    case Written(_, _) => Install(s, f)
    case Opened(_, _) => Install(s, f)
    case Migrated(_, _) => Install(s, f)
  }

  // ---------------------------------------------------------------------------------------------
  // Runs: small steps of the loop and changes of the world in any order.
  // ---------------------------------------------------------------------------------------------

  datatype Step =
    | Loop(faults: Faults, password: string)
    | Point(target: Option<Target>)
    | Rotate(instance: Instance, password: string)
    | EditSecret(secret: Option<Credential>)
    | Kill(conn: nat)
    | Restart                                 // the process dies: its connections go with it
    | Close                                   // between passes: Close waits for the loop to leave

  predicate Enabled(s: State, step: Step) {
    step.Close? ==> s.stage == Idle
  }

  function AllClosed(s: State): State {
    s.(conns := seq(|s.conns|, i requires 0 <= i < |s.conns| => s.conns[i].(closed := true)),
       handle := None, currentSig := "", backoff := BACKOFF_MIN, stage := Idle)
  }

  function Apply(s: State, step: Step): State
    requires Enabled(s, step)
  {
    match step
    case Loop(f, pw) => Advance(s, f, pw)
    case Point(t) => s.(target := t)
    case Rotate(i, pw) => s.(roles := s.roles[i := pw])
    case EditSecret(c) => s.(secret := c)
    case Kill(c) => if c < |s.conns| then s.(conns := s.conns[c := s.conns[c].(alive := false)]) else s
    case Restart => AllClosed(s)
    case Close =>
      var s' := if s.handle.Some? then CloseConn(s, s.handle.value) else s;
      s'.(handle := None, currentSig := "", backoff := BACKOFF_MIN)
  }

  ghost predicate IsRun(run: seq<State>, steps: seq<Step>) {
    && |run| == |steps| + 1
    && run[0] == Init(run[0].app)
    && forall i | 0 <= i < |steps| :: Enabled(run[i], steps[i]) && run[i + 1] == Apply(run[i], steps[i])
  }

  // The connection a pass has opened and not installed yet.
  function InHand(stage: Stage): Option<nat> {
    match stage
    case Opened(_, c) => Some(c)
    case Migrated(_, c) => Some(c)
    case _ => None
  }

  // Exactly the installed handle and the connection in hand are open.
  ghost predicate Accounted(conns: seq<Conn>, handle: Option<nat>, hand: Option<nat>) {
    && (forall c: nat | c < |conns| :: conns[c].closed <==> Some(c) != handle && Some(c) != hand)
    && (handle.Some? ==> handle.value < |conns| && handle != hand)
    && (hand.Some? ==> hand.value < |conns|)
  }

  ghost predicate SigOfHandle(conns: seq<Conn>, handle: Option<nat>, sig: string, app: App) {
    handle.Some? && handle.value < |conns| ==> sig == Signature(conns[handle.value].target, app)
  }

  ghost predicate HandOnTarget(conns: seq<Conn>, stage: Stage) {
    InHand(stage).Some? && InHand(stage).value < |conns| ==> conns[InHand(stage).value].target == stage.t
  }

  ghost predicate Inv(s: State) {
    && BACKOFF_MIN <= s.backoff <= BACKOFF_MAX
    && Accounted(s.conns, s.handle, InHand(s.stage))
    && SigOfHandle(s.conns, s.handle, s.currentSig, s.app)
    && HandOnTarget(s.conns, s.stage)
    && (s.stage != Idle ==> Named(s.stage.t))
    && (forall c: nat | c < |s.conns| :: Addressable(s.conns[c].target))
  }

  lemma OpenKeepsInv(s: State, t: Target, pw: string, fault: OpenFault)
    requires Inv(s) && InHand(s.stage).None? && Named(t)
    ensures Inv(OpenStep(s, t, pw, fault))
  {
  }

  lemma LookKeepsInv(s: State, f: Faults)
    requires Inv(s) && (s.stage.Idle? || s.stage.Resolved? || s.stage.Connecting?)
    ensures Inv(Look(s, f))
  {
  }

  lemma ConnectKeepsInv(s: State, f: Faults, pw: string)
    requires Inv(s) && (s.stage.GotSecret? || s.stage.Provisioning? || s.stage.Provisioned?)
    ensures Inv(Connect(s, f, pw))
  {
    if s.stage.GotSecret? {
      GotSecretKeepsInv(s, f, pw);
    } else {
      hide Signature, Named;
    }
  }

  lemma GotSecretKeepsInv(s: State, f: Faults, pw: string)
    requires Inv(s) && s.stage.GotSecret?
    ensures Inv(Connect(s, f, pw))
  {
    hide Signature, Named, TrimSpace, LoginWorks;
    if Usable(s.stage.read) {
      OpenKeepsInv(s, s.stage.t, TrimSpace(s.stage.read.value.password), f.stored);
    }
  }

  lemma InstallKeepsInv(s: State, f: Faults)
    requires Inv(s) && (s.stage.Written? || s.stage.Opened? || s.stage.Migrated?)
    ensures Inv(Install(s, f))
  {
    if s.stage.Written? { OpenKeepsInv(s, s.stage.t, s.stage.password, f.open); }
  }

  lemma AdvanceKeepsInv(s: State, f: Faults, pw: string)
    requires Inv(s)
    ensures Inv(Advance(s, f, pw))
  {
    match s.stage
    case GotSecret(_, _) => ConnectKeepsInv(s, f, pw);
    case Provisioning(_) => ConnectKeepsInv(s, f, pw);
    case Provisioned(_, _) => ConnectKeepsInv(s, f, pw);
    case Written(_, _) => InstallKeepsInv(s, f);
    case Opened(_, _) => InstallKeepsInv(s, f);
    case Migrated(_, _) => InstallKeepsInv(s, f);
    case _ => LookKeepsInv(s, f);
  }

  lemma StepKeepsInv(s: State, step: Step)
    requires Inv(s) && Enabled(s, step)
    ensures Inv(Apply(s, step))
  {
    if step.Loop? { AdvanceKeepsInv(s, step.faults, step.password); }
  }

  /** Conservation, in every reachable state: a connection is open exactly when it is the installed handle or
      the one a pass has in hand; the stored signature is that of the target the handle was opened against;
      every connection was opened to a target that can be addressed; the retry delay stays between 2 and 30
      seconds. */
  lemma {:induction false} RunKeepsInv(run: seq<State>, steps: seq<Step>, i: nat)
    requires IsRun(run, steps) && i < |run|
    ensures Inv(run[i])
  {
    if i > 0 {
      RunKeepsInv(run, steps, i - 1);
      StepKeepsInv(run[i - 1], steps[i - 1]);
    }
  }

  // ---------------------------------------------------------------------------------------------
  // A whole pass, and what it heals.
  // ---------------------------------------------------------------------------------------------

  function Rank(stage: Stage): nat {
    match stage
    case Idle => 0
    case Migrated(_, _) => 1
    case Opened(_, _) => 2
    case Written(_, _) => 3
    case Provisioned(_, _) => 4
    case Provisioning(_) => 5
    case GotSecret(_, _) => 6
    case Connecting(_) => 7
    case Resolved(_) => 8
  }

  function Finish(s: State, f: Faults, password: string): State
    decreases Rank(s.stage)
  {
    if s.stage == Idle then s else Finish(Advance(s, f, password), f, password)
  }

  // One pass of the loop with nothing in between.
  function Pass(s: State, f: Faults, password: string): State {
    Finish(Advance(s, f, password), f, password)
  }

  // A generated password is a run of hex digits.
  predicate Generated(pw: string) {
    pw != "" && forall c | c in pw :: !IsSpace(c)
  }

  // The handle is installed, open and alive, and it was opened against t.
  ghost predicate LiveOn(s: State, t: Target) {
    && s.stage == Idle && s.backoff == BACKOFF_MIN
    && s.handle.Some? && s.handle.value < |s.conns|
    && s.conns[s.handle.value].target == t
    && s.conns[s.handle.value].alive && !s.conns[s.handle.value].closed
  }

  // The Secret names the host and the password that the role has there now.
  ghost predicate Recorded(s: State, t: Target) {
    && s.secret.Some?
    && (s.secret.value.host == t.host || TrimSpace(s.secret.value.host) == t.host)
    && InstanceOf(t) in s.roles && s.roles[InstanceOf(t)] == TrimSpace(s.secret.value.password)
  }

  lemma OpenedHeals(s: State, pw: string)
    requires Inv(s) && s.stage.Opened? && s.conns[s.stage.conn].alive
    ensures LiveOn(Finish(s, NO_FAULTS, pw), s.stage.t)
    ensures Finish(s, NO_FAULTS, pw).(conns := [], handle := None, currentSig := "", stage := Idle, backoff := 0)
            == s.(conns := [], handle := None, currentSig := "", stage := Idle, backoff := 0)
    ensures Finish(s, NO_FAULTS, pw).handle == Some(s.stage.conn)
  {
    var m := Advance(s, NO_FAULTS, pw);
    AdvanceKeepsInv(s, NO_FAULTS, pw);
    var r := Advance(m, NO_FAULTS, pw);
    AdvanceKeepsInv(m, NO_FAULTS, pw);
    assert Finish(s, NO_FAULTS, pw) == Finish(m, NO_FAULTS, pw) == Finish(r, NO_FAULTS, pw) == r;
  }

  lemma ProvisioningHeals(s: State, pw: string)
    requires Inv(s) && s.stage.Provisioning? && Dialable(s.stage.t) && Generated(pw)
    ensures LiveOn(Finish(s, NO_FAULTS, pw), s.stage.t) && Recorded(Finish(s, NO_FAULTS, pw), s.stage.t)
  {
    var p := Advance(s, NO_FAULTS, pw);
    var w := Advance(p, NO_FAULTS, pw);
    var o := Advance(w, NO_FAULTS, pw);
    hide Accounted, SigOfHandle, HandOnTarget;
    AdvanceKeepsInv(s, NO_FAULTS, pw);
    AdvanceKeepsInv(p, NO_FAULTS, pw);
    AdvanceKeepsInv(w, NO_FAULTS, pw);
    assert o.stage.Opened? && o.secret == Some(Credential(s.stage.t.host, pw));
    assert pw[0] in pw && pw[|pw| - 1] in pw;
    TrimSpaceKeeps(pw);
    OpenedHeals(o, pw);
    assert Finish(s, NO_FAULTS, pw) == Finish(p, NO_FAULTS, pw) == Finish(w, NO_FAULTS, pw) == Finish(o, NO_FAULTS, pw);
  }

  lemma ReconnectHeals(s: State, pw: string)
    requires Inv(s) && s.stage.GotSecret? && s.stage.read == s.secret && Dialable(s.stage.t) && Generated(pw)
    ensures LiveOn(Finish(s, NO_FAULTS, pw), s.stage.t) && Recorded(Finish(s, NO_FAULTS, pw), s.stage.t)
  {
    var o := Advance(s, NO_FAULTS, pw);
    AdvanceKeepsInv(s, NO_FAULTS, pw);
    if o.stage.Opened? {
      OpenedHeals(o, pw);
    } else {
      ProvisioningHeals(o, pw);
    }
  }

  // The pass keeps the installed handle: same signature and a ping that works.
  predicate KeepsHandle(s: State) {
    && s.target.Some? && s.handle.Some? && Signature(s.target.value, s.app) == s.currentSig
    && PingWorks(s, s.handle.value, false)
  }

  lemma PassUnfolds(s: State, pw: string)
    requires s.stage == Idle && s.target.Some? && Named(s.target.value)
    ensures KeepsHandle(s) ==> Pass(s, NO_FAULTS, pw) == Succeed(s)
    ensures !KeepsHandle(s) ==>
              Pass(s, NO_FAULTS, pw) == Finish(s.(stage := GotSecret(s.target.value, s.secret)), NO_FAULTS, pw)
  {
    var t := s.target.value;
    var a := Advance(s, NO_FAULTS, pw);
    assert a == s.(stage := Resolved(t));
    var b := Advance(a, NO_FAULTS, pw);
    assert Pass(s, NO_FAULTS, pw) == Finish(b, NO_FAULTS, pw);
    if !KeepsHandle(s) {
      assert b == s.(stage := Connecting(t));
      assert Advance(b, NO_FAULTS, pw) == s.(stage := GotSecret(t, s.secret));
    }
  }

  /** From any reachable state between passes, whatever faults and changes came before, one pass without faults
      ends with a live handle; if it reconnected, that handle is on the current target and the Secret records
      its host and the role's current password; if it kept the handle, the signatures agree. */
  lemma FaultFreePassHeals(s: State, t: Target, pw: string)
    requires Inv(s) && s.stage == Idle && s.target == Some(t) && Addressable(t) && Generated(pw)
    ensures KeepsHandle(s) ==>
              && Pass(s, NO_FAULTS, pw) == Succeed(s)
              && LiveOn(Succeed(s), s.conns[s.handle.value].target)
              && Signature(s.conns[s.handle.value].target, s.app) == Signature(t, s.app)
    ensures !KeepsHandle(s) ==>
              LiveOn(Pass(s, NO_FAULTS, pw), t) && Recorded(Pass(s, NO_FAULTS, pw), t)
  {
    PassUnfolds(s, pw);
    if !KeepsHandle(s) {
      ReconnectHeals(s.(stage := GotSecret(t, s.secret)), pw);
    }
  }

  // ---------------------------------------------------------------------------------------------
  // Signatures identify the targets that can be addressed.
  // ---------------------------------------------------------------------------------------------

  function Parts(t: Target, app: App): seq<string> {
    [t.host, t.port, t.adminNamespace, t.adminName, app.name, app.user]
  }

  /** Equal signatures mean equal targets: the parts behind the host are free of the separator, and the host
      may hold anything. */
  lemma SignatureIdentifies(t: Target, u: Target, app: App)
    requires Addressable(t) && Addressable(u) && Plain(app.name) && Plain(app.user)
    requires Signature(t, app) == Signature(u, app)
    ensures t == u
  {
    var p, q := Parts(t, app), Parts(u, app);
    JoinTailInjective(p, q, UNIT_SEPARATOR);
    assert p[0] == q[0] && p[1] == q[1] && p[2] == q[2] && p[3] == q[3];
  }

  ghost predicate Reachable(s: State) {
    exists run: seq<State>, steps: seq<Step> :: IsRun(run, steps) && run[|steps|] == s
  }

  lemma ReachableInv(s: State)
    requires Reachable(s)
    ensures Inv(s)
  {
    var run: seq<State>, steps: seq<Step> :| IsRun(run, steps) && run[|steps|] == s;
    RunKeepsInv(run, steps, |steps|);
  }

  /** Self-healing: from every reachable state between passes, after any history of faults and changes, one pass
      without faults ends live on the current target, for every target that can be addressed; if it
      reconnected, the Secret records that host and the role's current password. */
  lemma AlwaysHeals(s: State, t: Target, pw: string)
    requires Reachable(s) && Plain(s.app.name) && Plain(s.app.user)
    requires s.stage == Idle && s.target == Some(t) && Addressable(t) && Generated(pw)
    ensures LiveOn(Pass(s, NO_FAULTS, pw), t)
    ensures !KeepsHandle(s) ==> Recorded(Pass(s, NO_FAULTS, pw), t)
  {
    ReachableInv(s);
    FaultFreePassHeals(s, t, pw);
    if KeepsHandle(s) { SignatureIdentifies(t, s.conns[s.handle.value].target, s.app); }
  }

  // ---------------------------------------------------------------------------------------------
  // What a pass does, for every pattern of faults.
  // ---------------------------------------------------------------------------------------------

  // The pass keeps the handle it has.
  predicate Keeps(s: State, f: Faults) {
    KeepsHandle(s) && !f.ping
  }

  // The pass gets as far as connecting: the target resolves, the handle is not kept, and the cluster answers.
  predicate Reconnects(s: State, f: Faults) {
    !f.resolve && s.target.Some? && Named(s.target.value) && !Keeps(s, f) && !f.client && !f.readSecret
  }

  // The Secret records this host and the role's current password there, and logging in with it works.
  predicate StoredWorks(s: State, t: Target, f: Faults) {
    && s.secret.Some? && TrimSpace(s.secret.value.password) != "" && TrimSpace(s.secret.value.host) == t.host
    && InstanceOf(t) in s.roles && s.roles[InstanceOf(t)] == TrimSpace(s.secret.value.password)
    && f.stored == OpenFine && Dialable(t)
  }

  // How a pass may end: with an error, the handle left alone and the delay doubled up to the cap; or with a
  // handle of its own on t.
  predicate Ended(s: State, r: State, t: Target, ok: bool, roles: map<Instance, string>, secret: Option<Credential>) {
    && r.stage == Idle && r.app == s.app && r.target == s.target && r.roles == roles && r.secret == secret
    && (!ok ==>
          && r.handle == s.handle && r.currentSig == s.currentSig
          && r.backoff == (if 2 * s.backoff > BACKOFF_MAX then BACKOFF_MAX else 2 * s.backoff))
    && (ok ==>
          && r.handle.Some? && |s.conns| <= r.handle.value < |r.conns| && r.conns[r.handle.value].target == t
          && r.conns[r.handle.value].alive && !r.conns[r.handle.value].closed
          && r.currentSig == Signature(t, s.app) && r.backoff == BACKOFF_MIN)
  }

  lemma OpenedEnds(s: State, base: State, f: Faults, pw: string)
    requires Inv(s) && s.stage.Opened? && s.conns[s.stage.conn].alive && |base.conns| <= s.stage.conn
    requires s.(conns := [], stage := Idle) == base.(conns := [], roles := s.roles, secret := s.secret, stage := Idle)
    ensures Ended(base, Finish(s, f, pw), s.stage.t, !f.migrate, s.roles, s.secret)
  {
    hide SigOfHandle, TrimSpace;
    var m := Advance(s, f, pw);
    AdvanceKeepsInv(s, f, pw);
    if !f.migrate {
      var r := Advance(m, f, pw);
      AdvanceKeepsInv(m, f, pw);
      assert Finish(s, f, pw) == Finish(m, f, pw) == Finish(r, f, pw) == r;
    } else {
      assert Finish(s, f, pw) == Finish(m, f, pw) == m;
    }
  }

  lemma ProvisioningEnds(s: State, base: State, f: Faults, pw: string)
    requires Inv(s) && s.stage.Provisioning? && |base.conns| <= |s.conns|
    requires s.(conns := [], stage := Idle) == base.(conns := [], stage := Idle)
    ensures var t := s.stage.t;
            var ok := Dialable(t) && f.provision == ProvisionFine && f.write == WriteFine && f.open == OpenFine
                      && !f.migrate;
            var roleSet := Dialable(t) && f.provision != BeforeRole;
            var written := Dialable(t) && f.provision == ProvisionFine && f.write != NotWritten;
            Ended(base, Finish(s, f, pw), t, ok,
                  if roleSet then s.roles[InstanceOf(t) := pw] else s.roles,
                  if written then Some(Credential(t.host, pw)) else s.secret)
  {
    hide Accounted, SigOfHandle, HandOnTarget, TrimSpace;
    var p := Advance(s, f, pw);
    AdvanceKeepsInv(s, f, pw);
    assert Finish(s, f, pw) == Finish(p, f, pw);
    if p.stage.Provisioned? {
      var w := Advance(p, f, pw);
      AdvanceKeepsInv(p, f, pw);
      assert Finish(p, f, pw) == Finish(w, f, pw);
      if w.stage.Written? { WrittenEnds(w, base, f, pw); }
    }
  }

  lemma WrittenEnds(w: State, base: State, f: Faults, pw: string)
    requires Inv(w) && w.stage.Written? && |base.conns| <= |w.conns| && Dialable(w.stage.t)
    requires InstanceOf(w.stage.t) in w.roles && w.roles[InstanceOf(w.stage.t)] == w.stage.password
    requires w.(conns := [], stage := Idle) == base.(conns := [], roles := w.roles, secret := w.secret, stage := Idle)
    ensures Ended(base, Finish(w, f, pw), w.stage.t, f.open == OpenFine && !f.migrate, w.roles, w.secret)
  {
    hide Accounted, SigOfHandle, HandOnTarget, TrimSpace;
    var o := Advance(w, f, pw);
    AdvanceKeepsInv(w, f, pw);
    assert Finish(w, f, pw) == Finish(o, f, pw);
    if o.stage.Opened? { OpenedEnds(o, base, f, pw); }
  }

  lemma GotSecretEnds(s: State, f: Faults, pw: string)
    requires Inv(s) && s.stage.GotSecret? && s.stage.read == s.secret
    ensures StoredWorks(s, s.stage.t, f) ==> Ended(s, Finish(s, f, pw), s.stage.t, !f.migrate, s.roles, s.secret)
    ensures !StoredWorks(s, s.stage.t, f) ==>
              var t := s.stage.t;
              var ok := Dialable(t) && f.provision == ProvisionFine && f.write == WriteFine && f.open == OpenFine
                        && !f.migrate;
              var roleSet := Dialable(t) && f.provision != BeforeRole;
              var written := Dialable(t) && f.provision == ProvisionFine && f.write != NotWritten;
              Ended(s, Finish(s, f, pw), t, ok,
                    if roleSet then s.roles[InstanceOf(t) := pw] else s.roles,
                    if written then Some(Credential(t.host, pw)) else s.secret)
  {
    hide Accounted, SigOfHandle, HandOnTarget, TrimSpace, Ended;
    var o := Advance(s, f, pw);
    AdvanceKeepsInv(s, f, pw);
    assert Finish(s, f, pw) == Finish(o, f, pw);
    if StoredWorks(s, s.stage.t, f) {
      OpenedEnds(o, s, f, pw);
    } else {
      ProvisioningEnds(o, s, f, pw);
    }
  }

  lemma PassReaches(s: State, f: Faults, pw: string)
    requires s.stage == Idle
    ensures Reconnects(s, f) ==>
              Pass(s, f, pw) == Finish(s.(stage := GotSecret(s.target.value, s.secret)), f, pw)
    ensures !Reconnects(s, f) ==>
              Pass(s, f, pw) ==
              if !f.resolve && s.target.Some? && Named(s.target.value) && Keeps(s, f) then Succeed(s) else Fail(s)
  {
    hide TrimSpace;
    var a := Advance(s, f, pw);
    if a.stage != Idle {
      var b := Advance(a, f, pw);
      assert Pass(s, f, pw) == Finish(b, f, pw);
      if b.stage != Idle {
        assert Finish(b, f, pw) == Finish(Advance(b, f, pw), f, pw);
      }
    }
  }

  /** What one pass does, for every pattern of faults. Where it does not get as far as connecting it changes
      nothing but the delay. Where it does, it tries the stored password first: if that works, neither the role's
      password nor the Secret changes; if not, it sets the role's password to the fresh one and then records it
      in the Secret, each unless a fault comes before it. It installs a handle on the current target exactly
      when everything it needed worked, and otherwise leaves the old handle and its signature alone. */
  lemma PassOutcome(s: State, f: Faults, pw: string)
    requires Inv(s) && s.stage == Idle
    ensures !Reconnects(s, f) ==>
              var kept := !f.resolve && s.target.Some? && Named(s.target.value) && Keeps(s, f);
              Pass(s, f, pw) == s.(backoff := if kept then 2_000_000_000
                                              else if s.backoff > 15_000_000_000 then 30_000_000_000 else 2 * s.backoff)
    ensures Reconnects(s, f) && StoredWorks(s, s.target.value, f) ==>
              Ended(s, Pass(s, f, pw), s.target.value, !f.migrate, s.roles, s.secret)
    ensures Reconnects(s, f) && !StoredWorks(s, s.target.value, f) ==>
              var t := s.target.value;
              var ok := Dialable(t) && f.provision == ProvisionFine && f.write == WriteFine && f.open == OpenFine
                        && !f.migrate;
              var roleSet := Dialable(t) && f.provision != BeforeRole;
              var written := Dialable(t) && f.provision == ProvisionFine && f.write != NotWritten;
              Ended(s, Pass(s, f, pw), t, ok,
                    if roleSet then s.roles[InstanceOf(t) := pw] else s.roles,
                    if written then Some(Credential(t.host, pw)) else s.secret)
  {
    hide Finish, Advance, TrimSpace, Accounted, SigOfHandle, Signature;
    PassReaches(s, f, pw);
    if Reconnects(s, f) {
      var g := s.(stage := GotSecret(s.target.value, s.secret));
      GotSecretEnds(g, f, pw);
    }
  }

  /** Closing the store, or the end of the process, leaves no connection open and nothing installed. */
  lemma CloseLeavesNothingOpen(s: State, step: Step)
    requires Inv(s) && (step == Restart || (step == Close && s.stage == Idle))
    ensures var r := Apply(s, step);
            && r.handle == None && r.stage == Idle && r.backoff == BACKOFF_MIN
            && forall c: nat | c < |r.conns| :: r.conns[c].closed
  {
    StepKeepsInv(s, step);
  }

  // ---------------------------------------------------------------------------------------------
  // The histories are as bad as they can be.
  // ---------------------------------------------------------------------------------------------

  lemma ReachableStep(s: State, step: Step)
    requires Reachable(s) && Enabled(s, step)
    ensures Reachable(Apply(s, step))
  {
    hide Apply, Enabled;
    var run: seq<State>, steps: seq<Step> :| IsRun(run, steps) && run[|steps|] == s;
    assert IsRun(run + [Apply(s, step)], steps + [step]);
    assert (run + [Apply(s, step)])[|steps + [step]|] == Apply(s, step);
  }

  lemma {:induction false} ReachableFinish(s: State, f: Faults, pw: string)
    requires Reachable(s)
    ensures Reachable(Finish(s, f, pw))
    decreases Rank(s.stage)
  {
    hide Reachable;
    if s.stage != Idle {
      LoopStep(s, f, pw);
      ReachableFinish(Advance(s, f, pw), f, pw);
    }
  }

  lemma LoopStep(s: State, f: Faults, pw: string)
    requires Reachable(s)
    ensures Reachable(Advance(s, f, pw))
  {
    hide Reachable, Advance;
    ReachableStep(s, Loop(f, pw));
  }

  lemma LiveIsReachable(u: Target, app: App, pw: string) returns (s: State)
    requires Addressable(u) && Generated(pw)
    ensures Reachable(s) && LiveOn(s, u)
  {
    hide Reachable, Advance, Finish;
    StartIsReachable(app);
    var s1 := Init(app).(target := Some(u));
    ReachableStep(Init(app), Point(Some(u)));
    LoopStep(s1, NO_FAULTS, pw);
    ReachableFinish(Advance(s1, NO_FAULTS, pw), NO_FAULTS, pw);
    s := Pass(s1, NO_FAULTS, pw);
    ReachableInv(s1);
    FaultFreePassHeals(s1, u, pw);
  }

  lemma StartIsReachable(app: App)
    ensures Reachable(Init(app))
  {
    var none: seq<Step> := [];
    assert IsRun([Init(app)], none) && [Init(app)][|none|] == Init(app);
  }

  /** For any two targets, any Secret and any role password, a state can be reached in which the installed handle
      is dead and on the other target, the Secret holds that credential, and the role has that password. */
  lemma AnyTroubleIsReachable(t: Target, u: Target, c: Option<Credential>, role: string, app: App) returns (s: State)
    requires Addressable(u)
    ensures Reachable(s) && s.stage == Idle && s.target == Some(t) && s.secret == c
    ensures InstanceOf(t) in s.roles && s.roles[InstanceOf(t)] == role
    ensures s.handle.Some? && s.handle.value < |s.conns| && s.conns[s.handle.value].target == u
    ensures !s.conns[s.handle.value].alive && !s.conns[s.handle.value].closed
  {
    hide Reachable;
    var s0 := LiveIsReachable(u, app, "a");
    var s1 := Apply(s0, Kill(s0.handle.value));
    ReachableStep(s0, Kill(s0.handle.value));
    var s2 := Apply(s1, Point(Some(t)));
    ReachableStep(s1, Point(Some(t)));
    var s3 := Apply(s2, Rotate(InstanceOf(t), role));
    ReachableStep(s2, Rotate(InstanceOf(t), role));
    s := Apply(s3, EditSecret(c));
    ReachableStep(s3, EditSecret(c));
  }

  // ---------------------------------------------------------------------------------------------
  // The loop body on fields.
  // ---------------------------------------------------------------------------------------------

  lemma StepsTo(s: State, r: State, f: Faults, pw: string)
    requires s.stage != Idle && Advance(s, f, pw) == r
    ensures Finish(s, f, pw) == Finish(r, f, pw) && (r.stage == Idle ==> Finish(s, f, pw) == r)
  {
  }

  class Store {
    const app: App
    var target: Option<Target>
    var roles: map<Instance, string>
    var secret: Option<Credential>
    var conns: seq<Conn>
    var handle: Option<nat>
    var currentSig: string
    var backoff: int

    ghost function At(stage: Stage): State
      reads this
    {
      State(app, target, roles, secret, conns, handle, currentSig, backoff, stage)
    }

    constructor (app: App)
      ensures At(Idle) == Init(app)
    {
      this.app := app;
      target, roles, secret, conns, handle, currentSig, backoff := None, map[], None, [], None, "", BACKOFF_MIN;
    }

    method CloseGorm(c: nat)
      modifies this`conns
      ensures At(Idle) == CloseConn(old(At(Idle)), c)
    {
      if c < |conns| {
        conns := conns[c := conns[c].(closed := true)];
      }
    }

    // Dials as the application role and pings; c is the new connection when that worked.
    method OpenGorm(t: Target, password: string, fault: OpenFault) returns (ok: bool, c: nat)
      modifies this`conns
      ensures ok == LoginWorks(old(At(Idle)), t, password, fault)
      ensures ok ==> c == |old(conns)|
      ensures forall st: Stage | !st.Opened? ::
                At(if ok then Opened(t, c) else st) == OpenStep(old(At(st)), t, password, fault)
    {
      c := |conns|;
      if Dialable(t) && InstanceOf(t) in roles && roles[InstanceOf(t)] == password && fault == OpenFine {
        conns := conns + [Conn(t, true, false)];
        return true, c;
      }
      if fault == LostAfterOpen && Dialable(t) {
        conns := conns + [Conn(t, true, false)];
        CloseGorm(c);
        conns := conns[c := conns[c].(alive := false)];
        assert conns == old(conns) + [Conn(t, false, true)];
      }
      return false, c;
    }

    // connect after the Secret was read: the stored password first, then provisioning.
    method ConnectTo(t: Target, f: Faults, password: string) returns (ok: bool, c: nat)
      modifies this`conns, this`roles, this`secret
      ensures Finish(old(At(Connecting(t))), f, password) ==
              if ok then Finish(At(Opened(t, c)), f, password) else Fail(At(Idle))
    {
      c := 0;
      if f.readSecret {
        return false, 0;
      }
      if Usable(secret) && TrimSpace(secret.value.host) == t.host {
        ghost var before := At(GotSecret(t, secret));
        ok, c := OpenGorm(t, TrimSpace(secret.value.password), f.stored);
        if ok {
          assert Advance(before, f, password) == At(Opened(t, c));
          return;
        }
        assert Advance(before, f, password) == At(Provisioning(t));
      }
      assert Finish(old(At(Connecting(t))), f, password) == Finish(At(Provisioning(t)), f, password);
      ok, c := Provision(t, f, password);
    }

    // Sets the role's password, records it in the Secret, and opens with it.
    method Provision(t: Target, f: Faults, password: string) returns (ok: bool, c: nat)
      modifies this`conns, this`roles, this`secret
      ensures Finish(old(At(Provisioning(t))), f, password) ==
              if ok then Finish(At(Opened(t, c)), f, password) else Fail(At(Idle))
    {
      if !Dialable(t) || f.provision == BeforeRole {
        StepsTo(At(Provisioning(t)), Fail(At(Idle)), f, password);
        return false, 0;
      }
      roles := roles[InstanceOf(t) := password];
      if f.provision == AfterRole {
        StepsTo(old(At(Provisioning(t))), Fail(At(Idle)), f, password);
        return false, 0;
      }
      ghost var role := At(Provisioned(t, password));
      assert Advance(old(At(Provisioning(t))), f, password) == role;
      if f.write == NotWritten {
        StepsTo(role, Fail(At(Idle)), f, password);
        return false, 0;
      }
      secret := Some(Credential(t.host, password));
      if f.write == WrittenButFailed {
        StepsTo(role, Fail(At(Idle)), f, password);
        return false, 0;
      }
      ghost var written := At(Written(t, password));
      assert Advance(role, f, password) == written;
      ok, c := OpenGorm(t, password, f.open);
      StepsTo(written, if ok then At(Opened(t, c)) else Fail(At(Idle)), f, password);
    }

    /** One turn of the reconcile loop: the whole pass and the backoff it leaves behind. */
    method ReconcileLoopPass(f: Faults, password: string)
      modifies this
      ensures At(Idle) == Pass(old(At(Idle)), f, password)
    {
      var ok := ReconcileOnce(f, password);
      if ok {
        backoff := BACKOFF_MIN;
      } else {
        backoff := backoff * 2;
        if backoff > BACKOFF_MAX {
          backoff := BACKOFF_MAX;
        }
      }
    }

    method ReconcileOnce(f: Faults, password: string) returns (ok: bool)
      modifies this`conns, this`roles, this`secret, this`handle, this`currentSig
      ensures Pass(old(At(Idle)), f, password) == if ok then Succeed(At(Idle)) else Fail(At(Idle))
    {
      if f.resolve || target.None? || !Named(target.value) {
        return false;
      }
      var t := target.value;
      assert Pass(old(At(Idle)), f, password) == Finish(At(Resolved(t)), f, password);
      if handle.Some? && Signature(t, app) == currentSig {
        var c := handle.value;
        if !f.ping && c < |conns| && conns[c].alive && !conns[c].closed {
          StepsTo(At(Resolved(t)), Succeed(At(Idle)), f, password);
          return true;
        }
      }
      if f.client {
        StepsTo(At(Resolved(t)), Fail(At(Idle)), f, password);
        return false;
      }
      assert Pass(old(At(Idle)), f, password) == Finish(At(Connecting(t)), f, password);
      var connected, c := ConnectTo(t, f, password);
      if !connected {
        return false;
      }
      if f.migrate {
        ghost var before := At(Opened(t, c));
        CloseGorm(c);
        StepsTo(before, Fail(At(Idle)), f, password);
        return false;
      }
      ghost var before := At(Migrated(t, c));
      assert Pass(old(At(Idle)), f, password) == Finish(before, f, password) == Advance(before, f, password);
      InstallHandle(t, c);
      return true;
    }

    method InstallHandle(t: Target, c: nat)
      modifies this`conns, this`handle, this`currentSig
      ensures forall st: Stage :: At(st) == Swap(old(At(st)), t, c)
    {
      var prev := handle;
      handle := Some(c);
      if prev.Some? && prev.value != c {
        CloseGorm(prev.value);
      }
      currentSig := Signature(t, app);
    }
  }
}
