/**
  One Call-ID seen as a race: the INVITE handler, the no-answer timer task, the
  handlers of callee responses, CANCEL, BYE and ACK, voicemail deliveries and
  the recorder all run concurrently.  A step runs one task up to and including
  its next lock acquisition (or its next message to the caller), so a run is
  any interleaving at that grain.  A task that was aborted is one that is never
  scheduled again; nothing below relies on an abort taking effect.
 */
module CallRace {
  import opened Options
  import opened VoicemailState

  /** The entries of the shared maps that belong to this Call-ID. */
  datatype Shared = Shared(
    entry: Option<Entry>,
    pending: bool,
    active: bool,
    relay: bool,
    webrtc: bool,
    vmCall: bool,
    marks: Marks)

  /** Unconditional lock steps, used by handlers that do not branch on them. */
  datatype Op =
    | CancelTimer | CallerCancelTimer
    | DropPending | DropActive | DropRelay | DropWebrtc
    | MarkRecording | DropVmCall

  const DropAll: seq<Op> := [DropPending, DropActive, DropRelay, DropWebrtc]

  /** The rest of each handler once dispatch and branching are over. */
  const ProxyCancelOps: seq<Op> := [CallerCancelTimer, DropPending, DropActive, DropRelay, DropWebrtc]
  const ProxyByeOps: seq<Op> := [CancelTimer, DropActive, DropPending, DropRelay, DropWebrtc]
  const VmCancelOps: seq<Op> := [MarkRecording, DropVmCall, CancelTimer]
  const VmByeOps: seq<Op> := [DropVmCall, CancelTimer]

  datatype InvitePc = PutPending | PutActive | Allocate | Spawn | Install(task: nat)

  /** handle_delivery_invite: take the slot, then discard it or start a recorder. */
  datatype DeliveryPc = Track | Prepare | Discard | Admit | StartRecorder

  datatype TimerPc =
    | Sleeping | Forget | Cleanup(todo: seq<Op>) | FirstCheck
    | Delivering(at: DeliveryPc) | SecondCheck | Sending
    | Suppress(ops: seq<Op>) | Finishing

  /** `early` is history: the response passed its gate before the timer entry was installed. */
  datatype ResponsePc = BusyCleanup(left: seq<Op>) | BusyLookup | Gate | Lookup(early: bool) | Relay(early: bool)

  datatype Task =
    | InviteTask(inv: InvitePc, mailbox: bool)
    | TimerTask(tm: TimerPc)
    | ResponseTask(code: nat, rs: ResponsePc)
    | DeliveryTask(dl: DeliveryPc)
    | RecorderTask(finishing: bool)
    | CancelDispatch
    | ByeDispatch
    | Straight(rest: seq<Op>)

  /** What the environment decides at a step: database answers, media, duration. */
  datatype Env = Env(ok: bool, webrtc: bool, secs: nat)

  datatype Outcome = Failed | Decided(what: Persistence)

  /** History of the run so far; no step reads it. */
  datatype Log = Log(
    invites: nat,          // INVITEs for this Call-ID that reached the proxy
    installed: bool,       // a timer entry has been installed
    finals: nat,           // final responses relayed to the caller
    lateFinals: nat,       // those that passed their gate after the installation
    vmSent: nat,           // responses the timer task sent to the caller
    marked: bool,          // the recording was marked since its slot was taken
    outcomes: seq<Outcome>) // decisions of finished recorders

  datatype Sys = Sys(sh: Shared, log: Log, tasks: seq<Task>)

  const Idle: Task := Straight([])

  const Init: Sys := Sys(
    Shared(None, false, false, false, false, false, Marks(false, false)),
    Log(0, false, 0, 0, 0, false, []),
    [])

  /** A message for this Call-ID reaches the server. */
  datatype Arrival =
    | Invite(mailbox: bool)
    | InviteUnregistered
    | Final(code: nat, busy: bool)
    | Cancel | Bye | Ack

  datatype Event = Arrive(msg: Arrival) | Run(i: nat, env: Env)

  function Start(a: Arrival): Task {
    match a
    case Invite(mailbox) => InviteTask(PutPending, mailbox)
    case InviteUnregistered => DeliveryTask(Track)
    case Final(code, busy) =>
      ResponseTask(code, if busy then BusyCleanup([CancelTimer] + DropAll) else Gate)
    case Cancel => CancelDispatch
    case Bye => ByeDispatch
    case Ack => Straight([CancelTimer])
  }

  function Do(op: Op, sh: Shared): Shared {
    match op
    case CancelTimer => sh.(entry := CancelSlot(sh.entry).0)
    case CallerCancelTimer => sh.(entry := CallerCancelSlot(sh.entry).0)
    case DropPending => sh.(pending := false)
    case DropActive => sh.(active := false)
    case DropRelay => sh.(relay := false)
    case DropWebrtc => sh.(webrtc := false)
    case MarkRecording => sh.(marks := MarkSlot(sh.marks).0)
    case DropVmCall => sh.(vmCall := false)
  }

  function Note(op: Op, sh: Shared, log: Log): Log {
    if op.MarkRecording? && sh.marks.recording then log.(marked := true) else log
  }

  /** The effect of one step: shared state, history, the task itself, a spawned task. */
  datatype Effect = Effect(sh: Shared, log: Log, next: Task, spawned: Option<Task>)

  /** One step of handle_delivery_invite; `next == None` when it returns. */
  datatype Delivery = Delivery(
    marks: Marks, vmCall: bool, tracked: bool, next: Option<DeliveryPc>, spawned: Option<Task>)

  function Deliver(at: DeliveryPc, sh: Shared, env: Env): Delivery {
    match at
    case Track =>
      var (m, tracked) := TrackSlot(sh.marks);
      Delivery(m, sh.vmCall, tracked, if tracked then Some(Prepare) else None, None)
    case Prepare => Delivery(sh.marks, sh.vmCall, false, Some(if env.ok then Admit else Discard), None)
    case Discard => Delivery(Marks(false, false), sh.vmCall, false, None, None)
    case Admit => Delivery(sh.marks, true, false, Some(StartRecorder), None)
    case StartRecorder => Delivery(sh.marks, sh.vmCall, false, None, Some(RecorderTask(false)))
  }

  function Timer(pc: TimerPc, sh: Shared, log: Log, env: Env): Effect {
    match pc
    case Sleeping =>
      var (e, fire) := ClaimSlot(sh.entry);
      Effect(sh.(entry := e), log, if fire then TimerTask(Forget) else Idle, None)
    case Forget => Effect(sh.(pending := false), log, TimerTask(Cleanup([DropActive, DropRelay, DropWebrtc])), None)
    case Cleanup(todo) =>
      if todo == [] then Effect(sh, log, TimerTask(FirstCheck), None)
      else Effect(Do(todo[0], sh), Note(todo[0], sh, log), TimerTask(Cleanup(todo[1..])), None)
    case FirstCheck =>
      Effect(sh, log, TimerTask(if ContinueSlot(sh.entry) then Delivering(Track) else Finishing), None)
    case Delivering(at) =>
      var d := Deliver(at, sh, env);
      Effect(sh.(marks := d.marks, vmCall := d.vmCall), if d.tracked then log.(marked := false) else log,
             TimerTask(if d.next.Some? then Delivering(d.next.value) else SecondCheck), d.spawned)
    case SecondCheck =>
      Effect(sh, log,
             TimerTask(if ContinueSlot(sh.entry) then Sending else Suppress([MarkRecording, DropVmCall])), None)
    case Sending => Effect(sh, log.(vmSent := log.vmSent + 1), TimerTask(Finishing), None)
    case Suppress(ops) =>
      if ops == [] then Effect(sh, log, TimerTask(Finishing), None)
      else Effect(Do(ops[0], sh), Note(ops[0], sh, log), TimerTask(Suppress(ops[1..])), None)
    case Finishing => Effect(sh.(entry := None), log, Idle, None)
  }

  function Response(code: nat, pc: ResponsePc, sh: Shared, log: Log): Effect {
    match pc
    case BusyCleanup(left) =>
      if left == [] then Effect(sh, log, ResponseTask(code, BusyLookup), None)
      else Effect(Do(left[0], sh), Note(left[0], sh, log), ResponseTask(code, BusyCleanup(left[1..])), None)
    case BusyLookup =>
      if sh.pending then Effect(sh, log, DeliveryTask(Track), None)
      else Effect(sh, log, ResponseTask(code, Gate), None)
    case Gate =>
      var (e, r) := CancelSlot(sh.entry);
      if r == AlreadyFired then Effect(sh.(entry := e), log, Straight(DropAll), None)
      else Effect(sh.(entry := e), log, ResponseTask(code, Lookup(!log.installed)), None)
    case Lookup(early) => Effect(sh, log, if sh.pending then ResponseTask(code, Relay(early)) else Idle, None)
    case Relay(early) =>
      Effect(sh, log.(finals := log.finals + 1, lateFinals := if early then log.lateFinals else log.lateFinals + 1),
             Straight([DropPending] + if code >= 300 then [DropRelay, DropWebrtc] else []), None)
  }

  function InviteStep(pc: InvitePc, mailbox: bool, sh: Shared, log: Log, env: Env, newId: nat): Effect {
    match pc
    case PutPending => Effect(sh.(pending := true), log, InviteTask(PutActive, mailbox), None)
    case PutActive => Effect(sh.(active := true), log, InviteTask(Allocate, mailbox), None)
    case Allocate =>
      var sh' := if !env.ok then sh else if env.webrtc then sh.(webrtc := true) else sh.(relay := true);
      Effect(sh', log, if mailbox then InviteTask(Spawn, mailbox) else Idle, None)
    case Spawn => Effect(sh, log, InviteTask(Install(newId), mailbox), Some(TimerTask(Sleeping)))
    case Install(task) => Effect(sh.(entry := Some(Ringing(task))), log.(installed := true), Idle, None)
  }

  function Exec(t: Task, sh: Shared, log: Log, env: Env, newId: nat): Effect {
    match t
    case InviteTask(pc, mailbox) => InviteStep(pc, mailbox, sh, log, env, newId)
    case TimerTask(pc) => Timer(pc, sh, log, env)
    case ResponseTask(code, pc) => Response(code, pc, sh, log)
    case DeliveryTask(at) =>
      var d := Deliver(at, sh, env);
      Effect(sh.(marks := d.marks, vmCall := d.vmCall), if d.tracked then log.(marked := false) else log,
             if d.next.Some? then DeliveryTask(d.next.value) else Idle, d.spawned)
    case RecorderTask(finishing) =>
      if !finishing then Effect(sh.(vmCall := false), log, RecorderTask(true), None)
      else
        var (m, persist) := CompleteSlot(sh.marks);
        var outcome := if env.ok then Decided(Decision(persist, env.secs)) else Failed;
        Effect(sh.(marks := m), log.(outcomes := log.outcomes + [outcome]), Idle, None)
    case CancelDispatch =>
      Effect(sh, log, Straight(if sh.vmCall then VmCancelOps else ProxyCancelOps), None)
    case ByeDispatch =>
      Effect(sh, log, Straight(if sh.vmCall then VmByeOps else ProxyByeOps), None)
    case Straight(rest) =>
      if rest == [] then Effect(sh, log, t, None)
      else Effect(Do(rest[0], sh), Note(rest[0], sh, log), Straight(rest[1..]), None)
  }

  function Apply(s: Sys, i: nat, f: Effect): Sys
    requires i < |s.tasks|
  {
    var moved := s.tasks[i := f.next];
    Sys(f.sh, f.log, if f.spawned.Some? then moved + [f.spawned.value] else moved)
  }

  /** Total: an event that names no task leaves the system as it is. */
  function Step(s: Sys, e: Event): Sys {
    match e
    case Arrive(a) =>
      s.(tasks := s.tasks + [Start(a)],
         log := if a.Invite? then s.log.(invites := s.log.invites + 1) else s.log)
    case Run(i, env) =>
      if i >= |s.tasks| then s
      else
        Apply(s, i, Exec(s.tasks[i], s.sh, s.log, env, |s.tasks|))
  }

  function After(s: Sys, es: seq<Event>): Sys
    decreases |es|
  {
    if es == [] then s else Step(After(s, es[..|es| - 1]), es[|es| - 1])
  }

  // ----- The timer against the callee's responses ---------------------------

  /** The timer task can still get as far as sending its own response. */
  predicate CanSend(t: Task, entry: Option<Entry>) {
    t.TimerTask? &&
    match t.tm
    case Sleeping => entry.Some? && entry.value.Ringing?
    case Finishing => false
    case Suppress(_) => false
    case Sending => true
    case _ => entry == Some(Firing)
  }

  /** The timer is past the point where it forgets the caller. */
  predicate Forgot(t: Task) {
    t.TimerTask? && t.tm != Sleeping && t.tm != Forget
  }

  predicate Inviting(s: Sys, a: int) {
    0 <= a < |s.tasks| && s.tasks[a].InviteTask?
  }

  predicate Timing(s: Sys, b: int) {
    0 <= b < |s.tasks| && s.tasks[b].TimerTask?
  }

  /** Task `a` is the only INVITE handler there may be, task `b` the only timer. */
  predicate Only(s: Sys, a: int, b: int) {
    forall i :: 0 <= i < |s.tasks| ==> (s.tasks[i].InviteTask? ==> i == a) && (s.tasks[i].TimerTask? ==> i == b)
  }

  /** What holds of them as long as one INVITE was handled. */
  predicate OneTimer(s: Sys, a: int, b: int) {
    && Only(s, a, b)
    && (s.log.invites == 0 ==> !Inviting(s, a) && !Timing(s, b) && !s.log.installed)
    && (!s.log.installed ==> s.sh.entry == None)
    && (Inviting(s, a) ==> !s.log.installed && s.log.vmSent == 0 && (!s.tasks[a].inv.Install? ==> !Timing(s, b)))
    && (s.log.vmSent > 0 ==> s.log.installed && !s.sh.pending)
    && (Timing(s, b) ==>
         && (s.tasks[b].tm == Sleeping || s.log.installed)
         && (s.tasks[b].tm != Finishing ==> s.log.vmSent == 0)
         && (Forgot(s.tasks[b]) ==> !s.sh.pending)
         && (s.sh.entry.Some? && s.sh.entry.value.Ringing? ==> s.tasks[b].tm == Sleeping))
    && s.log.vmSent <= 1
  }

  /** No response of the timer has been or will be sent. */
  predicate Harmless(s: Sys, b: int) {
    s.log.installed && s.log.vmSent == 0 && (Timing(s, b) ==> !CanSend(s.tasks[b], s.sh.entry))
  }

  /** A final response that passed its gate after the installation excludes the timer's response. */
  predicate Exclusive(s: Sys, b: int) {
    && (s.log.lateFinals > 0 ==> Harmless(s, b))
    && (forall i :: 0 <= i < |s.tasks| && s.tasks[i].ResponseTask? ==>
         (s.tasks[i].rs == Relay(false) ==> Harmless(s, b)) &&
         (s.tasks[i].rs == Lookup(false) ==> s.log.installed && (s.sh.pending ==> Harmless(s, b))))
  }

  ghost predicate RaceInv(s: Sys) {
    s.log.invites <= 1 ==> exists a, b :: OneTimer(s, a, b) && Exclusive(s, b)
  }

  /** The only ways an entry changes other than by claiming, installing or finishing. */
  predicate Weakened(e: Option<Entry>, e': Option<Entry>) {
    || e' == e
    || (e.Some? && e.value.Ringing? && e' == None)
    || (e == Some(Firing) && e' == Some(Canceled))
  }

  predicate Bystander(t: Task) {
    !t.InviteTask? && !t.TimerTask? && (t.ResponseTask? ==> !t.rs.Lookup? && !t.rs.Relay?)
  }

  /** A step that cannot help either response reach the caller. */
  predicate Calm(s: Sys, f: Effect) {
    && Weakened(s.sh.entry, f.sh.entry)
    && (f.sh.pending ==> s.sh.pending)
    && f.log == s.log.(marked := f.log.marked, outcomes := f.log.outcomes)
    && Bystander(f.next)
    && (f.spawned.Some? ==> Bystander(f.spawned.value))
  }

  lemma CalmRace(s: Sys, a: int, b: int, i: nat, f: Effect)
    requires i < |s.tasks| && Bystander(s.tasks[i]) && Calm(s, f) && OneTimer(s, a, b)
    ensures OneTimer(Apply(s, i, f), a, b)
    ensures Exclusive(s, b) ==> Exclusive(Apply(s, i, f), b)
  {
    var s' := Apply(s, i, f);
    assert Inviting(s', a) ==> Inviting(s, a) && s'.tasks[a] == s.tasks[a];
    assert Timing(s', b) ==> Timing(s, b) && s'.tasks[b] == s.tasks[b];
  }

  lemma InviteRace(s: Sys, a: int, b: int, i: nat, env: Env)
    requires i < |s.tasks| && s.tasks[i].InviteTask? && OneTimer(s, a, b)
    ensures var b' := if s.tasks[i].inv == Spawn then |s.tasks| else b;
            && OneTimer(Step(s, Run(i, env)), a, b')
            && (Exclusive(s, b) ==> Exclusive(Step(s, Run(i, env)), b'))
  {
  }

  /** A timer step between forgetting the caller and sending, finishing excluded. */
  predicate TimerQuiet(s: Sys, t: Task, f: Effect) {
    && Weakened(s.sh.entry, f.sh.entry)
    && (f.sh.pending ==> s.sh.pending)
    && f.log == s.log.(marked := f.log.marked)
    && Forgot(t) && Forgot(f.next) && t.tm != Finishing
    && (CanSend(f.next, f.sh.entry) ==> CanSend(t, s.sh.entry))
    && (f.spawned.Some? ==> Bystander(f.spawned.value))
  }

  lemma QuietRace(s: Sys, a: int, b: int, i: nat, f: Effect)
    requires i < |s.tasks| && TimerQuiet(s, s.tasks[i], f) && OneTimer(s, a, b)
    ensures OneTimer(Apply(s, i, f), a, b)
    ensures Exclusive(s, b) ==> Exclusive(Apply(s, i, f), b)
  {
  }

  predicate Turning(pc: TimerPc) {
    pc in {Sleeping, Forget, Sending, Finishing}
  }

  lemma TurningRace(s: Sys, a: int, b: int, i: nat, env: Env)
    requires i < |s.tasks| && s.tasks[i].TimerTask? && Turning(s.tasks[i].tm) && OneTimer(s, a, b)
    ensures OneTimer(Step(s, Run(i, env)), a, b)
    ensures Exclusive(s, b) ==> Exclusive(Step(s, Run(i, env)), b)
  {
  }

  lemma OpWeakens(op: Op, sh: Shared, log: Log)
    ensures Weakened(sh.entry, Do(op, sh).entry)
    ensures Do(op, sh).pending ==> sh.pending
    ensures Note(op, sh, log) == log.(marked := Note(op, sh, log).marked)
  {
  }

  lemma TimerIsQuiet(s: Sys, t: Task, env: Env)
    requires t.TimerTask? && !Turning(t.tm)
    ensures TimerQuiet(s, t, Timer(t.tm, s.sh, s.log, env))
  {
    match t.tm
    case Cleanup(todo) => if todo != [] { OpWeakens(todo[0], s.sh, s.log); }
    case Suppress(ops) => if ops != [] { OpWeakens(ops[0], s.sh, s.log); }
    case Delivering(at) =>
    case FirstCheck =>
    case SecondCheck =>
  }

  predicate Deciding(t: Task) {
    t.ResponseTask? && (t.rs.Gate? || t.rs.Lookup? || t.rs.Relay?)
  }

  lemma ResponseRace(s: Sys, a: int, b: int, i: nat, env: Env)
    requires i < |s.tasks| && Deciding(s.tasks[i]) && OneTimer(s, a, b)
    ensures var s' := Step(s, Run(i, env));
            && OneTimer(s', a, b)
            && (Exclusive(s, b) ==> Exclusive(s', b))
  {
    var s' := Step(s, Run(i, env));
    assert Inviting(s', a) ==> Inviting(s, a) && s'.tasks[a] == s.tasks[a];
    assert Timing(s', b) ==> Timing(s, b) && s'.tasks[b] == s.tasks[b];
  }

  lemma OthersAreCalm(s: Sys, t: Task, env: Env, newId: nat)
    requires Bystander(t) && !Deciding(t)
    ensures Calm(s, Exec(t, s.sh, s.log, env, newId))
  {
    match t
    case Straight(rest) => if rest != [] { OpWeakens(rest[0], s.sh, s.log); }
    case ResponseTask(code, pc) =>
      if pc.BusyCleanup? && pc.left != [] { OpWeakens(pc.left[0], s.sh, s.log); }
    case _ =>
  }

  lemma RunRace(s: Sys, a: int, b: int, i: nat, env: Env) returns (b': int)
    requires i < |s.tasks| && OneTimer(s, a, b)
    ensures var s' := Step(s, Run(i, env));
            && OneTimer(s', a, b')
            && (Exclusive(s, b) ==> Exclusive(s', b'))
  {
    var t := s.tasks[i];
    b' := b;
    if t.InviteTask? {
      InviteRace(s, a, b, i, env);
      b' := if t.inv == Spawn then |s.tasks| else b;
    } else if t.TimerTask? {
      if Turning(t.tm) {
        TurningRace(s, a, b, i, env);
      } else {
        TimerIsQuiet(s, t, env);
        QuietRace(s, a, b, i, Timer(t.tm, s.sh, s.log, env));
      }
    } else if Deciding(t) {
      ResponseRace(s, a, b, i, env);
    } else {
      OthersAreCalm(s, t, env, |s.tasks|);
      CalmRace(s, a, b, i, Exec(t, s.sh, s.log, env, |s.tasks|));
    }
  }

  /** The log of one step of a task, where the invariants need it. */
  predicate Grows(l: Log, l': Log) {
    l.invites == l'.invites && (l.installed ==> l'.installed)
  }

  lemma LogGrows(t: Task, sh: Shared, log: Log, env: Env, newId: nat)
    ensures Grows(log, Exec(t, sh, log, env, newId).log)
  {
    match t
    case InviteTask(pc, mailbox) =>
    case TimerTask(pc) =>
    case ResponseTask(code, pc) =>
    case _ =>
  }

  lemma ArriveRace(s: Sys, a: int, b: int, m: Arrival) returns (a': int, b': int)
    requires OneTimer(s, a, b) && Step(s, Arrive(m)).log.invites <= 1
    ensures var s' := Step(s, Arrive(m));
            && OneTimer(s', a', b')
            && (Exclusive(s, b) ==> Exclusive(s', b'))
  {
    a' := if m.Invite? then |s.tasks| else if a == |s.tasks| then -1 else a;
    b' := if b == |s.tasks| then -1 else b;
    var s' := Step(s, Arrive(m));
    assert Timing(s', b') ==> Timing(s, b) && s'.tasks[b] == s.tasks[b];
    assert !m.Invite? && Inviting(s', a') ==> Inviting(s, a) && s'.tasks[a] == s.tasks[a];
  }

  lemma RaceStep(s: Sys, e: Event)
    requires RaceInv(s)
    ensures RaceInv(Step(s, e))
  {
    match e
    case Arrive(m) =>
      if Step(s, e).log.invites <= 1 {
        var a, b :| OneTimer(s, a, b) && Exclusive(s, b);
        var a', b' := ArriveRace(s, a, b, m);
      }
    case Run(i, env) =>
      if i < |s.tasks| {
        LogGrows(s.tasks[i], s.sh, s.log, env, |s.tasks|);
        if s.log.invites <= 1 {
          var a, b :| OneTimer(s, a, b) && Exclusive(s, b);
          var b' := RunRace(s, a, b, i, env);
        }
      }
  }

  lemma {:induction false} RaceRun(es: seq<Event>)
    ensures RaceInv(After(Init, es))
    decreases |es|
  {
    if es == [] {
      assert OneTimer(Init, -1, -1) && Exclusive(Init, -1);
    } else {
      RaceRun(es[..|es| - 1]);
      RaceStep(After(Init, es[..|es| - 1]), es[|es| - 1]);
    }
  }

  /**
    However the tasks interleave, a Call-ID that was INVITEd once gets at most
    one response from its timer, and never both that and a final response of the
    callee that passed its gate after the timer entry was installed.
   */
  lemma NeverBothResponses(es: seq<Event>)
    requires After(Init, es).log.invites <= 1
    ensures After(Init, es).log.vmSent <= 1
    ensures After(Init, es).log.lateFinals > 0 ==> After(Init, es).log.vmSent == 0
  {
    RaceRun(es);
  }

  // ----- The caller's CANCEL ------------------------------------------------

  predicate Suppressed(s: Sys) {
    && s.log.installed && s.log.vmSent == 0
    && (s.sh.entry == None || s.sh.entry == Some(Canceled))
    && forall i :: 0 <= i < |s.tasks| ==> !s.tasks[i].InviteTask? && s.tasks[i] != TimerTask(Sending)
  }

  /** How one step of task `t` moves the timer entry and the timer tasks. */
  predicate Moves(s: Sys, t: Task, f: Effect) {
    && (|| Weakened(s.sh.entry, f.sh.entry)
        || (t == TimerTask(Sleeping) && ClaimSlot(s.sh.entry) == (f.sh.entry, true))
        || (t == TimerTask(Finishing) && f.sh.entry == None)
        || (t.InviteTask? && t.inv.Install?))
    && (f.log.vmSent == s.log.vmSent || t == TimerTask(Sending))
    && (f.next == TimerTask(Sending) ==> s.sh.entry == Some(Firing))
    && (f.next.InviteTask? ==> t.InviteTask?)
    && (f.spawned.Some? ==> !f.spawned.value.InviteTask? && f.spawned.value != TimerTask(Sending))
  }

  lemma EntryMoves(s: Sys, t: Task, env: Env, newId: nat)
    ensures Moves(s, t, Exec(t, s.sh, s.log, env, newId))
    ensures Grows(s.log, Exec(t, s.sh, s.log, env, newId).log)
  {
    LogGrows(t, s.sh, s.log, env, newId);
    match t
    case InviteTask(pc, mailbox) =>
    case TimerTask(pc) => if !Turning(pc) { TimerIsQuiet(s, t, env); }
    case _ => if !Deciding(t) { OthersAreCalm(s, t, env, newId); }
  }

  /** Nothing but claiming a ringing timer makes it fire. */
  lemma FiringOnlyFromRinging(s: Sys, e: Event)
    requires Step(s, e).sh.entry == Some(Firing) && s.sh.entry != Some(Firing)
    ensures s.sh.entry.Some? && s.sh.entry.value.Ringing?
    ensures e.Run? && e.i < |s.tasks| && s.tasks[e.i] == TimerTask(Sleeping)
  {
    if e.Run? && e.i < |s.tasks| {
      EntryMoves(s, s.tasks[e.i], e.env, |s.tasks|);
    }
  }

  lemma SuppressedStep(s: Sys, e: Event)
    requires Suppressed(s) && !(e.Arrive? && e.msg.Invite?)
    ensures Suppressed(Step(s, e))
  {
    if e.Run? && e.i < |s.tasks| {
      EntryMoves(s, s.tasks[e.i], e.env, |s.tasks|);
    }
  }

  lemma InvitesGrow(s: Sys, e: Event)
    ensures Step(s, e).log.invites == s.log.invites + if e.Arrive? && e.msg.Invite? then 1 else 0
  {
    if e.Run? && e.i < |s.tasks| {
      LogGrows(s.tasks[e.i], s.sh, s.log, e.env, |s.tasks|);
    }
  }

  lemma {:induction false} SuppressedRun(s: Sys, es: seq<Event>)
    requires Suppressed(s) && s.log.invites >= 1 && After(s, es).log.invites <= 1
    ensures Suppressed(After(s, es)) && After(s, es).log.invites == 1
    decreases |es|
  {
    if es != [] {
      var before := After(s, es[..|es| - 1]);
      InvitesGrow(before, es[|es| - 1]);
      SuppressedRun(s, es[..|es| - 1]);
      SuppressedStep(before, es[|es| - 1]);
    }
  }

  /** Task `i` is a proxied CANCEL about to take the timer lock. */
  predicate CancelsNext(s: Sys, i: nat) {
    i < |s.tasks| && s.tasks[i].Straight? && s.tasks[i].rest != [] && s.tasks[i].rest[0] == CallerCancelTimer
  }

  /** The timer task has been told to go ahead by its second check. */
  predicate PastSecondCheck(s: Sys) {
    s.log.vmSent > 0 || TimerTask(Sending) in s.tasks
  }

  lemma CancelSuppresses(s: Sys, i: nat, env: Env)
    requires RaceInv(s) && s.log.invites <= 1 && s.log.installed
    requires CancelsNext(s, i) && !PastSecondCheck(s)
    ensures Suppressed(Step(s, Run(i, env))) && s.log.invites == 1
  {
    var a, b :| OneTimer(s, a, b);
    assert !Inviting(s, a);
  }

  /**
    A proxied CANCEL that takes the timer lock after installation and before the
    second check keeps the timer from ever sending, whatever else happens before
    or after it.
   */
  lemma CallerCancelSuppresses(before: seq<Event>, i: nat, env: Env, after: seq<Event>)
    requires After(After(Init, before + [Run(i, env)]), after).log.invites <= 1
    requires After(Init, before).log.installed && !PastSecondCheck(After(Init, before))
    requires CancelsNext(After(Init, before), i)
    ensures After(After(Init, before + [Run(i, env)]), after).log.vmSent == 0
  {
    var s := After(Init, before);
    assert (before + [Run(i, env)])[..|before|] == before;
    var s' := Step(s, Run(i, env));
    InvitesMonotone(s', after);
    InvitesGrow(s, Run(i, env));
    RaceRun(before);
    CancelSuppresses(s, i, env);
    SuppressedRun(s', after);
  }

  lemma {:induction false} InvitesMonotone(s: Sys, es: seq<Event>)
    ensures After(s, es).log.invites >= s.log.invites
    decreases |es|
  {
    if es != [] {
      InvitesMonotone(s, es[..|es| - 1]);
      InvitesGrow(After(s, es[..|es| - 1]), es[|es| - 1]);
    }
  }
}
