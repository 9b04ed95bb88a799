/**
  The dialog and media entries of one Call-ID when handlers interleave lock by
  lock: from which states on a pending dialog or a media session can be left
  behind without an active dialog, and from which it cannot.
 */
module CallTables {
  import opened Options
  import opened VoicemailState
  import opened CallRace
  import opened TimerOutcomes

  predicate IsDrop(op: Op) {
    op.DropPending? || op.DropActive? || op.DropRelay? || op.DropWebrtc?
  }

  /** Whether the entry that `op` drops is there. */
  predicate Entered(sh: Shared, op: Op) {
    match op
    case DropPending => sh.pending
    case DropActive => sh.active
    case DropRelay => sh.relay
    case DropWebrtc => sh.webrtc
    case _ => false
  }

  /** The lock steps the task has begun on and will take without looking at anything else. */
  function Owed(t: Task): seq<Op> {
    match t
    case Straight(rest) => rest
    case TimerTask(Forget) => DropAll
    case TimerTask(Cleanup(todo)) => todo
    case TimerTask(Suppress(ops)) => ops
    case ResponseTask(_, BusyCleanup(left)) => left
    case _ => []
  }

  predicate Owes(ts: seq<Task>, op: Op) {
    exists i :: 0 <= i < |ts| && op in Owed(ts[i])
  }

  /** The entry is there and no task is going to drop it. */
  predicate Left(s: Sys, op: Op) {
    Entered(s.sh, op) && !Owes(s.tasks, op)
  }

  /** A pending dialog or media session will be left, the active dialog will not. */
  predicate Orphans(s: Sys) {
    !Left(s, DropActive) && (Left(s, DropPending) || Left(s, DropRelay) || Left(s, DropWebrtc))
  }

  /** An INVITE handler has yet to make one of its entries. */
  predicate Entering(t: Task) {
    t.InviteTask? && (t.inv == PutPending || t.inv == PutActive || t.inv == Allocate)
  }

  predicate Open(s: Sys) {
    exists i :: 0 <= i < |s.tasks| && Entering(s.tasks[i])
  }

  predicate DropsNothing(t: Task) {
    forall i :: 0 <= i < |Owed(t)| ==> !IsDrop(Owed(t)[i])
  }

  /** No INVITE handler is running and nothing is about to be dropped. */
  predicate Quiet(s: Sys) {
    forall i :: 0 <= i < |s.tasks| ==> !s.tasks[i].InviteTask? && DropsNothing(s.tasks[i])
  }

  predicate Consistent(sh: Shared) {
    sh.pending || sh.relay || sh.webrtc ==> sh.active
  }

  // ----- What one step does to what is left ------------------------------------------

  function Tables(sh: Shared): (bool, bool, bool, bool) {
    (sh.pending, sh.active, sh.relay, sh.webrtc)
  }

  /** The task takes the first of the steps it owes. */
  predicate Pays(sh: Shared, t: Task, f: Effect) {
    Owed(t) != [] && Owed(f.next) == Owed(t)[1..] && f.spawned == None && Tables(f.sh) == Tables(Do(Owed(t)[0], sh))
  }

  /** The task owes the drop of every entry, or not that of the active dialog. */
  predicate Whole(t: Task) {
    DropActive in Owed(t) ==> DropPending in Owed(t) && DropRelay in Owed(t) && DropWebrtc in Owed(t)
  }

  /** Whoever drops the active dialog drops something else after it. */
  predicate Ends(t: Task) {
    DropActive in Owed(t) ==> Owed(t)[|Owed(t)| - 1] == DropWebrtc
  }

  /** The task comes to owe something, or nothing happens to the tables at all. */
  predicate Borrows(sh: Shared, t: Task, f: Effect) {
    && Owed(t) == [] && Whole(f.next) && Ends(f.next) && Tables(f.sh) == Tables(sh)
    && (f.spawned.Some? ==> Owed(f.spawned.value) == [] && !f.spawned.value.InviteTask?)
  }

  lemma WholeAll(t: Task)
    requires Owed(t) == DropAll
    ensures Whole(t) && Ends(t)
  {
    assert DropAll[0] == DropPending && DropAll[2] == DropRelay && DropAll[3] == DropWebrtc;
  }

  /** The lists a dispatched CANCEL or BYE starts with. */
  lemma WholeLists()
    ensures Whole(Straight(ProxyCancelOps)) && Whole(Straight(ProxyByeOps))
    ensures Whole(Straight(VmCancelOps)) && Whole(Straight(VmByeOps))
    ensures Ends(Straight(ProxyCancelOps)) && Ends(Straight(ProxyByeOps))
    ensures Ends(Straight(VmCancelOps)) && Ends(Straight(VmByeOps))
  {
    var c, b := ProxyCancelOps, ProxyByeOps;
    assert c[1] == DropPending && c[3] == DropRelay && c[4] == DropWebrtc;
    assert b[2] == DropPending && b[3] == DropRelay && b[4] == DropWebrtc;
  }

  lemma WholeBusy(code: nat)
    ensures var t := ResponseTask(code, BusyCleanup([CancelTimer] + DropAll)); Whole(t) && Ends(t)
  {
    var r := [CancelTimer] + DropAll;
    assert r[1] == DropPending && r[3] == DropRelay && r[4] == DropWebrtc;
  }

  lemma PayStep(t: Task, sh: Shared, log: Log, env: Env, newId: nat)
    requires Owed(t) != []
    ensures Pays(sh, t, Exec(t, sh, log, env, newId)) && !Exec(t, sh, log, env, newId).next.InviteTask?
  {
    assert DropAll[1..] == [DropActive, DropRelay, DropWebrtc];
  }

  lemma TimerBorrows(pc: TimerPc, sh: Shared, log: Log, env: Env)
    requires Owed(TimerTask(pc)) == []
    ensures Borrows(sh, TimerTask(pc), Timer(pc, sh, log, env)) && !Timer(pc, sh, log, env).next.InviteTask?
  {
    match pc
    case Sleeping => WholeAll(TimerTask(Forget));
    case SecondCheck => assert DropActive !in [MarkRecording, DropVmCall];
    case _ =>
  }

  lemma ResponseBorrows(code: nat, pc: ResponsePc, sh: Shared, log: Log)
    requires Owed(ResponseTask(code, pc)) == []
    ensures Borrows(sh, ResponseTask(code, pc), Response(code, pc, sh, log))
    ensures !Response(code, pc, sh, log).next.InviteTask?
  {
    match pc
    case Gate => WholeAll(Straight(DropAll));
    case Relay(_) => assert DropActive !in [DropPending] + (if code >= 300 then [DropRelay, DropWebrtc] else []);
    case _ =>
  }

  lemma StepMoves(t: Task, sh: Shared, log: Log, env: Env, newId: nat)
    requires !Entering(t)
    ensures var f := Exec(t, sh, log, env, newId);
            && (Pays(sh, t, f) || Borrows(sh, t, f))
            && (f.next.InviteTask? ==> t.InviteTask? && !Entering(f.next))
  {
    if Owed(t) != [] {
      PayStep(t, sh, log, env, newId);
    } else {
      match t
      case TimerTask(pc) => TimerBorrows(pc, sh, log, env);
      case ResponseTask(code, pc) => ResponseBorrows(code, pc, sh, log);
      case CancelDispatch => WholeLists();
      case ByeDispatch => WholeLists();
      case _ =>
    }
  }

  lemma OwesPaid(ts: seq<Task>, i: nat, t: Task, op: Op)
    requires i < |ts| && Owed(ts[i]) != [] && Owed(t) == Owed(ts[i])[1..]
    ensures Owes(ts, op) <==> Owed(ts[i])[0] == op || Owes(ts[i := t], op)
  {
    var ts' := ts[i := t];
    assert Owed(ts[i]) == [Owed(ts[i])[0]] + Owed(t);
    if Owes(ts, op) {
      var k :| 0 <= k < |ts| && op in Owed(ts[k]);
      assert k != i ==> op in Owed(ts'[k]);
      assert k == i && Owed(ts[i])[0] != op ==> op in Owed(ts'[i]);
    }
    if Owes(ts', op) {
      var k :| 0 <= k < |ts'| && op in Owed(ts'[k]);
      assert op in Owed(ts[k]);
    }
    if Owed(ts[i])[0] == op {
      assert op in Owed(ts[i]);
    }
  }

  lemma PaidLeft(s: Sys, i: nat, f: Effect, op: Op)
    requires i < |s.tasks| && Pays(s.sh, s.tasks[i], f) && IsDrop(op)
    ensures Left(Apply(s, i, f), op) == Left(s, op)
  {
    OwesPaid(s.tasks, i, f.next, op);
    assert Entered(f.sh, op) == (Entered(s.sh, op) && Owed(s.tasks[i])[0] != op);
  }

  /** What the tasks owe after one of them, which owed nothing, moved on. */
  lemma OwesBorrowed(s: Sys, i: nat, f: Effect, op: Op)
    requires i < |s.tasks| && Borrows(s.sh, s.tasks[i], f)
    ensures Owes(Apply(s, i, f).tasks, op) <==> Owes(s.tasks, op) || op in Owed(f.next)
  {
    var ts' := Apply(s, i, f).tasks;
    if Owes(s.tasks, op) {
      var k :| 0 <= k < |s.tasks| && op in Owed(s.tasks[k]);
      assert op in Owed(ts'[k]);
    }
    if op in Owed(f.next) {
      assert op in Owed(ts'[i]);
    }
    if Owes(ts', op) {
      var k :| 0 <= k < |ts'| && op in Owed(ts'[k]);
      assert k < |s.tasks|;
      assert k != i ==> op in Owed(s.tasks[k]);
    }
  }

  lemma BorrowKeeps(s: Sys, i: nat, f: Effect)
    requires i < |s.tasks| && Borrows(s.sh, s.tasks[i], f) && !Orphans(s)
    ensures !Orphans(Apply(s, i, f))
  {
    OwesBorrowed(s, i, f, DropPending);
    OwesBorrowed(s, i, f, DropActive);
    OwesBorrowed(s, i, f, DropRelay);
    OwesBorrowed(s, i, f, DropWebrtc);
  }

  lemma PayKeeps(s: Sys, i: nat, f: Effect)
    requires i < |s.tasks| && Pays(s.sh, s.tasks[i], f)
    ensures Orphans(Apply(s, i, f)) == Orphans(s)
  {
    PaidLeft(s, i, f, DropPending);
    PaidLeft(s, i, f, DropActive);
    PaidLeft(s, i, f, DropRelay);
    PaidLeft(s, i, f, DropWebrtc);
  }

  lemma OwesArrived(ts: seq<Task>, t: Task, op: Op)
    ensures Owes(ts + [t], op) <==> Owes(ts, op) || op in Owed(t)
  {
    var ts' := ts + [t];
    if Owes(ts, op) {
      var k :| 0 <= k < |ts| && op in Owed(ts[k]);
      assert op in Owed(ts'[k]);
    }
    if op in Owed(t) {
      assert op in Owed(ts'[|ts|]);
    }
    if Owes(ts', op) {
      var k :| 0 <= k < |ts'| && op in Owed(ts'[k]);
      assert k < |ts| ==> op in Owed(ts[k]);
    }
  }

  lemma ArrivalWhole(a: Arrival)
    ensures Whole(Start(a)) && Ends(Start(a)) && (!a.Invite? ==> !Start(a).InviteTask?)
  {
    match a
    case Final(code, busy) => WholeBusy(code);
    case _ =>
  }

  lemma ArriveKeeps(s: Sys, a: Arrival)
    requires !Orphans(s)
    ensures !Orphans(Step(s, Arrive(a)))
  {
    ArrivalWhole(a);
    OwesArrived(s.tasks, Start(a), DropPending);
    OwesArrived(s.tasks, Start(a), DropActive);
    OwesArrived(s.tasks, Start(a), DropRelay);
    OwesArrived(s.tasks, Start(a), DropWebrtc);
  }

  // ----- Once the INVITE has made its entries --------------------------------------------

  lemma ClosedStep(s: Sys, e: Event)
    requires !Open(s) && !Orphans(s) && !(e.Arrive? && e.msg.Invite?)
    ensures !Open(Step(s, e)) && !Orphans(Step(s, e))
  {
    match e
    case Arrive(a) =>
      ArrivalWhole(a);
      ArriveKeeps(s, a);
    case Run(i, env) =>
      if i < |s.tasks| {
        var f := Exec(s.tasks[i], s.sh, s.log, env, |s.tasks|);
        StepMoves(s.tasks[i], s.sh, s.log, env, |s.tasks|);
        if Pays(s.sh, s.tasks[i], f) {
          PayKeeps(s, i, f);
        } else {
          BorrowKeeps(s, i, f);
        }
      }
  }

  lemma {:induction false} ClosedRun(s: Sys, es: seq<Event>)
    requires !Open(s) && !Orphans(s) && NoInvite(es)
    ensures !Open(After(s, es)) && !Orphans(After(s, es))
    decreases |es|
  {
    if es != [] {
      ClosedRun(s, es[..|es| - 1]);
      ClosedStep(After(s, es[..|es| - 1]), es[|es| - 1]);
    }
  }

  lemma QuietOwesNothing(s: Sys, op: Op)
    requires Quiet(s) && IsDrop(op)
    ensures Left(s, op) == Entered(s.sh, op)
  {
  }

  lemma QuietConsistent(s: Sys)
    requires Quiet(s)
    ensures Consistent(s.sh) <==> !Orphans(s)
  {
    QuietOwesNothing(s, DropPending);
    QuietOwesNothing(s, DropActive);
    QuietOwesNothing(s, DropRelay);
    QuietOwesNothing(s, DropWebrtc);
  }

  // ----- Carrying out what is owed -------------------------------------------------------

  /** Steps until the task owes nothing; an INVITE handler that still makes entries waits. */
  function WorkOf(t: Task): nat {
    |Owed(t)| + if t.InviteTask? then (if t.inv == Spawn then 2 else if t.inv.Install? then 1 else 0) else 0
  }

  function Work(ts: seq<Task>): nat {
    if ts == [] then 0 else Work(ts[..|ts| - 1]) + WorkOf(ts[|ts| - 1])
  }

  lemma {:induction false} WorkMoved(ts: seq<Task>, i: nat, t: Task)
    requires i < |ts|
    ensures Work(ts[i := t]) + WorkOf(ts[i]) == Work(ts) + WorkOf(t)
    decreases |ts|
  {
    var n := |ts| - 1;
    if i < n {
      WorkMoved(ts[..n], i, t);
      assert ts[i := t][..n] == ts[..n][i := t];
    } else {
      assert ts[i := t][..n] == ts[..n];
    }
  }

  lemma {:induction false} SomeWork(ts: seq<Task>) returns (i: nat)
    requires Work(ts) > 0
    ensures i < |ts| && WorkOf(ts[i]) > 0
    decreases |ts|
  {
    i := |ts| - 1;
    if WorkOf(ts[i]) == 0 {
      i := SomeWork(ts[..i]);
    }
  }

  lemma {:induction false} NoWork(ts: seq<Task>, i: nat)
    requires Work(ts) == 0 && i < |ts|
    ensures WorkOf(ts[i]) == 0
    decreases |ts|
  {
    if i < |ts| - 1 {
      NoWork(ts[..|ts| - 1], i);
    }
  }

  /** `s'` has the entries that `s` leaves, and the same INVITE handlers making entries. */
  ghost predicate Settles(s: Sys, s': Sys) {
    && (forall op :: IsDrop(op) ==> Left(s', op) == Left(s, op))
    && |s'.tasks| >= |s.tasks|
    && (forall i :: 0 <= i < |s'.tasks| && Entering(s'.tasks[i]) ==> i < |s.tasks| && s.tasks[i] == s'.tasks[i])
    && (forall i :: 0 <= i < |s.tasks| && Entering(s.tasks[i]) ==> s'.tasks[i] == s.tasks[i])
  }

  lemma SettlesTogether(s: Sys, s': Sys, s'': Sys)
    requires Settles(s, s') && Settles(s', s'')
    ensures Settles(s, s'')
  {
  }

  lemma SettlePaying(s: Sys, i: nat)
    requires i < |s.tasks| && Owed(s.tasks[i]) != []
    ensures var s' := Step(s, Run(i, Yes)); Settles(s, s') && Work(s'.tasks) < Work(s.tasks)
  {
    var f := Exec(s.tasks[i], s.sh, s.log, Yes, |s.tasks|);
    PayStep(s.tasks[i], s.sh, s.log, Yes, |s.tasks|);
    WorkMoved(s.tasks, i, f.next);
    forall op | IsDrop(op) ensures Left(Apply(s, i, f), op) == Left(s, op) {
      PaidLeft(s, i, f, op);
    }
  }

  lemma SettleInvite(s: Sys, i: nat)
    requires i < |s.tasks| && s.tasks[i].InviteTask? && WorkOf(s.tasks[i]) > 0
    ensures var s' := Step(s, Run(i, Yes)); Settles(s, s') && Work(s'.tasks) < Work(s.tasks)
  {
    var f := Exec(s.tasks[i], s.sh, s.log, Yes, |s.tasks|);
    StepMoves(s.tasks[i], s.sh, s.log, Yes, |s.tasks|);
    WorkMoved(s.tasks, i, f.next);
    forall op | IsDrop(op) ensures Left(Apply(s, i, f), op) == Left(s, op) {
      OwesBorrowed(s, i, f, op);
    }
    if f.spawned.Some? {
      var moved := s.tasks[i := f.next];
      assert (moved + [f.spawned.value])[..|moved|] == moved;
    }
  }

  lemma SettleOne(s: Sys, i: nat)
    requires i < |s.tasks| && WorkOf(s.tasks[i]) > 0
    ensures var s' := Step(s, Run(i, Yes)); Settles(s, s') && Work(s'.tasks) < Work(s.tasks)
  {
    if Owed(s.tasks[i]) != [] {
      SettlePaying(s, i);
    } else {
      SettleInvite(s, i);
    }
  }

  /** The tasks carry out what they owe, and nothing else happens. */
  lemma {:induction false} Settle(s: Sys) returns (es: seq<Event>)
    ensures NoInvite(es) && Settles(s, After(s, es)) && Work(After(s, es).tasks) == 0
    decreases Work(s.tasks)
  {
    if Work(s.tasks) == 0 {
      es := [];
    } else {
      var i := SomeWork(s.tasks);
      SettleOne(s, i);
      var s' := Step(s, Run(i, Yes));
      var more := Settle(s');
      AfterOne(s, Run(i, Yes), more);
      SettlesTogether(s, s', After(s', more));
      es := [Run(i, Yes)] + more;
    }
  }

  lemma NoWorkIsQuiet(s: Sys)
    requires Work(s.tasks) == 0 && !Open(s)
    ensures Quiet(s)
  {
    forall i | 0 <= i < |s.tasks| ensures !s.tasks[i].InviteTask? && DropsNothing(s.tasks[i]) {
      NoWork(s.tasks, i);
    }
  }

  /** Every continuation without another INVITE that comes to rest is consistent there. */
  ghost predicate AlwaysConsistent(s: Sys) {
    forall es :: NoInvite(es) && Quiet(After(s, es)) ==> Consistent(After(s, es).sh)
  }

  lemma OrphansCanStay(s: Sys)
    requires !Open(s) && Orphans(s)
    ensures !AlwaysConsistent(s)
  {
    var es := Settle(s);
    var s' := After(s, es);
    NoWorkIsQuiet(s');
    QuietConsistent(s');
    assert Orphans(s');
  }

  // ----- While the INVITE still makes entries ----------------------------------------------

  predicate OneEntering(s: Sys) {
    forall i, j :: 0 <= i < |s.tasks| && 0 <= j < |s.tasks| && Entering(s.tasks[i]) && Entering(s.tasks[j]) ==> i == j
  }

  /** What an unsafe continuation makes of a state, it makes of the state before it. */
  lemma UnsafeBefore(s: Sys, es: seq<Event>)
    requires NoInvite(es) && !AlwaysConsistent(After(s, es))
    ensures !AlwaysConsistent(s)
  {
    var s' := After(s, es);
    var more :| NoInvite(more) && Quiet(After(s', more)) && !Consistent(After(s', more).sh);
    AfterConcat(s, es, more);
    assert NoInvite(es + more);
  }

  lemma {:induction false} ReachAllocate(s: Sys, j: nat) returns (es: seq<Event>)
    requires j < |s.tasks| && Entering(s.tasks[j]) && OneEntering(s)
    ensures NoInvite(es)
    ensures var s' := After(s, es);
            j < |s'.tasks| && s'.tasks[j].InviteTask? && s'.tasks[j].inv == Allocate && OneEntering(s')
    decreases if s.tasks[j].inv == PutPending then 2 else if s.tasks[j].inv == PutActive then 1 else 0
  {
    if s.tasks[j].inv == Allocate {
      es := [];
    } else {
      var more := ReachAllocate(Step(s, Run(j, Yes)), j);
      AfterOne(s, Run(j, Yes), more);
      es := [Run(j, Yes)] + more;
    }
  }

  /** All entries are dropped by a late handler, then media is allocated. */
  lemma AllocatesLate(s: Sys, j: nat)
    requires j < |s.tasks| && s.tasks[j].InviteTask? && s.tasks[j].inv == Allocate && OneEntering(s)
    requires Work(s.tasks) == 0 && !s.sh.active
    ensures !AlwaysConsistent(s)
  {
    var s' := Step(s, Run(j, Yes));
    forall i | 0 <= i < |s.tasks| ensures Owed(s.tasks[i]) == [] {
      NoWork(s.tasks, i);
    }
    assert Left(s', DropRelay) && !Left(s', DropActive);
    OrphansCanStay(s');
    assert After(s, [Run(j, Yes)]) == s' by {
      AfterOne(s, Run(j, Yes), []);
      assert [Run(j, Yes)] + [] == [Run(j, Yes)];
    }
    UnsafeBefore(s, [Run(j, Yes)]);
  }

  /** A busy response drops every entry while the INVITE is about to allocate media. */
  lemma DropsBeforeAllocate(s: Sys, j: nat)
    requires j < |s.tasks| && s.tasks[j].InviteTask? && s.tasks[j].inv == Allocate && OneEntering(s)
    ensures !AlwaysConsistent(s)
  {
    var busy := Arrive(Final(486, true));
    var s1 := Step(s, busy);
    assert !Left(s1, DropActive) by {
      assert Owed(s1.tasks[|s.tasks|])[2] == DropActive;
    }
    var more := Settle(s1);
    NoWorkOwed(After(s1, more), DropActive);
    AllocatesLate(After(s1, more), j);
    AfterOne(s, busy, more);
    UnsafeBefore(s, [busy] + more);
  }

  lemma OpenIsUnsafe(s: Sys)
    requires Open(s) && OneEntering(s)
    ensures !AlwaysConsistent(s)
  {
    var j :| 0 <= j < |s.tasks| && Entering(s.tasks[j]);
    var es := ReachAllocate(s, j);
    DropsBeforeAllocate(After(s, es), j);
    UnsafeBefore(s, es);
  }

  lemma NoWorkOwed(s: Sys, op: Op)
    requires Work(s.tasks) == 0
    ensures Left(s, op) == Entered(s.sh, op)
  {
    if Owes(s.tasks, op) {
      var k :| 0 <= k < |s.tasks| && op in Owed(s.tasks[k]);
      NoWork(s.tasks, k);
      assert false;
    }
  }

  /**
    From a state with at most one INVITE handler making entries, every
    continuation that comes to rest has its pending dialog and media sessions
    under an active dialog exactly when that handler is past its last entry and
    the steps now owed do not drop the active dialog and leave something else.
   */
  lemma ConsistentExactly(s: Sys)
    requires OneEntering(s)
    ensures AlwaysConsistent(s) <==> !Open(s) && !Orphans(s)
  {
    if Open(s) {
      OpenIsUnsafe(s);
    } else if Orphans(s) {
      OrphansCanStay(s);
    } else {
      forall es | NoInvite(es) && Quiet(After(s, es)) ensures Consistent(After(s, es).sh) {
        ClosedRun(s, es);
        QuietConsistent(After(s, es));
      }
    }
  }

  // ----- Runs in which nobody is halfway through ---------------------------------------------

  /** Task `i` has taken a drop step of the list it is working on. */
  predicate Begun(es: seq<Event>, i: nat)
    decreases |es|
  {
    if es == [] then false
    else
      var before, e := es[..|es| - 1], es[|es| - 1];
      var ts := After(Init, before).tasks;
      if e.Run? && e.i == i && i < |ts| then Owed(ts[i]) != [] && (IsDrop(Owed(ts[i])[0]) || Begun(before, i))
      else Begun(before, i)
  }

  /** It has begun to drop entries and has not finished. */
  predicate Halfway(es: seq<Event>, i: nat) {
    Begun(es, i) && i < |After(Init, es).tasks| && !DropsNothing(After(Init, es).tasks[i])
  }

  lemma PaidShape(t: Task, next: Task)
    requires Owed(t) != [] && Owed(next) == Owed(t)[1..] && Ends(t)
    ensures Ends(next)
    ensures Whole(t) && !IsDrop(Owed(t)[0]) ==> Whole(next)
    ensures Owed(t)[0] == DropActive ==> !DropsNothing(next)
  {
    var ops := Owed(t);
    assert ops == [ops[0]] + ops[1..];
    if ops[0] == DropActive {
      assert DropActive in ops;
      assert ops[1..][|ops| - 2] == DropWebrtc;
    }
  }

  lemma StepShape(s: Sys, e: Event, i: nat, begun: bool)
    requires i < |Step(s, e).tasks|
    requires i < |s.tasks| ==> Ends(s.tasks[i]) && (Whole(s.tasks[i]) || begun)
    ensures var t' := Step(s, e).tasks[i];
            && Ends(t')
            && (Whole(t') || (if e.Run? && e.i == i && i < |s.tasks|
                              then Owed(s.tasks[i]) != [] && (IsDrop(Owed(s.tasks[i])[0]) || begun) else begun))
  {
    match e
    case Arrive(a) => ArrivalWhole(a);
    case Run(j, env) =>
      if j < |s.tasks| {
        var t := s.tasks[j];
        var f := Exec(t, s.sh, s.log, env, |s.tasks|);
        if !Entering(t) {
          StepMoves(t, s.sh, s.log, env, |s.tasks|);
          if i == j && Pays(s.sh, t, f) {
            PaidShape(t, f.next);
          }
        }
      }
  }

  /** In every run a task that has not begun its list still has all of it. */
  lemma {:induction false} WholeOrBegun(es: seq<Event>, i: nat)
    requires i < |After(Init, es).tasks|
    ensures var t := After(Init, es).tasks[i]; Ends(t) && (Whole(t) || Begun(es, i))
    decreases |es|
  {
    if es != [] {
      var before := es[..|es| - 1];
      if i < |After(Init, before).tasks| {
        WholeOrBegun(before, i);
      }
      StepShape(After(Init, before), es[|es| - 1], i, Begun(before, i));
    }
  }

  /** Nobody is halfway through its drops while the INVITE makes its entries. */
  ghost predicate Undisturbed(es: seq<Event>) {
    forall k, i :: 0 <= k <= |es| && 0 <= i && Open(After(Init, es[..k])) ==> !Halfway(es[..k], i)
  }

  /** What holds as long as nobody is. */
  predicate Sound(s: Sys) {
    && (!Open(s) ==> !Orphans(s))
    && (Open(s) ==>
          forall i :: 0 <= i < |s.tasks| && s.tasks[i].InviteTask? && s.tasks[i].inv == Allocate ==> s.sh.active)
  }

  lemma AllocateSound(s: Sys, j: nat, env: Env)
    requires j < |s.tasks| && s.tasks[j].InviteTask? && s.tasks[j].inv == Allocate && OneEntering(s) && s.sh.active
    requires forall i :: 0 <= i < |s.tasks| ==> Whole(s.tasks[i])
    ensures Sound(Step(s, Run(j, env)))
  {
    var s' := Step(s, Run(j, env));
    if Owes(s'.tasks, DropActive) {
      var k :| 0 <= k < |s'.tasks| && DropActive in Owed(s'.tasks[k]);
      assert k != j && Whole(s'.tasks[k]);
    }
  }

  lemma ArriveSound(s: Sys, a: Arrival)
    requires Sound(s)
    ensures Sound(Step(s, Arrive(a)))
  {
    var s' := Step(s, Arrive(a));
    if Open(s) {
      var j :| 0 <= j < |s.tasks| && Entering(s.tasks[j]);
      assert Entering(s'.tasks[j]);
    } else if a.Invite? {
      assert Entering(s'.tasks[|s.tasks|]);
    } else {
      ClosedStep(s, Arrive(a));
    }
  }

  lemma SoundStep(es: seq<Event>, e: Event)
    requires Undisturbed(es + [e]) && After(Init, es + [e]).log.invites <= 1 && Sound(After(Init, es))
    ensures Sound(After(Init, es + [e]))
  {
    var all := es + [e];
    var s := After(Init, es);
    assert all[..|es|] == es && all[..|all|] == all;
    InvitesGrow(s, e);
    RaceRun(es);
    assert OneEntering(s);
    if e.Arrive? {
      ArriveSound(s, e.msg);
    } else if !Open(s) {
      ClosedStep(s, e);
    } else if e.i < |s.tasks| {
      var t := s.tasks[e.i];
      if Entering(t) && t.inv == Allocate {
        forall i | 0 <= i < |s.tasks| ensures Whole(s.tasks[i]) {
          WholeOrBegun(es, i);
          assert !Halfway(all[..|es|], i);
        }
        AllocateSound(s, e.i, e.env);
      } else {
        OpenSound(es, e);
      }
    }
  }

  lemma OpenSound(es: seq<Event>, e: Event)
    requires var s := After(Init, es);
             Sound(s) && Open(s) && e.Run? && e.i < |s.tasks|
             && !(s.tasks[e.i].InviteTask? && s.tasks[e.i].inv == Allocate)
    requires Open(After(Init, es + [e])) ==> !Halfway(es + [e], e.i)
    ensures Sound(After(Init, es + [e]))
  {
    var s := After(Init, es);
    var all, t := es + [e], s.tasks[e.i];
    assert all[..|es|] == es && After(Init, all) == Step(s, e);
    if !Entering(t) {
      var f := Exec(t, s.sh, s.log, e.env, |s.tasks|);
      StepMoves(t, s.sh, s.log, e.env, |s.tasks|);
      var j :| 0 <= j < |s.tasks| && Entering(s.tasks[j]);
      assert Entering(Step(s, e).tasks[j]);
      if Pays(s.sh, t, f) {
        WholeOrBegun(es, e.i);
        PaidShape(t, f.next);
        assert Begun(all, e.i) || !IsDrop(Owed(t)[0]);
      }
    }
  }

  lemma {:induction false} SoundRun(es: seq<Event>)
    requires Undisturbed(es) && After(Init, es).log.invites <= 1
    ensures Sound(After(Init, es))
    decreases |es|
  {
    if es != [] {
      var before, e := es[..|es| - 1], es[|es| - 1];
      assert es == before + [e];
      InvitesGrow(After(Init, before), e);
      forall k, i | 0 <= k <= |before| && 0 <= i && Open(After(Init, before[..k])) ensures !Halfway(before[..k], i) {
        assert before[..k] == es[..k];
      }
      SoundRun(before);
      SoundStep(before, e);
    }
  }

  /**
    In every run with one INVITE in which no handler is halfway through its drops
    while the INVITE makes its entries, a state at rest has its pending dialog
    and media sessions under an active dialog, and so has every state at rest
    after it.
   */
  lemma UndisturbedConsistent(es: seq<Event>)
    requires Undisturbed(es) && After(Init, es).log.invites <= 1
    ensures Quiet(After(Init, es)) ==> Consistent(After(Init, es).sh) && AlwaysConsistent(After(Init, es))
  {
    var s := After(Init, es);
    SoundRun(es);
    if Quiet(s) {
      QuietConsistent(s);
      RaceRun(es);
      ConsistentExactly(s);
    }
  }
}
