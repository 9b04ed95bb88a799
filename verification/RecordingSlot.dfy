/**
  The recording marks over every run of the race: who holds the slot of a
  Call-ID, and what a cancellation mark does to the recording it was meant for.
 */
module RecordingSlot {
  import opened Options
  import opened VoicemailState
  import opened CallRace

  /** The task is a live delivery or recorder: it must give the slot back. */
  predicate Holds(t: Task) {
    match t
    case TimerTask(Delivering(at)) => at != Track
    case DeliveryTask(at) => at != Track
    case RecorderTask(_) => true
    case _ => false
  }

  predicate SlotInv(s: Sys) {
    && (s.sh.marks.canceled ==> s.sh.marks.recording)
    && (s.sh.marks.recording ==> s.sh.marks.canceled == s.log.marked)
    && (s.sh.marks.recording ==> exists i :: 0 <= i < |s.tasks| && Holds(s.tasks[i]))
    && (forall i :: 0 <= i < |s.tasks| && Holds(s.tasks[i]) ==> s.sh.marks.recording)
    && (forall i, j :: 0 <= i < j < |s.tasks| ==> !(Holds(s.tasks[i]) && Holds(s.tasks[j])))
  }

  /** A step that leaves the slot with its holder; at most it is marked. */
  predicate KeepsSlot(s: Sys, t: Task, f: Effect) {
    && Holds(f.next) == Holds(t)
    && (f.spawned.Some? ==> !Holds(f.spawned.value))
    && ((f.sh.marks == s.sh.marks && f.log.marked == s.log.marked)
        || (f.sh.marks == MarkSlot(s.sh.marks).0 && f.log.marked == (s.log.marked || s.sh.marks.recording)))
  }

  predicate TakesSlot(s: Sys, t: Task, f: Effect) {
    && !Holds(t) && !s.sh.marks.recording
    && f.sh.marks == s.sh.marks.(recording := true) && !f.log.marked
    && Holds(f.next) && f.spawned == None
  }

  predicate GivesSlot(s: Sys, t: Task, f: Effect) {
    && Holds(t) && !Holds(f.next)
    && if f.spawned == None then f.sh.marks == Marks(false, false)
       else f.spawned.value == RecorderTask(false) && f.sh.marks == s.sh.marks && f.log.marked == s.log.marked
  }

  lemma OpKeeps(op: Op, s: Sys)
    ensures (Do(op, s.sh).marks == s.sh.marks && Note(op, s.sh, s.log).marked == s.log.marked)
         || (Do(op, s.sh).marks == MarkSlot(s.sh.marks).0
             && Note(op, s.sh, s.log).marked == (s.log.marked || s.sh.marks.recording))
  {
  }

  /** Every step does one of the three. */
  predicate SlotMoves(s: Sys, t: Task, f: Effect) {
    KeepsSlot(s, t, f) || TakesSlot(s, t, f) || GivesSlot(s, t, f)
  }

  lemma TimerSlot(s: Sys, pc: TimerPc, env: Env)
    ensures SlotMoves(s, TimerTask(pc), Timer(pc, s.sh, s.log, env))
  {
    match pc
    case Cleanup(todo) => if todo != [] { OpKeeps(todo[0], s); }
    case Suppress(ops) => if ops != [] { OpKeeps(ops[0], s); }
    case _ =>
  }

  lemma ResponseSlot(s: Sys, code: nat, pc: ResponsePc)
    ensures SlotMoves(s, ResponseTask(code, pc), Response(code, pc, s.sh, s.log))
  {
    if pc.BusyCleanup? && pc.left != [] {
      OpKeeps(pc.left[0], s);
    }
  }

  lemma SlotEffect(s: Sys, t: Task, env: Env, newId: nat)
    ensures SlotMoves(s, t, Exec(t, s.sh, s.log, env, newId))
  {
    match t
    case Straight(rest) => if rest != [] { OpKeeps(rest[0], s); }
    case TimerTask(pc) => TimerSlot(s, pc, env);
    case ResponseTask(code, pc) => ResponseSlot(s, code, pc);
    case _ =>
  }

  lemma ApplyKeeps(s: Sys, i: nat, f: Effect)
    requires i < |s.tasks| && SlotInv(s) && KeepsSlot(s, s.tasks[i], f)
    ensures SlotInv(Apply(s, i, f))
  {
    if s.sh.marks.recording {
      var k :| 0 <= k < |s.tasks| && Holds(s.tasks[k]);
      assert Holds(Apply(s, i, f).tasks[k]);
    }
  }

  lemma ApplyTakes(s: Sys, i: nat, f: Effect)
    requires i < |s.tasks| && SlotInv(s) && TakesSlot(s, s.tasks[i], f)
    ensures SlotInv(Apply(s, i, f))
  {
    assert Holds(Apply(s, i, f).tasks[i]);
  }

  lemma ApplyGives(s: Sys, i: nat, f: Effect)
    requires i < |s.tasks| && SlotInv(s) && GivesSlot(s, s.tasks[i], f)
    ensures SlotInv(Apply(s, i, f))
  {
    if f.spawned.Some? {
      assert Holds(Apply(s, i, f).tasks[|s.tasks|]);
    }
  }

  lemma SlotStep(s: Sys, e: Event)
    requires SlotInv(s)
    ensures SlotInv(Step(s, e))
  {
    match e
    case Arrive(a) =>
      if s.sh.marks.recording {
        var k :| 0 <= k < |s.tasks| && Holds(s.tasks[k]);
        assert Holds(Step(s, e).tasks[k]);
      }
    case Run(i, env) =>
      if i < |s.tasks| {
        var t := s.tasks[i];
        var f := Exec(t, s.sh, s.log, env, |s.tasks|);
        SlotEffect(s, t, env, |s.tasks|);
        if KeepsSlot(s, t, f) { ApplyKeeps(s, i, f); }
        else if TakesSlot(s, t, f) { ApplyTakes(s, i, f); }
        else { ApplyGives(s, i, f); }
      }
  }

  /**
    In every run a mark is only ever on a taken slot, and the slot is taken
    exactly while one delivery or recorder is live; there are never two.
   */
  lemma {:induction false} OneHolder(es: seq<Event>)
    ensures SlotInv(After(Init, es))
    decreases |es|
  {
    if es != [] {
      OneHolder(es[..|es| - 1]);
      SlotStep(After(Init, es[..|es| - 1]), es[|es| - 1]);
    }
  }

  // ----- What a mark means, read off the run itself --------------------------

  /** The operation the task at the `k`-th event is about to perform, if it is unconditional. */
  function NextOp(t: Task): Option<Op> {
    match t
    case Straight(rest) => if rest == [] then None else Some(rest[0])
    case TimerTask(Cleanup(todo)) => if todo == [] then None else Some(todo[0])
    case TimerTask(Suppress(ops)) => if ops == [] then None else Some(ops[0])
    case ResponseTask(_, BusyCleanup(left)) => if left == [] then None else Some(left[0])
    case _ => None
  }

  /** The event marks the recording in progress. */
  predicate Marking(s: Sys, e: Event) {
    e.Run? && e.i < |s.tasks| && NextOp(s.tasks[e.i]) == Some(MarkRecording) && s.sh.marks.recording
  }

  /** The event takes the free slot for a new recording. */
  predicate Tracking(s: Sys, e: Event) {
    e.Run? && e.i < |s.tasks| && !s.sh.marks.recording
    && s.tasks[e.i] in {DeliveryTask(Track), TimerTask(Delivering(Track))}
  }

  /** For every event of a run, whether it satisfies `Marking` (`Tracking`) where it happens. */
  function MarkFlags(es: seq<Event>): (m: seq<bool>)
    ensures |m| == |es|
  {
    if es == [] then []
    else var n := |es| - 1; MarkFlags(es[..n]) + [Marking(After(Init, es[..n]), es[n])]
  }

  function TrackFlags(es: seq<Event>): (t: seq<bool>)
    ensures |t| == |es|
  {
    if es == [] then []
    else var n := |es| - 1; TrackFlags(es[..n]) + [Tracking(After(Init, es[..n]), es[n])]
  }

  /** Some flag of `m` is set and none of `t` after it. */
  ghost predicate SetSince(m: seq<bool>, t: seq<bool>)
    requires |m| == |t|
  {
    exists k :: 0 <= k < |m| && m[k] && forall j :: k < j < |t| ==> !t[j]
  }

  /** Some event marked the recording and none has taken the slot since. */
  ghost predicate MarkedSinceTracked(es: seq<Event>) {
    SetSince(MarkFlags(es), TrackFlags(es))
  }

  lemma SetSinceSnoc(m: seq<bool>, t: seq<bool>, x: bool, y: bool)
    requires |m| == |t|
    ensures SetSince(m + [x], t + [y]) <==> x || (SetSince(m, t) && !y)
  {
    var m', t' := m + [x], t + [y];
    if x {
      assert m'[|m|];
    }
    if SetSince(m, t) && !y {
      var k :| 0 <= k < |m| && m[k] && forall j :: k < j < |t| ==> !t[j];
      assert m'[k];
    }
    if SetSince(m', t') && !x {
      var k :| 0 <= k < |m'| && m'[k] && forall j :: k < j < |t'| ==> !t'[j];
      assert m[k] && !t'[|t|];
      assert forall j :: k < j < |t| ==> t[j] == t'[j];
    }
  }

  lemma LogMarked(s: Sys, e: Event)
    ensures Step(s, e).log.marked == (Marking(s, e) || (s.log.marked && !Tracking(s, e)))
  {
    if e.Run? && e.i < |s.tasks| {
      match s.tasks[e.i]
      case Straight(rest) =>
      case TimerTask(pc) =>
      case ResponseTask(code, pc) =>
      case DeliveryTask(at) =>
      case _ =>
    }
  }

  lemma {:induction false} MarkedMeans(es: seq<Event>)
    ensures After(Init, es).log.marked <==> MarkedSinceTracked(es)
    decreases |es|
  {
    if es != [] {
      var n := |es| - 1;
      var prefix := es[..n];
      var s := After(Init, prefix);
      MarkedMeans(prefix);
      LogMarked(s, es[n]);
      SetSinceSnoc(MarkFlags(prefix), TrackFlags(prefix), Marking(s, es[n]), Tracking(s, es[n]));
    }
  }

  /**
    A recorder that finishes hands its file to the database exactly when the file
    has positive length and no event marked it since its own slot was taken: a
    mark before completion is never lost, and none is left over from an earlier
    recording under the same Call-ID.
   */
  lemma CompletionDecides(es: seq<Event>, i: nat, env: Env)
    requires i < |After(Init, es).tasks| && After(Init, es).tasks[i] == RecorderTask(true)
    ensures var s := After(Init, es);
            var s' := Step(s, Run(i, env));
            && s'.log.outcomes == s.log.outcomes + [s'.log.outcomes[|s.log.outcomes|]]
            && var o := s'.log.outcomes[|s.log.outcomes|];
               && (o == Failed <==> !env.ok)
               && (env.ok ==> (o == Decided(Insert) <==> env.secs > 0 && !MarkedSinceTracked(es)))
               && (env.ok ==> (o == Decided(DiscardCanceled) <==> MarkedSinceTracked(es)))
               && s'.sh.marks == Marks(false, false)
  {
    OneHolder(es);
    MarkedMeans(es);
    assert Holds(After(Init, es).tasks[i]);
  }
}
