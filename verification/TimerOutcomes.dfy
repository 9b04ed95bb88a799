/**
  What a state of the race still allows: continuations in which the timer
  answers, the exact effect of a cancellation on them, and a bound on the
  answers of any number of timers.
 */
module TimerOutcomes {
  import opened Options
  import opened VoicemailState
  import opened CallRace

  const Yes := Env(true, false, 0)

  /** A continuation without another INVITE for this Call-ID. */
  ghost predicate NoInvite(es: seq<Event>) {
    forall i :: 0 <= i < |es| ==> !(es[i].Arrive? && es[i].msg.Invite?)
  }

  lemma {:induction false} AfterConcat(s: Sys, es: seq<Event>, more: seq<Event>)
    ensures After(s, es + more) == After(After(s, es), more)
    decreases |more|
  {
    var all := es + more;
    if more == [] {
      assert all == es;
    } else {
      var n := |more| - 1;
      assert all[..|all| - 1] == es + more[..n] && all[|all| - 1] == more[n];
      AfterConcat(s, es, more[..n]);
    }
  }

  lemma AfterOne(s: Sys, e: Event, more: seq<Event>)
    ensures After(s, [e] + more) == After(Step(s, e), more)
  {
    AfterConcat(s, [e], more);
    assert [e][..0] == [];
  }

  lemma {:induction false} InvitesKept(s: Sys, es: seq<Event>)
    requires NoInvite(es)
    ensures After(s, es).log.invites == s.log.invites
    decreases |es|
  {
    if es != [] {
      InvitesKept(s, es[..|es| - 1]);
      InvitesGrow(After(s, es[..|es| - 1]), es[|es| - 1]);
    }
  }

  // ----- A firing timer on its way to the answer -------------------------------

  ghost predicate OnlyTables(todo: seq<Op>) {
    forall i :: 0 <= i < |todo| ==> todo[i].DropActive? || todo[i].DropRelay? || todo[i].DropWebrtc?
  }

  /** The task answers the caller if nobody cancels its entry. */
  ghost predicate Driving(t: Task) {
    t.TimerTask? &&
    match t.tm
    case Sleeping => false
    case Cleanup(todo) => OnlyTables(todo)
    case Suppress(_) => false
    case Finishing => false
    case _ => true
  }

  /** Steps of its own that the task is away from sending, at most. */
  function Distance(t: Task): nat
    requires t.TimerTask?
  {
    match t.tm
    case Forget => 13
    case Cleanup(todo) => 9 + |todo|
    case FirstCheck => 8
    case Delivering(Track) => 7
    case Delivering(Prepare) => 6
    case Delivering(Discard) => 5
    case Delivering(Admit) => 5
    case Delivering(StartRecorder) => 4
    case SecondCheck => 3
    case _ => 2
  }

  lemma DriveOne(s: Sys, k: nat)
    requires k < |s.tasks| && Driving(s.tasks[k]) && s.tasks[k].tm != Sending && s.sh.entry == Some(Firing)
    ensures var s' := Step(s, Run(k, Yes));
            && k < |s'.tasks| && Driving(s'.tasks[k]) && s'.sh.entry == Some(Firing)
            && s'.log.vmSent == s.log.vmSent && s'.log.finals == s.log.finals
            && (s'.tasks[k].tm == Sending || Distance(s'.tasks[k]) < Distance(s.tasks[k]))
  {
  }

  lemma {:induction false} DrivesToSend(s: Sys, k: nat) returns (es: seq<Event>)
    requires k < |s.tasks| && Driving(s.tasks[k]) && s.sh.entry == Some(Firing)
    ensures NoInvite(es)
    ensures After(s, es).log.vmSent == s.log.vmSent + 1 && After(s, es).log.finals == s.log.finals
    decreases if s.tasks[k].tm == Sending then 0 else Distance(s.tasks[k])
  {
    var e, s' := Run(k, Yes), Step(s, Run(k, Yes));
    if s.tasks[k].tm == Sending {
      es := [e];
      assert es[..0] == [];
    } else {
      DriveOne(s, k);
      var more := DrivesToSend(s', k);
      AfterOne(s, e, more);
      es := [e] + more;
    }
  }

  /** An entry that is firing has a task behind it, until that has answered. */
  ghost predicate FiringIsDriven(s: Sys) {
    s.sh.entry == Some(Firing) && s.log.vmSent == 0 ==> exists k :: 0 <= k < |s.tasks| && Driving(s.tasks[k])
  }

  lemma DrivingGoesOn(s: Sys, t: Task, env: Env, newId: nat)
    requires Driving(t) && s.sh.entry == Some(Firing)
    ensures var f := Exec(t, s.sh, s.log, env, newId);
            f.log.vmSent > s.log.vmSent || Driving(f.next)
  {
  }

  lemma DrivenStep(s: Sys, e: Event)
    requires FiringIsDriven(s)
    ensures FiringIsDriven(Step(s, e))
  {
    var s' := Step(s, e);
    if s'.sh.entry == Some(Firing) && s'.log.vmSent == 0 {
      if s.sh.entry == Some(Firing) {
        if e.Run? && e.i < |s.tasks| {
          EntryMoves(s, s.tasks[e.i], e.env, |s.tasks|);
        }
        var k :| 0 <= k < |s.tasks| && Driving(s.tasks[k]);
        if e.Run? && e.i == k {
          DrivingGoesOn(s, s.tasks[k], e.env, |s.tasks|);
        }
        assert Driving(s'.tasks[k]);
      } else {
        FiringOnlyFromRinging(s, e);
        assert Driving(s'.tasks[e.i]);
      }
    }
  }

  lemma {:induction false} DrivenRun(es: seq<Event>)
    ensures FiringIsDriven(After(Init, es))
    decreases |es|
  {
    if es != [] {
      DrivenRun(es[..|es| - 1]);
      DrivenStep(After(Init, es[..|es| - 1]), es[|es| - 1]);
    }
  }

  // ----- What a cancellation does to the answer ----------------------------------

  /** Task `i` is about to take the timer lock for a cancellation of either kind. */
  predicate LocksNext(s: Sys, i: nat) {
    i < |s.tasks| && s.tasks[i].Straight? && s.tasks[i].rest != []
    && (s.tasks[i].rest[0] == CancelTimer || s.tasks[i].rest[0] == CallerCancelTimer)
  }

  lemma LockSuppresses(s: Sys, i: nat, env: Env)
    requires RaceInv(s) && s.log.invites <= 1 && s.log.installed && !PastSecondCheck(s) && LocksNext(s, i)
    requires Step(s, Run(i, env)).sh.entry != Some(Firing)
    ensures Suppressed(Step(s, Run(i, env))) && s.log.invites == 1
  {
    var a, b :| OneTimer(s, a, b);
    assert !Inviting(s, a);
  }

  /** The timer never answers in any continuation. */
  ghost predicate NeverAnswers(s: Sys) {
    forall es :: NoInvite(es) ==> After(s, es).log.vmSent == 0
  }

  lemma SuppressedNeverAnswers(s: Sys)
    requires Suppressed(s) && s.log.invites == 1
    ensures NeverAnswers(s)
  {
    forall es | NoInvite(es) ensures After(s, es).log.vmSent == 0 {
      InvitesKept(s, es);
      SuppressedRun(s, es);
    }
  }

  lemma FiringMayAnswer(s: Sys)
    requires FiringIsDriven(s) && s.sh.entry == Some(Firing) && s.log.vmSent == 0
    ensures !NeverAnswers(s)
  {
    var k :| 0 <= k < |s.tasks| && Driving(s.tasks[k]);
    var es := DrivesToSend(s, k);
  }

  /**
    A cancellation that takes the timer lock after the installation and before
    the second check, by whichever handler, rules out the timer's answer exactly
    when it does not leave the entry firing.
   */
  lemma CancellationExact(before: seq<Event>, i: nat, env: Env)
    requires var s := After(Init, before);
             s.log.invites <= 1 && s.log.installed && !PastSecondCheck(s) && LocksNext(s, i)
    ensures var s' := Step(After(Init, before), Run(i, env));
            NeverAnswers(s') <==> s'.sh.entry != Some(Firing)
  {
    var s := After(Init, before);
    var s' := Step(s, Run(i, env));
    InvitesGrow(s, Run(i, env));
    if s'.sh.entry != Some(Firing) {
      RaceRun(before);
      LockSuppresses(s, i, env);
      SuppressedNeverAnswers(s');
    } else {
      DrivenRun(before);
      DrivenStep(s, Run(i, env));
      EntryMoves(s, s.tasks[i], env, |s.tasks|);
      FiringMayAnswer(s');
    }
  }

  // ----- A response that passes its gate too early --------------------------------

  /** The INVITE handler's timer is still to be spawned, or spawned and asleep. */
  predicate TimerToCome(s: Sys, j: nat) {
    j < |s.tasks| && s.tasks[j].InviteTask? && s.tasks[j].mailbox
    && match s.tasks[j].inv
       case Install(task) => task < |s.tasks| && s.tasks[task] == TimerTask(Sleeping)
       case _ => true
  }

  function StepsToInstall(pc: InvitePc): nat {
    match pc
    case PutPending => 4
    case PutActive => 3
    case Allocate => 2
    case Spawn => 1
    case Install(_) => 0
  }

  lemma InviteOne(s: Sys, j: nat)
    requires TimerToCome(s, j) && !s.tasks[j].inv.Install?
    ensures var s' := Step(s, Run(j, Yes));
            && TimerToCome(s', j) && StepsToInstall(s'.tasks[j].inv) < StepsToInstall(s.tasks[j].inv)
            && s'.log == s.log
  {
  }

  /** The handler runs on until its timer is ringing. */
  lemma {:induction false} Installs(s: Sys, j: nat) returns (es: seq<Event>, k: nat)
    requires TimerToCome(s, j)
    ensures NoInvite(es)
    ensures var s' := After(s, es);
            && k < |s'.tasks| && s'.tasks[k] == TimerTask(Sleeping) && s'.sh.entry == Some(Ringing(k))
            && s'.log == s.log.(installed := true)
    decreases StepsToInstall(s.tasks[j].inv)
  {
    var e := Run(j, Yes);
    if s.tasks[j].inv.Install? {
      k := s.tasks[j].inv.task;
      es := [e];
      assert es[..0] == [];
    } else {
      InviteOne(s, j);
      var more;
      more, k := Installs(Step(s, e), j);
      AfterOne(s, e, more);
      es := [e] + more;
    }
  }

  /** From a ringing entry and its sleeping task the timer can go on to answer. */
  lemma RingingMayAnswer(s: Sys, k: nat) returns (es: seq<Event>)
    requires k < |s.tasks| && s.tasks[k] == TimerTask(Sleeping) && s.sh.entry.Some? && s.sh.entry.value.Ringing?
    ensures NoInvite(es)
    ensures After(s, es).log.vmSent == s.log.vmSent + 1 && After(s, es).log.finals == s.log.finals
  {
    var e := Run(k, Yes);
    var more := DrivesToSend(Step(s, e), k);
    AfterOne(s, e, more);
    es := [e] + more;
  }

  /** A response between its gate and the caller, with the caller known. */
  predicate Passing(s: Sys, i: nat) {
    i < |s.tasks| && s.tasks[i].ResponseTask? && (s.tasks[i].rs.Lookup? || s.tasks[i].rs.Relay?) && s.sh.pending
  }

  lemma GatePassed(s: Sys, i: nat, j: nat)
    requires i < |s.tasks| && s.tasks[i].ResponseTask? && s.tasks[i].rs == Gate
    requires s.sh.entry == None && s.sh.pending && TimerToCome(s, j)
    ensures var s' := Step(s, Run(i, Yes)); Passing(s', i) && TimerToCome(s', j) && s'.log == s.log
  {
  }

  lemma LookedUp(s: Sys, i: nat, j: nat)
    requires Passing(s, i) && s.tasks[i].rs.Lookup? && TimerToCome(s, j)
    ensures var s' := Step(s, Run(i, Yes));
            Passing(s', i) && s'.tasks[i].rs.Relay? && TimerToCome(s', j) && s'.log == s.log
  {
  }

  lemma {:induction false} ResponsePasses(s: Sys, i: nat, j: nat) returns (es: seq<Event>)
    requires Passing(s, i) && TimerToCome(s, j)
    ensures NoInvite(es) && TimerToCome(After(s, es), j)
    ensures After(s, es).log.finals == s.log.finals + 1 && After(s, es).log.vmSent == s.log.vmSent
    decreases if s.tasks[i].rs.Lookup? then 1 else 0
  {
    var e := Run(i, Yes);
    if s.tasks[i].rs.Lookup? {
      LookedUp(s, i, j);
      var more := ResponsePasses(Step(s, e), i, j);
      AfterOne(s, e, more);
      es := [e] + more;
    } else {
      es := [e];
      assert es[..0] == [];
    }
  }

  lemma InstallsAndAnswers(s: Sys, j: nat) returns (es: seq<Event>)
    requires TimerToCome(s, j)
    ensures NoInvite(es)
    ensures After(s, es).log.vmSent == s.log.vmSent + 1 && After(s, es).log.finals == s.log.finals
  {
    var es1, k := Installs(s, j);
    var es2 := RingingMayAnswer(After(s, es1), k);
    AfterConcat(s, es1, es2);
    es := es1 + es2;
  }

  lemma PassesAndAnswers(s: Sys, i: nat, j: nat) returns (es: seq<Event>)
    requires Passing(s, i) && TimerToCome(s, j)
    ensures NoInvite(es)
    ensures After(s, es).log.vmSent == s.log.vmSent + 1 && After(s, es).log.finals == s.log.finals + 1
  {
    var es1 := ResponsePasses(s, i, j);
    var es2 := InstallsAndAnswers(After(s, es1), j);
    AfterConcat(s, es1, es2);
    es := es1 + es2;
  }

  /**
    Whenever a final response stands at its gate before the timer entry is
    installed, with the caller known and a timer to come, the caller can get both
    the response and the timer's answer.
   */
  lemma EarlyFinalMayGetBoth(before: seq<Event>, i: nat, j: nat)
    requires var s := After(Init, before);
             && s.log.invites <= 1 && !s.log.installed && s.sh.pending && TimerToCome(s, j)
             && i < |s.tasks| && s.tasks[i].ResponseTask? && s.tasks[i].rs == Gate
    ensures var s := After(Init, before);
            exists es :: NoInvite(es) && After(s, es).log.finals > s.log.finals && After(s, es).log.vmSent > 0
  {
    var s, e := After(Init, before), Run(i, Yes);
    RaceRun(before);
    GatePassed(s, i, j);
    var more := PassesAndAnswers(Step(s, e), i, j);
    AfterOne(s, e, more);
    assert NoInvite([e] + more);
  }

  // ----- Any number of INVITEs ------------------------------------------------------

  /** Answers the task can still lead to. */
  function Answers(t: Task): nat {
    match t
    case InviteTask(pc, _) => if pc.Install? then 0 else 1
    case TimerTask(tm) => if tm == Finishing || tm.Suppress? then 0 else 1
    case _ => 0
  }

  function TotalAnswers(ts: seq<Task>): nat {
    if ts == [] then 0 else TotalAnswers(ts[..|ts| - 1]) + Answers(ts[|ts| - 1])
  }

  lemma {:induction false} AnswersMoved(ts: seq<Task>, i: nat, t: Task)
    requires i < |ts|
    ensures TotalAnswers(ts[i := t]) + Answers(ts[i]) == TotalAnswers(ts) + Answers(t)
    decreases |ts|
  {
    var n := |ts| - 1;
    if i < n {
      AnswersMoved(ts[..n], i, t);
      assert ts[i := t][..n] == ts[..n][i := t];
    } else {
      assert ts[i := t][..n] == ts[..n];
    }
  }

  lemma AnswersAdded(ts: seq<Task>, t: Task)
    ensures TotalAnswers(ts + [t]) == TotalAnswers(ts) + Answers(t)
  {
    assert (ts + [t])[..|ts|] == ts;
  }

  lemma AnswersSpent(s: Sys, t: Task, env: Env, newId: nat)
    ensures var f := Exec(t, s.sh, s.log, env, newId);
            var spawned := if f.spawned.Some? then Answers(f.spawned.value) else 0;
            f.log.vmSent + Answers(f.next) + spawned <= s.log.vmSent + Answers(t)
  {
  }

  /** However many INVITEs a Call-ID gets, timers answer at most once for each. */
  lemma {:induction false} AnswersBounded(es: seq<Event>)
    ensures After(Init, es).log.vmSent + TotalAnswers(After(Init, es).tasks) <= After(Init, es).log.invites
    decreases |es|
  {
    if es != [] {
      var s, e := After(Init, es[..|es| - 1]), es[|es| - 1];
      AnswersBounded(es[..|es| - 1]);
      InvitesGrow(s, e);
      match e
      case Arrive(m) => AnswersAdded(s.tasks, Start(m));
      case Run(i, env) =>
        if i < |s.tasks| {
          var f := Exec(s.tasks[i], s.sh, s.log, env, |s.tasks|);
          AnswersSpent(s, s.tasks[i], env, |s.tasks|);
          AnswersMoved(s.tasks, i, f.next);
          if f.spawned.Some? {
            AnswersAdded(s.tasks[i := f.next], f.spawned.value);
          }
        }
    }
  }
}
