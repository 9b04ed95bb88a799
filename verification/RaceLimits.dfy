/**
  Where the guarantees of the race stop: concrete interleavings of the modelled
  handlers in which a hypothesis of the theorems is missing and the conclusion
  fails.
 */
module RaceLimits {
  import opened Options
  import opened VoicemailState
  import opened CallRace

  const No := Env(false, false, 0)
  const Yes := Env(true, false, 0)

  lemma Advance(es: seq<Event>, e: Event) returns (es': seq<Event>)
    ensures es' == es + [e]
    ensures After(Init, es') == Step(After(Init, es), e)
  {
    es' := es + [e];
    assert es'[..|es|] == es;
  }

  /** The INVITE handler up to, but not including, the installation of its timer. */
  lemma Forwarded() returns (es: seq<Event>)
    ensures After(Init, es) == Sys(
              Shared(None, true, true, false, false, false, Marks(false, false)),
              Log(1, false, 0, 0, 0, false, []),
              [InviteTask(Install(1), true), TimerTask(Sleeping)])
  {
    es := Advance([], Arrive(Invite(true)));
    es := Advance(es, Run(0, No));
    es := Advance(es, Run(0, No));
    es := Advance(es, Run(0, No));
    es := Advance(es, Run(0, No));
    assert After(Init, es).tasks == [InviteTask(Install(1), true), TimerTask(Sleeping)];
  }

  /** The claim, and the first of the cleanup. */
  lemma ClaimMade(es: seq<Event>, t: nat) returns (es': seq<Event>)
    requires var s := After(Init, es);
             t < |s.tasks| && s.tasks[t] == TimerTask(Sleeping) && s.sh.entry.Some? && s.sh.entry.value.Ringing?
    ensures var s := After(Init, es);
            After(Init, es') == Sys(
              s.sh.(entry := Some(Firing), pending := false, active := false),
              s.log, s.tasks[t := TimerTask(Cleanup([DropRelay, DropWebrtc]))])
  {
    es' := Advance(es, Run(t, No));
    es' := Advance(es', Run(t, No));
    es' := Advance(es', Run(t, No));
    assert [DropActive, DropRelay, DropWebrtc][1..] == [DropRelay, DropWebrtc];
    assert After(Init, es').tasks == After(Init, es).tasks[t := TimerTask(Cleanup([DropRelay, DropWebrtc]))];
  }

  /** From the claim to the start of the delivery, with nothing else running. */
  lemma Claimed(es: seq<Event>, t: nat) returns (es': seq<Event>)
    requires var s := After(Init, es);
             t < |s.tasks| && s.tasks[t] == TimerTask(Sleeping) && s.sh.entry.Some? && s.sh.entry.value.Ringing?
    ensures var s := After(Init, es);
            After(Init, es') == Sys(
              s.sh.(entry := Some(Firing), pending := false, active := false, relay := false, webrtc := false),
              s.log, s.tasks[t := TimerTask(Delivering(Track))])
  {
    es' := ClaimMade(es, t);
    es' := Advance(es', Run(t, No));
    es' := Advance(es', Run(t, No));
    assert [DropRelay, DropWebrtc][1..] == [DropWebrtc] && [DropWebrtc][1..] == [];
    es' := Advance(es', Run(t, No));
    es' := Advance(es', Run(t, No));
    assert After(Init, es').tasks == After(Init, es).tasks[t := TimerTask(Delivering(Track))];
  }

  /** A delivery that is refused, and the second check that lets the answer out. */
  lemma Refused(es: seq<Event>, t: nat) returns (es': seq<Event>)
    requires var s := After(Init, es);
             t < |s.tasks| && s.tasks[t] == TimerTask(Delivering(Track))
             && s.sh.entry == Some(Firing) && s.sh.marks == Marks(false, false)
    ensures var s := After(Init, es);
            After(Init, es') == Sys(s.sh, s.log.(marked := false), s.tasks[t := TimerTask(Sending)])
  {
    es' := Advance(es, Run(t, No));
    es' := Advance(es', Run(t, No));
    es' := Advance(es', Run(t, No));
    es' := Advance(es', Run(t, No));
    assert After(Init, es').tasks == After(Init, es).tasks[t := TimerTask(Sending)];
  }

  /** The second check and the answer. */
  lemma LetThrough(es: seq<Event>, t: nat) returns (es': seq<Event>)
    requires var s := After(Init, es);
             t < |s.tasks| && s.tasks[t] == TimerTask(SecondCheck) && s.sh.entry == Some(Firing)
    ensures |es'| == |es| + 2 && es'[..|es|] == es
    ensures var s := After(Init, es);
            After(Init, es') == Sys(s.sh, s.log.(vmSent := s.log.vmSent + 1), s.tasks[t := TimerTask(Finishing)])
  {
    es' := Advance(es, Run(t, Yes));
    es' := Advance(es', Run(t, Yes));
    assert After(Init, es').tasks == After(Init, es).tasks[t := TimerTask(Finishing)];
  }

  /** A delivery that starts its recorder. */
  lemma Delivered(es: seq<Event>, t: nat) returns (es': seq<Event>)
    requires var s := After(Init, es);
             t < |s.tasks| && s.tasks[t] == TimerTask(Delivering(Track)) && s.sh.marks == Marks(false, false)
    ensures var s := After(Init, es);
            After(Init, es') == Sys(s.sh.(marks := Marks(true, false), vmCall := true), s.log.(marked := false),
                                    s.tasks[t := TimerTask(SecondCheck)] + [RecorderTask(false)])
  {
    es' := Advance(es, Run(t, Yes));
    es' := Advance(es', Run(t, Yes));
    es' := Advance(es', Run(t, Yes));
    es' := Advance(es', Run(t, Yes));
    assert After(Init, es').tasks == After(Init, es).tasks[t := TimerTask(SecondCheck)] + [RecorderTask(false)];
  }

  /** A final response overtakes the installation of the timer. */
  lemma Overtaken() returns (es: seq<Event>)
    ensures After(Init, es) == Sys(
              Shared(Some(Ringing(1)), true, true, false, false, false, Marks(false, false)),
              Log(1, true, 1, 0, 0, false, []),
              [Idle, TimerTask(Sleeping), Straight([DropPending])])
  {
    es := Forwarded();
    es := Advance(es, Arrive(Final(200, false)));
    es := Advance(es, Run(2, No));
    assert After(Init, es).tasks[2] == ResponseTask(200, Lookup(true));
    es := Advance(es, Run(2, No));
    es := Advance(es, Run(2, No));
    assert After(Init, es).tasks[2] == Straight([DropPending]);
    es := Advance(es, Run(0, No));
    assert After(Init, es).tasks == [Idle, TimerTask(Sleeping), Straight([DropPending])];
  }

  /**
    A final response that overtakes the installation of the timer is relayed, and
    the timer still sends its own response later: the caller gets both.
   */
  lemma EarlyFinalGetsBoth()
    ensures exists es :: After(Init, es).log.invites == 1
                      && After(Init, es).log.finals == 1 && After(Init, es).log.vmSent == 1
  {
    var es := Overtaken();
    es := Claimed(es, 1);
    es := Refused(es, 1);
    es := Advance(es, Run(1, No));
    assert After(Init, es).log.vmSent == 1;
  }

  /** The timer has delivered to voicemail when a CANCEL is dispatched there. */
  lemma CancelDispatched() returns (es: seq<Event>)
    ensures After(Init, es) == Sys(
              Shared(Some(Firing), false, false, false, false, true, Marks(true, false)),
              Log(1, true, 0, 0, 0, false, []),
              [Idle, TimerTask(SecondCheck), RecorderTask(false), Straight(VmCancelOps)])
  {
    es := Forwarded();
    es := Advance(es, Run(0, No));
    es := Claimed(es, 1);
    es := Delivered(es, 1);
    es := Advance(es, Arrive(Cancel));
    es := Advance(es, Run(3, Yes));
    assert After(Init, es).tasks == [Idle, TimerTask(SecondCheck), RecorderTask(false), Straight(VmCancelOps)];
  }

  lemma CancelRan() returns (es: seq<Event>)
    ensures After(Init, es) == Sys(
              Shared(Some(Firing), false, false, false, false, false, Marks(true, true)),
              Log(1, true, 0, 0, 0, true, []),
              [Idle, TimerTask(SecondCheck), RecorderTask(false), Idle])
  {
    es := CancelDispatched();
    es := Advance(es, Run(3, Yes));
    assert After(Init, es).tasks[3] == Straight([DropVmCall, CancelTimer]);
    es := Advance(es, Run(3, Yes));
    assert After(Init, es).tasks[3] == Straight([CancelTimer]);
    es := Advance(es, Run(3, Yes));
    assert After(Init, es).tasks[3] == Idle;
    assert After(Init, es).tasks == [Idle, TimerTask(SecondCheck), RecorderTask(false), Idle];
  }

  /**
    A CANCEL that finds the call in voicemail takes the other path: it marks the
    recording but leaves the timer firing, so the timer's response is sent although
    the CANCEL ran before the second check.
   */
  lemma VoicemailCancelStillAnswers()
    ensures exists es :: |es| >= 2
              && After(Init, es).log.invites == 1 && After(Init, es).log.vmSent == 1
              && After(Init, es).sh.marks == Marks(true, true)
              && !PastSecondCheck(After(Init, es[..|es| - 2]))
  {
    var before := CancelRan();
    assert TimerTask(Sending) !in After(Init, before).tasks;
    var es := LetThrough(before, 1);
    assert es[..|es| - 2] == before;
  }

  /** A second INVITE arrives while the first one's timer is about to deliver. */
  lemma SecondInvite() returns (es: seq<Event>)
    ensures After(Init, es) == Sys(
              Shared(Some(Firing), true, true, false, false, false, Marks(false, false)),
              Log(2, true, 0, 0, 0, false, []),
              [Idle, TimerTask(Delivering(Track)), InviteTask(Spawn, true)])
  {
    es := Forwarded();
    es := Advance(es, Run(0, No));
    es := Claimed(es, 1);
    es := Advance(es, Arrive(Invite(true)));
    assert After(Init, es).tasks == [Idle, TimerTask(Delivering(Track)), InviteTask(PutPending, true)];
    es := Advance(es, Run(2, No));
    es := Advance(es, Run(2, No));
    es := Advance(es, Run(2, No));
    assert After(Init, es).tasks == [Idle, TimerTask(Delivering(Track)), InviteTask(Spawn, true)];
  }

  /** It replaces the entry of that timer. */
  lemma Reinvited() returns (es: seq<Event>)
    ensures After(Init, es) == Sys(
              Shared(Some(Ringing(3)), true, true, false, false, false, Marks(false, false)),
              Log(2, true, 0, 0, 0, false, []),
              [Idle, TimerTask(Delivering(Track)), Idle, TimerTask(Sleeping)])
  {
    es := SecondInvite();
    es := Advance(es, Run(2, No));
    es := Advance(es, Run(2, No));
    assert After(Init, es).tasks == [Idle, TimerTask(Delivering(Track)), Idle, TimerTask(Sleeping)];
  }

  /** Two INVITEs under one Call-ID can make their timers answer the caller twice. */
  lemma ReinviteAnswersTwice()
    ensures exists es :: After(Init, es).log.invites == 2 && After(Init, es).log.vmSent == 2
  {
    var es := Reinvited();
    es := Claimed(es, 3);
    es := Refused(es, 1);
    es := Refused(es, 3);
    assert After(Init, es).tasks == [Idle, TimerTask(Sending), Idle, TimerTask(Sending)];
    es := Advance(es, Run(1, No));
    es := Advance(es, Run(3, No));
    assert After(Init, es).log.vmSent == 2;
  }

  /** A CANCEL is dispatched while the INVITE handler is about to allocate media. */
  lemma CancelOvertakes() returns (es: seq<Event>)
    ensures After(Init, es) == Sys(
              Shared(None, true, true, false, false, false, Marks(false, false)),
              Log(1, false, 0, 0, 0, false, []),
              [InviteTask(Allocate, false), Straight(ProxyCancelOps)])
  {
    es := Advance([], Arrive(Invite(false)));
    es := Advance(es, Run(0, No));
    es := Advance(es, Run(0, No));
    es := Advance(es, Arrive(Cancel));
    es := Advance(es, Run(1, No));
    assert After(Init, es).tasks == [InviteTask(Allocate, false), Straight(ProxyCancelOps)];
  }

  lemma CancelHalfway() returns (es: seq<Event>)
    ensures After(Init, es) == Sys(
              Shared(None, false, false, false, false, false, Marks(false, false)),
              Log(1, false, 0, 0, 0, false, []),
              [InviteTask(Allocate, false), Straight([DropRelay, DropWebrtc])])
  {
    es := CancelOvertakes();
    es := Advance(es, Run(1, No));
    assert After(Init, es).tasks[1] == Straight(DropAll);
    es := Advance(es, Run(1, No));
    assert After(Init, es).tasks[1] == Straight([DropActive, DropRelay, DropWebrtc]);
    es := Advance(es, Run(1, No));
    assert After(Init, es).tasks == [InviteTask(Allocate, false), Straight([DropRelay, DropWebrtc])];
  }

  lemma CancelFinished() returns (es: seq<Event>)
    ensures After(Init, es) == Sys(
              Shared(None, false, false, false, false, false, Marks(false, false)),
              Log(1, false, 0, 0, 0, false, []),
              [InviteTask(Allocate, false), Idle])
  {
    es := CancelHalfway();
    es := Advance(es, Run(1, No));
    assert After(Init, es).tasks[1] == Straight([DropWebrtc]);
    es := Advance(es, Run(1, No));
    assert [DropWebrtc][1..] == [] && After(Init, es).tasks[1] == Idle;
    assert After(Init, es).tasks == [InviteTask(Allocate, false), Idle];
  }

  /**
    Handlers are not atomic: a CANCEL that runs between an INVITE's dialog entry
    and its media allocation leaves a relay session that no dialog owns and no
    task will remove.
   */
  lemma LateAllocationLeaks()
    ensures exists es :: var s := After(Init, es);
              s.sh.relay && !s.sh.active && !s.sh.pending && forall i :: 0 <= i < |s.tasks| ==> s.tasks[i] == Idle
  {
    var es := CancelFinished();
    es := Advance(es, Run(0, Yes));
    assert After(Init, es).tasks == [Idle, Idle];
  }

  /** A CANCEL has dropped a pending dialog that is entered only now. */
  lemma CancelTooEarly() returns (es: seq<Event>)
    ensures After(Init, es) == Sys(
              Shared(None, true, true, false, false, false, Marks(false, false)),
              Log(1, false, 0, 0, 0, false, []),
              [InviteTask(Allocate, false), Straight([DropActive, DropRelay, DropWebrtc])])
  {
    es := Advance([], Arrive(Invite(false)));
    es := Advance(es, Arrive(Cancel));
    es := Advance(es, Run(1, No));
    es := Advance(es, Run(1, No));
    assert After(Init, es).tasks[1] == Straight(DropAll);
    es := Advance(es, Run(1, No));
    assert After(Init, es).tasks[1] == Straight([DropActive, DropRelay, DropWebrtc]);
    es := Advance(es, Run(0, No));
    es := Advance(es, Run(0, No));
    assert After(Init, es).tasks == [InviteTask(Allocate, false), Straight([DropActive, DropRelay, DropWebrtc])];
  }

  /**
    A CANCEL that straddles both dialog entries of an INVITE leaves the pending
    dialog without an active one.
   */
  lemma StalePendingDialog()
    ensures exists es :: var s := After(Init, es);
              && s.log.invites == 1 && s.sh.pending && !s.sh.active && !s.sh.relay
              && forall i :: 0 <= i < |s.tasks| ==> s.tasks[i] == Idle
  {
    var es := CancelTooEarly();
    es := Advance(es, Run(1, No));
    assert After(Init, es).tasks[1] == Straight([DropRelay, DropWebrtc]);
    es := Advance(es, Run(1, No));
    assert After(Init, es).tasks[1] == Straight([DropWebrtc]);
    es := Advance(es, Run(1, No));
    assert [DropWebrtc][1..] == [] && After(Init, es).tasks[1] == Idle;
    es := Advance(es, Run(0, No));
    assert After(Init, es).tasks == [Idle, Idle];
  }
}
