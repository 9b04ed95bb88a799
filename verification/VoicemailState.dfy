/**
  The shared voicemail tables of one server: the no-answer timers and the
  recording marks.  Every method is one lock acquisition; its contract says
  what happens to the slot of the Call-ID it is given, in terms of the slot
  functions below, and that the slots of all other Call-IDs stay as they were.
 */
module VoicemailState {
  import opened Options
  import opened Calls

  /** A no-answer timer; `Ringing` carries the identity of the sleeping task. */
  datatype Entry = Ringing(task: nat) | Firing | Canceled

  datatype CancelResult = TimerCanceled | AlreadyFired | NotFound

  /** What the recorder does with a finished file. */
  datatype Persistence = Insert | DiscardCanceled | DiscardEmpty

  /** The two recording marks of one Call-ID. */
  datatype Marks = Marks(recording: bool, canceled: bool)

  /** Plain cancellation: only a ringing timer is removed. */
  function CancelSlot(e: Option<Entry>): (Option<Entry>, CancelResult) {
    match e
    case Some(Ringing(_)) => (None, TimerCanceled)
    case Some(Firing) => (e, AlreadyFired)
    case Some(Canceled) => (e, TimerCanceled)
    case None => (None, NotFound)
  }

  /** Cancellation by the caller: a timer that already fired is marked instead. */
  function CallerCancelSlot(e: Option<Entry>): (Option<Entry>, CancelResult) {
    match e
    case Some(Firing) => (Some(Canceled), TimerCanceled)
    case Some(Ringing(_)) => (None, TimerCanceled)
    case Some(Canceled) => (e, TimerCanceled)
    case None => (None, NotFound)
  }

  /** The timer task claims the right to fire. */
  function ClaimSlot(e: Option<Entry>): (Option<Entry>, bool) {
    if e.Some? && e.value.Ringing? then (Some(Firing), true) else (e, false)
  }

  predicate ContinueSlot(e: Option<Entry>) {
    e == Some(Firing)
  }

  /** A delivery takes the recording slot unless it is already taken. */
  function TrackSlot(m: Marks): (Marks, bool) {
    (m.(recording := true), !m.recording)
  }

  function MarkSlot(m: Marks): (Marks, bool) {
    if m.recording then (m.(canceled := true), true) else (m, false)
  }

  /** The recorder gives the slot back and learns whether to keep the file. */
  function CompleteSlot(m: Marks): (Marks, bool) {
    (Marks(false, false), !m.canceled)
  }

  function Decision(shouldPersist: bool, durationSecs: nat): Persistence {
    if !shouldPersist then DiscardCanceled
    else if durationSecs == 0 then DiscardEmpty
    else Insert
  }

  class Voicemail {
    var noAnswer: map<CallId, Entry>
    var recording: set<CallId>
    var canceled: set<CallId>

    constructor ()
      ensures noAnswer == map[] && recording == {} && canceled == {}
    {
      noAnswer, recording, canceled := map[], {}, {};
    }

    function Slot(c: CallId): (e: Option<Entry>)
      reads this`noAnswer
    {
      if c in noAnswer then Some(noAnswer[c]) else None
    }

    function MarksOf(c: CallId): (m: Marks)
      reads this`recording, this`canceled
    {
      Marks(c in recording, c in canceled)
    }

    method CancelNoAnswerTimer(c: CallId) returns (r: CancelResult)
      modifies this`noAnswer
      ensures (Slot(c), r) == CancelSlot(old(Slot(c)))
      ensures forall d :: d != c ==> Slot(d) == old(Slot(d))
    {
      if c in noAnswer {
        var removed := noAnswer[c];
        noAnswer := noAnswer - {c};
        match removed
        case Ringing(_) => r := TimerCanceled;
        case Firing =>
          noAnswer := noAnswer[c := Firing];
          r := AlreadyFired;
        case Canceled =>
          noAnswer := noAnswer[c := Canceled];
          r := TimerCanceled;
      } else {
        r := NotFound;
      }
    }

    method CancelNoAnswerTimerForCallerCancel(c: CallId) returns (r: CancelResult)
      modifies this`noAnswer
      ensures (Slot(c), r) == CallerCancelSlot(old(Slot(c)))
      ensures forall d :: d != c ==> Slot(d) == old(Slot(d))
    {
      if c in noAnswer && noAnswer[c].Firing? {
        noAnswer := noAnswer[c := Canceled];
        return TimerCanceled;
      }
      if c in noAnswer {
        var removed := noAnswer[c];
        noAnswer := noAnswer - {c};
        if removed.Canceled? {
          noAnswer := noAnswer[c := Canceled];
        }
        r := TimerCanceled;
      } else {
        r := NotFound;
      }
    }

    /** The last step of starting a timer; the task itself sleeps already. */
    method InstallTimer(c: CallId, task: nat)
      modifies this`noAnswer
      ensures Slot(c) == Some(Ringing(task))
      ensures forall d :: d != c ==> Slot(d) == old(Slot(d))
    {
      noAnswer := noAnswer[c := Ringing(task)];
    }

    method ClaimToFire(c: CallId) returns (fire: bool)
      modifies this`noAnswer
      ensures (Slot(c), fire) == ClaimSlot(old(Slot(c)))
      ensures forall d :: d != c ==> Slot(d) == old(Slot(d))
    {
      fire := c in noAnswer && noAnswer[c].Ringing?;
      if fire {
        noAnswer := noAnswer[c := Firing];
      }
    }

    method ShouldContinue(c: CallId) returns (go: bool)
      ensures go == ContinueSlot(Slot(c))
    {
      go := c in noAnswer && noAnswer[c].Firing?;
    }

    method FinishTimer(c: CallId)
      modifies this`noAnswer
      ensures Slot(c) == None
      ensures forall d :: d != c ==> Slot(d) == old(Slot(d))
    {
      noAnswer := noAnswer - {c};
    }

    method TrackRecording(c: CallId) returns (tracked: bool)
      modifies this`recording
      ensures (MarksOf(c), tracked) == TrackSlot(old(MarksOf(c)))
      ensures forall d :: d != c ==> MarksOf(d) == old(MarksOf(d))
    {
      tracked := c !in recording;
      recording := recording + {c};
    }

    method DiscardRecording(c: CallId, tracked: bool)
      modifies this`recording, this`canceled
      ensures MarksOf(c) == if tracked then Marks(false, false) else old(MarksOf(c))
      ensures forall d :: d != c ==> MarksOf(d) == old(MarksOf(d))
    {
      if tracked {
        recording := recording - {c};
        canceled := canceled - {c};
      }
    }

    method MarkRecordingCanceled(c: CallId) returns (marked: bool)
      modifies this`canceled
      ensures (MarksOf(c), marked) == MarkSlot(old(MarksOf(c)))
      ensures forall d :: d != c ==> MarksOf(d) == old(MarksOf(d))
    {
      marked := c in recording;
      if marked {
        canceled := canceled + {c};
      }
    }

    method ShouldPersist(c: CallId) returns (persist: bool)
      modifies this`recording, this`canceled
      ensures (MarksOf(c), persist) == CompleteSlot(old(MarksOf(c)))
      ensures forall d :: d != c ==> MarksOf(d) == old(MarksOf(d))
    {
      persist := c !in canceled;
      recording := recording - {c};
      canceled := canceled - {c};
    }
  }
}
