/**
  The dialog and media tables of the proxy.  A handler (and the cleanup of a
  fired no-answer timer) is one atomic step here; what can happen between its
  lock acquisitions is the subject of CallRace.
 */
module Dialogs {
  import opened Options
  import opened Calls
  import opened VoicemailState

  /** A socket address; only equality matters. */
  type Addr = string

  datatype DialogInfo = DialogInfo(caller: Addr, callee: Addr)

  /** What the INVITE handler managed to set up for the media of a call. */
  datatype Media = NoMedia | RelayMedia | WebrtcMedia

  datatype Tables = Tables(
    pending: map<CallId, Addr>,
    active: map<CallId, DialogInfo>,
    relay: set<CallId>,
    webrtc: set<CallId>)

  const Empty := Tables(map[], map[], {}, {})

  datatype Event =
    | Invite(call: CallId, src: Addr, target: Addr, media: Media)
    | Response(call: CallId, code: Option<nat>, gate: CancelResult)
    | Bye(call: CallId)
    | Cancel(call: CallId)
    | TimerFired(call: CallId)
    | StaleMedia(relays: set<CallId>, webrtcs: set<CallId>)

  function Forget(t: Tables, c: CallId): Tables {
    Tables(t.pending - {c}, t.active - {c}, t.relay - {c}, t.webrtc - {c})
  }

  /** The status code, if it could be read, is at least `n`. */
  predicate AtLeast(code: Option<nat>, n: nat) {
    code.Some? && code.value >= n
  }

  function Next(t: Tables, e: Event): Tables {
    match e
    case Invite(c, src, target, media) =>
      Tables(t.pending[c := src], t.active[c := DialogInfo(src, target)],
             if media == RelayMedia then t.relay + {c} else t.relay,
             if media == WebrtcMedia then t.webrtc + {c} else t.webrtc)
    case Response(c, code, gate) =>
      if AtLeast(code, 200) && gate == AlreadyFired then Forget(t, c)
      else if c !in t.pending then t
      else
        Tables(if AtLeast(code, 200) then t.pending - {c} else t.pending, t.active,
               if AtLeast(code, 300) then t.relay - {c} else t.relay,
               if AtLeast(code, 300) then t.webrtc - {c} else t.webrtc)
    case Bye(c) => Forget(t, c)
    case Cancel(c) => Forget(t, c)
    case TimerFired(c) => Forget(t, c)
    case StaleMedia(relays, webrtcs) => t.(relay := t.relay - relays, webrtc := t.webrtc - webrtcs)
  }

  function After(es: seq<Event>): Tables {
    if es == [] then Empty else Next(After(es[..|es| - 1]), es[|es| - 1])
  }

  predicate Consistent(t: Tables) {
    t.pending.Keys <= t.active.Keys && t.relay <= t.active.Keys && t.webrtc <= t.active.Keys
  }

  /** Everything the tables hold about one call. */
  function About(t: Tables, c: CallId): (Option<Addr>, Option<DialogInfo>, bool, bool) {
    (if c in t.pending then Some(t.pending[c]) else None,
     if c in t.active then Some(t.active[c]) else None,
     c in t.relay, c in t.webrtc)
  }

  predicate Concerns(e: Event, c: CallId) {
    match e
    case StaleMedia(relays, webrtcs) => c in relays || c in webrtcs
    case _ => e.call == c
  }

  /** Every reachable pending dialog and media session belongs to an active dialog. */
  lemma {:induction false} ReachableConsistent(es: seq<Event>)
    ensures Consistent(After(es))
  {
    if es != [] {
      ReachableConsistent(es[..|es| - 1]);
    }
  }

  /** No step touches the entries of a call it is not about. */
  lemma {:induction false} OtherCallsKept(es: seq<Event>, c: CallId)
    requires forall k :: 0 <= k < |es| ==> !Concerns(es[k], c)
    ensures About(After(es), c) == (None, None, false, false)
  {
    if es != [] {
      OtherCallsKept(es[..|es| - 1], c);
      StepKeeps(After(es[..|es| - 1]), es[|es| - 1], c);
    }
  }

  lemma StepKeeps(t: Tables, e: Event, c: CallId)
    requires !Concerns(e, c)
    ensures About(Next(t, e), c) == About(t, c)
  {
  }

  /**
    A call that was ended by a BYE or CANCEL stays forgotten until it is INVITEd
    again, whatever responses, timers or cleanups come late.
   */
  lemma {:induction false} EndedStaysForgotten(es: seq<Event>, k: nat, c: CallId)
    requires k < |es| && es[k] in {Bye(c), Cancel(c), TimerFired(c)}
    requires forall j :: k < j < |es| ==> !(es[j].Invite? && es[j].call == c)
    ensures About(After(es), c) == (None, None, false, false)
  {
    var n := |es| - 1;
    if k < n {
      EndedStaysForgotten(es[..n], k, c);
      var t := After(es[..n]);
      if !Concerns(es[n], c) {
        StepKeeps(t, es[n], c);
      }
    }
  }

  /** The tables as the handlers update them in place. */
  class DialogStores {
    var pending: map<CallId, Addr>
    var active: map<CallId, DialogInfo>
    var relay: set<CallId>
    var webrtc: set<CallId>

    constructor ()
      ensures Contents() == Empty
    {
      pending, active, relay, webrtc := map[], map[], {}, {};
    }

    function Contents(): (t: Tables)
      reads this
    {
      Tables(pending, active, relay, webrtc)
    }

    method HandleInvite(c: CallId, src: Addr, target: Addr, media: Media)
      modifies this
      ensures Contents() == Next(old(Contents()), Invite(c, src, target, media))
    {
      pending := pending[c := src];
      active := active[c := DialogInfo(src, target)];
      if media == RelayMedia {
        relay := relay + {c};
      } else if media == WebrtcMedia {
        webrtc := webrtc + {c};
      }
    }

    /** `gate` is what cancelling the no-answer timer reports; it is only asked for a final response. */
    method RelayResponse(c: CallId, code: Option<nat>, gate: CancelResult) returns (relayedTo: Option<Addr>)
      modifies this
      ensures Contents() == Next(old(Contents()), Response(c, code, gate))
      ensures relayedTo == if AtLeast(code, 200) && gate == AlreadyFired then None else About(old(Contents()), c).0
      ensures !AtLeast(code, 200) ==> Contents() == old(Contents())
    {
      relayedTo := None;
      if AtLeast(code, 200) && gate == AlreadyFired {
        DropCall(c);
        return;
      }
      if c in pending {
        relayedTo := Some(pending[c]);
        if AtLeast(code, 200) {
          pending := pending - {c};
        }
        if AtLeast(code, 300) {
          relay := relay - {c};
          webrtc := webrtc - {c};
        }
      }
    }

    /**
      A BYE goes to the other party: the callee's when the caller hangs up.
      Without a dialog it goes to where the user of the request URI is registered.
     */
    method HandleBye(c: CallId, src: Addr, registered: Option<Addr>) returns (forward: Option<Addr>)
      modifies this
      ensures Contents() == Next(old(Contents()), Bye(c))
      ensures c !in old(active) ==> forward == registered
      ensures c in old(active) ==> forward.Some?
      ensures c in old(active) && old(active)[c].caller != old(active)[c].callee ==>
                (forward.value == old(active)[c].callee <==> src == old(active)[c].caller)
                && forward.value in {old(active)[c].caller, old(active)[c].callee}
    {
      forward := registered;
      if c in active {
        var dialog := active[c];
        active := active - {c};
        forward := Some(if src == dialog.caller then dialog.callee else dialog.caller);
      }
      pending := pending - {c};
      relay := relay - {c};
      webrtc := webrtc - {c};
      assert old(active) - {c} == active;
    }

    method HandleCancel(c: CallId) returns (forward: Option<Addr>)
      modifies this
      ensures Contents() == Next(old(Contents()), Cancel(c))
      ensures forward == if c in old(active) then Some(old(active)[c].callee) else None
    {
      forward := if c in active then Some(active[c].callee) else None;
      DropCall(c);
    }

    /** The cleanup a fired timer performs before it delivers to voicemail. */
    method DropCall(c: CallId)
      modifies this
      ensures Contents() == Next(old(Contents()), TimerFired(c))
    {
      pending := pending - {c};
      active := active - {c};
      relay := relay - {c};
      webrtc := webrtc - {c};
    }
  }
}
