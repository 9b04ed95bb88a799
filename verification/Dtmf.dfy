/**
  The `*6` mute machine of a conference participant.  Digits arrive as RFC 4733
  telephone-event packets or through SIP INFO; instants are milliseconds.
 */
module Dtmf {
  import opened Options
  import opened Instants
  import opened G711

  const STAR := 10
  const SIX := 6
  const STAR6_TIMEOUT := 3000

  datatype State = State(muted: bool, lastDigit: Option<(nat, nat)>, lastEventTs: Option<nat>)

  /** A participant before its first digit. */
  function Joined(muted: bool): State {
    State(muted, None, None)
  }

  datatype Input =
    | Info(event: nat, at: nat)
    | Packet(event: nat, end: bool, ts: nat, at: nat)

  /** A star that was recorded at `prev` and is recent enough to arm a six. */
  predicate Arms(prev: (nat, nat), now: nat) {
    prev.0 == STAR && Since(now, prev.1) < STAR6_TIMEOUT
  }

  function RecordDtmf(s: State, event: nat, now: nat): State {
    if event == SIX && s.lastDigit.Some? && Arms(s.lastDigit.value, now)
    then s.(lastDigit := None, muted := !s.muted)
    else s.(lastDigit := Some((event, now)))
  }

  function Step(s: State, i: Input): State {
    match i
    case Info(event, at) => RecordDtmf(s, event, at)
    case Packet(event, end, ts, at) =>
      if !end || s.lastEventTs == Some(ts) then s
      else RecordDtmf(s.(lastEventTs := Some(ts)), event, at)
  }

  function After(s: State, es: seq<Input>): State {
    if es == [] then s else Step(After(s, es[..|es| - 1]), es[|es| - 1])
  }

  /** The telephone-event payload: four octets, the event in the low nibble of the first. */
  function ParseEvent(payload: seq<Octet>): Option<(nat, bool)> {
    if |payload| < 4 then None else Some((payload[0] % 16, payload[1] >= 128))
  }

  // ----- Which packets count, read off the trace ------------------------------

  /** The RTP timestamp of the last end packet of a trace. */
  function LastEndTs(es: seq<Input>): Option<nat> {
    if es == [] then None
    else
      var i := es[|es| - 1];
      if i.Packet? && i.end then Some(i.ts) else LastEndTs(es[..|es| - 1])
  }

  /** The input is a new digit after `before`: INFO, or an end packet of a new event. */
  predicate New(before: seq<Input>, i: Input) {
    i.Info? || (i.end && LastEndTs(before) != Some(i.ts))
  }

  /** The trace without the packets that only repeat or announce an event. */
  function Dedup(es: seq<Input>): seq<Input> {
    if es == [] then []
    else
      var before, i := es[..|es| - 1], es[|es| - 1];
      if New(before, i) then Dedup(before) + [i] else Dedup(before)
  }

  /** The digits of a trace, with their times. */
  function Digits(es: seq<Input>): seq<(nat, nat)> {
    if es == [] then []
    else
      var before, i := es[..|es| - 1], es[|es| - 1];
      if New(before, i) then Digits(before) + [(i.event, i.at)] else Digits(before)
  }

  /** Digit `k` is a six directly after a star less than three seconds old. */
  predicate Completes(ds: seq<(nat, nat)>, k: nat)
    requires k < |ds|
  {
    k > 0 && ds[k].0 == SIX && Arms(ds[k - 1], ds[k].1)
  }

  function Completions(ds: seq<(nat, nat)>): nat {
    if ds == [] then 0
    else Completions(ds[..|ds| - 1]) + if Completes(ds, |ds| - 1) then 1 else 0
  }

  lemma {:induction false} TsIsLastEnd(m: bool, es: seq<Input>)
    ensures After(Joined(m), es).lastEventTs == LastEndTs(es)
  {
    if es != [] {
      TsIsLastEnd(m, es[..|es| - 1]);
    }
  }

  /** A packet that is not new leaves the whole state unchanged. */
  lemma NotNewIgnored(m: bool, before: seq<Input>, i: Input)
    requires !New(before, i)
    ensures Step(After(Joined(m), before), i) == After(Joined(m), before)
  {
    TsIsLastEnd(m, before);
  }

  lemma {:induction false} DedupLastEnd(es: seq<Input>)
    ensures LastEndTs(Dedup(es)) == LastEndTs(es)
  {
    if es != [] {
      var before, i := es[..|es| - 1], es[|es| - 1];
      DedupLastEnd(before);
      if New(before, i) {
        assert (Dedup(before) + [i])[..|Dedup(before)|] == Dedup(before);
      }
    }
  }

  /** A trace and its de-duplicated form leave the participant in the same state. */
  lemma {:induction false} DedupAgrees(m: bool, es: seq<Input>)
    ensures After(Joined(m), Dedup(es)) == After(Joined(m), es)
    ensures Dedup(Dedup(es)) == Dedup(es)
  {
    if es != [] {
      var before, i := es[..|es| - 1], es[|es| - 1];
      DedupAgrees(m, before);
      if New(before, i) {
        assert (Dedup(before) + [i])[..|Dedup(before)|] == Dedup(before);
        DedupLastEnd(before);
      } else {
        NotNewIgnored(m, before, i);
      }
    }
  }

  /** What the machine remembers of the last digit. */
  predicate Remembers(s: State, ds: seq<(nat, nat)>) {
    if ds == [] then s.lastDigit == None
    else s.lastDigit == Some(ds[|ds| - 1]) || (s.lastDigit == None && ds[|ds| - 1].0 == SIX)
  }

  /** A flag after being flipped `n` times. */
  function Flipped(m: bool, n: nat): bool {
    if n == 0 then m else !Flipped(m, n - 1)
  }

  /** Recording one more digit flips the flag exactly when it completes a star-six. */
  lemma DigitRecorded(s: State, ds: seq<(nat, nat)>, event: nat, at: nat)
    requires Remembers(s, ds)
    ensures var more := ds + [(event, at)];
            var next := RecordDtmf(s, event, at);
            && Remembers(next, more)
            && Completions(more) == (if next.muted == s.muted then Completions(ds) else Completions(ds) + 1)
  {
    var more := ds + [(event, at)];
    assert more[..|ds|] == ds;
    assert ds != [] ==> more[|ds| - 1] == ds[|ds| - 1];
  }

  lemma NewRecorded(s: State, ds: seq<(nat, nat)>, i: Input)
    requires Remembers(s, ds) && (i.Info? || (i.end && s.lastEventTs != Some(i.ts)))
    ensures var more := ds + [(i.event, i.at)];
            && Remembers(Step(s, i), more)
            && Completions(more) == (if Step(s, i).muted == s.muted then Completions(ds) else Completions(ds) + 1)
  {
    DigitRecorded(if i.Info? then s else s.(lastEventTs := Some(i.ts)), ds, i.event, i.at);
  }

  /** The mute flag has been flipped once for each completed star-six. */
  lemma {:induction false} MuteCountsStarSix(m: bool, es: seq<Input>)
    ensures After(Joined(m), es).muted == Flipped(m, Completions(Digits(es)))
    ensures Remembers(After(Joined(m), es), Digits(es))
  {
    if es != [] {
      var before, i := es[..|es| - 1], es[|es| - 1];
      MuteCountsStarSix(m, before);
      if New(before, i) {
        TsIsLastEnd(m, before);
        var s, ds := After(Joined(m), before), Digits(before);
        NewRecorded(s, ds, i);
        assert Digits(es) == ds + [(i.event, i.at)] && After(Joined(m), es) == Step(s, i);
      } else {
        NotNewIgnored(m, before, i);
      }
    }
  }
}
