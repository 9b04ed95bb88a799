/**
  The failed-authentication guard: sliding windows of failures per address and
  per address and user, and the temporary blocks they cause.  Instants and
  durations are natural numbers of seconds of one clock.
 */
module AuthGuard {
  import opened Options
  import opened Instants

  datatype GuardLimits = GuardLimits(window: nat, ipThreshold: nat, userThreshold: nat, blockSecs: nat)

  /** prune_old: drop from the front while the front is too old. */
  function PruneFront(q: seq<nat>, now: nat, window: nat): seq<nat> {
    if q != [] && Since(now, q[0]) > window then PruneFront(q[1..], now, window) else q
  }

  /** `pruned` is when expired blocks are dropped, `at` when the failure is recorded. */
  datatype Event =
    | Failure(ip: string, user: Option<string>, pruned: nat, at: nat)
    | Success(ip: string, user: Option<string>)
    | Unblock(ip: string)
    | Query(at: nat)

  datatype Guard = Guard(
    ipFailures: map<string, seq<nat>>,
    userFailures: map<(string, string), seq<nat>>,
    blocks: map<string, nat>)

  const Fresh := Guard(map[], map[], map[])

  function IpQueue(g: Guard, ip: string): seq<nat> {
    if ip in g.ipFailures then g.ipFailures[ip] else []
  }

  function UserQueue(g: Guard, ip: string, user: string): seq<nat> {
    if (ip, user) in g.userFailures then g.userFailures[(ip, user)] else []
  }

  function Unexpired(blocks: map<string, nat>, now: nat): map<string, nat> {
    map ip | ip in blocks && blocks[ip] > now :: blocks[ip]
  }

  /** The outcome of recording failure `e` on `g`. */
  predicate Triggers(l: GuardLimits, g: Guard, e: Event)
    requires e.Failure?
  {
    || |PruneFront(IpQueue(g, e.ip) + [e.at], e.at, l.window)| >= l.ipThreshold
    || (if e.user.Some? then |PruneFront(UserQueue(g, e.ip, e.user.value) + [e.at], e.at, l.window)| else 0)
         >= l.userThreshold
  }

  function Next(l: GuardLimits, g: Guard, e: Event): Guard {
    match e
    case Failure(ip, user, pruned, at) =>
      var blocks := Unexpired(g.blocks, pruned);
      Guard(
        g.ipFailures[ip := PruneFront(IpQueue(g, ip) + [at], at, l.window)],
        if user.None? then g.userFailures
        else g.userFailures[(ip, user.value) := PruneFront(UserQueue(g, ip, user.value) + [at], at, l.window)],
        if Triggers(l, g, e) then blocks[ip := at + l.blockSecs] else blocks)
    case Success(ip, user) =>
      if user.Some? then g.(userFailures := g.userFailures - {(ip, user.value)}) else g
    case Unblock(ip) => g.(blocks := g.blocks - {ip})
    case Query(at) => g.(blocks := Unexpired(g.blocks, at))
  }

  class SecurityGuard {
    const limits: GuardLimits
    var ipFailures: map<string, seq<nat>>
    var userFailures: map<(string, string), seq<nat>>
    var blocks: map<string, nat>

    constructor (limits: GuardLimits)
      ensures this.limits == limits && Contents() == Fresh
    {
      this.limits := limits;
      ipFailures, userFailures, blocks := map[], map[], map[];
    }

    function Contents(): (g: Guard)
      reads this
    {
      Guard(ipFailures, userFailures, blocks)
    }

    method IsBlocked(ip: string, now: nat) returns (blocked: bool)
      modifies this`blocks
      ensures Contents() == Next(limits, old(Contents()), Query(now))
      ensures blocked <==> ip in old(blocks) && old(blocks)[ip] > now
    {
      blocks := map k | k in blocks && blocks[k] > now :: blocks[k];
      blocked := ip in blocks;
    }

    method PruneOld(entries: seq<nat>, now: nat) returns (kept: seq<nat>)
      ensures kept == PruneFront(entries, now, limits.window)
    {
      kept := entries;
      while kept != [] && Since(now, kept[0]) > limits.window
        invariant PruneFront(kept, now, limits.window) == PruneFront(entries, now, limits.window)
        decreases |kept|
      {
        kept := kept[1..];
      }
    }

    method RecordForIp(ip: string, now: nat) returns (count: nat)
      modifies this`ipFailures
      ensures ipFailures == old(ipFailures)[ip := PruneFront(IpQueue(old(Contents()), ip) + [now], now, limits.window)]
      ensures count == |ipFailures[ip]|
    {
      var entries := if ip in ipFailures then ipFailures[ip] else [];
      entries := PruneOld(entries + [now], now);
      ipFailures := ipFailures[ip := entries];
      count := |entries|;
    }

    method RecordForUser(ip: string, user: string, now: nat) returns (count: nat)
      modifies this`userFailures
      ensures var q := UserQueue(old(Contents()), ip, user) + [now];
              userFailures == old(userFailures)[(ip, user) := PruneFront(q, now, limits.window)]
      ensures count == |userFailures[(ip, user)]|
    {
      var key := (ip, user);
      var entries := if key in userFailures then userFailures[key] else [];
      entries := PruneOld(entries + [now], now);
      userFailures := userFailures[key := entries];
      count := |entries|;
    }

    method RecordFailure(ip: string, user: Option<string>, pruned: nat, now: nat) returns (triggered: bool)
      modifies this
      ensures Contents() == Next(limits, old(Contents()), Failure(ip, user, pruned, now))
      ensures triggered == Triggers(limits, old(Contents()), Failure(ip, user, pruned, now))
    {
      blocks := map k | k in blocks && blocks[k] > pruned :: blocks[k];
      var ipCount := RecordForIp(ip, now);
      var userCount := 0;
      if user.Some? {
        userCount := RecordForUser(ip, user.value, now);
      }
      triggered := ipCount >= limits.ipThreshold || userCount >= limits.userThreshold;
      if triggered {
        blocks := blocks[ip := now + limits.blockSecs];
      }
    }

    method RecordSuccess(ip: string, user: Option<string>)
      modifies this`userFailures
      ensures Contents() == Next(limits, old(Contents()), Success(ip, user))
    {
      if user.Some? {
        userFailures := userFailures - {(ip, user.value)};
      }
    }

    method Unban(ip: string)
      modifies this`blocks
      ensures Contents() == Next(limits, old(Contents()), Unblock(ip))
    {
      blocks := blocks - {ip};
    }
  }

  // ----- The guard against its full history ----------------------------------

  function After(l: GuardLimits, es: seq<Event>): Guard {
    if es == [] then Fresh else Next(l, After(l, es[..|es| - 1]), es[|es| - 1])
  }

  /** The clock: the last time an event was stamped with. */
  function Clock(es: seq<Event>): nat {
    if es == [] then 0
    else match es[|es| - 1]
      case Failure(_, _, _, at) => at
      case Query(at) => at
      case _ => Clock(es[..|es| - 1])
  }

  /** Times never go back. */
  predicate Ordered(es: seq<Event>) {
    es == [] ||
    (Ordered(es[..|es| - 1]) &&
     match es[|es| - 1]
     case Failure(_, _, pruned, at) => Clock(es[..|es| - 1]) <= pruned <= at
     case Query(at) => Clock(es[..|es| - 1]) <= at
     case _ => true)
  }

  /** All failure times of an address, never pruned. */
  function IpHistory(es: seq<Event>, ip: string): seq<nat> {
    if es == [] then []
    else
      var before, e := IpHistory(es[..|es| - 1], ip), es[|es| - 1];
      if e.Failure? && e.ip == ip then before + [e.at] else before
  }

  /** The failure times of an address and user since their last success. */
  function UserHistory(es: seq<Event>, ip: string, user: string): seq<nat> {
    if es == [] then []
    else
      var before, e := UserHistory(es[..|es| - 1], ip, user), es[|es| - 1];
      if e.Failure? && e.ip == ip && e.user == Some(user) then before + [e.at]
      else if e.Success? && e.ip == ip && e.user == Some(user) then []
      else before
  }

  /** How many of the times lie at most `window` before `now`. */
  function CountRecent(h: seq<nat>, now: nat, window: nat): nat {
    if h == [] then 0
    else CountRecent(h[..|h| - 1], now, window) + if Since(now, h[|h| - 1]) <= window then 1 else 0
  }

  lemma {:induction false} PruneTwice(h: seq<nat>, early: nat, late: nat, w: nat)
    requires early <= late
    ensures PruneFront(PruneFront(h, early, w), late, w) == PruneFront(h, late, w)
    decreases |h|
  {
    if h != [] && Since(early, h[0]) > w {
      PruneTwice(h[1..], early, late, w);
    }
  }

  lemma {:induction false} PruneSnoc(h: seq<nat>, t: nat, now: nat, w: nat)
    ensures PruneFront(h + [t], now, w) ==
            if PruneFront(h, now, w) == [] then PruneFront([t], now, w) else PruneFront(h, now, w) + [t]
    decreases |h|
  {
    if h == [] {
      assert h + [t] == [t];
    } else if Since(now, h[0]) > w {
      assert (h + [t])[1..] == h[1..] + [t];
      PruneSnoc(h[1..], t, now, w);
    }
  }

  predicate Ascending(h: seq<nat>, top: nat) {
    (forall i, j :: 0 <= i < j < |h| ==> h[i] <= h[j]) && forall i :: 0 <= i < |h| ==> h[i] <= top
  }

  lemma {:induction false} PruneCounts(h: seq<nat>, now: nat, w: nat)
    requires Ascending(h, now)
    ensures |PruneFront(h, now, w)| == CountRecent(h, now, w)
    decreases |h|
  {
    if h != [] {
      CountCons(h, now, w);
      if Since(now, h[0]) > w {
        PruneCounts(h[1..], now, w);
      } else {
        PruneCounts(h[1..], now, w);
        assert forall i :: 0 <= i < |h| ==> h[i] >= h[0];
        NothingToPrune(h[1..], now, w);
      }
    }
  }

  lemma NothingToPrune(h: seq<nat>, now: nat, w: nat)
    requires forall i :: 0 <= i < |h| ==> Since(now, h[i]) <= w
    ensures PruneFront(h, now, w) == h
  {
  }

  lemma {:induction false} CountCons(h: seq<nat>, now: nat, w: nat)
    requires h != []
    ensures CountRecent(h, now, w) == CountRecent(h[1..], now, w) + if Since(now, h[0]) <= w then 1 else 0
    decreases |h|
  {
    if |h| > 1 {
      var n := |h| - 1;
      CountCons(h[..n], now, w);
      assert h[..n][1..] == h[1..][..n - 1];
    }
  }

  lemma {:induction false} IpHistoryAscends(es: seq<Event>, ip: string, top: nat)
    requires Ordered(es) && Clock(es) <= top
    ensures Ascending(IpHistory(es, ip), top) && Ascending(IpHistory(es, ip), Clock(es))
    decreases |es|
  {
    if es != [] {
      IpHistoryAscends(es[..|es| - 1], ip, Clock(es));
    }
  }

  lemma {:induction false} UserHistoryAscends(es: seq<Event>, ip: string, user: string, top: nat)
    requires Ordered(es) && Clock(es) <= top
    ensures Ascending(UserHistory(es, ip, user), top) && Ascending(UserHistory(es, ip, user), Clock(es))
    decreases |es|
  {
    if es != [] {
      UserHistoryAscends(es[..|es| - 1], ip, user, Clock(es));
    }
  }

  /** From now on the pruned queue of an address stands for its whole history. */
  lemma {:induction false} IpAgrees(l: GuardLimits, es: seq<Event>, ip: string, now: nat)
    requires Ordered(es) && Clock(es) <= now
    ensures PruneFront(IpQueue(After(l, es), ip), now, l.window) == PruneFront(IpHistory(es, ip), now, l.window)
    decreases |es|
  {
    if es != [] {
      var before, e := es[..|es| - 1], es[|es| - 1];
      IpAgrees(l, before, ip, now);
      if e.Failure? && e.ip == ip {
        var q := IpQueue(After(l, before), ip);
        PruneTwice(q + [e.at], e.at, now, l.window);
        PruneSnoc(q, e.at, now, l.window);
        PruneSnoc(IpHistory(before, ip), e.at, now, l.window);
      }
    }
  }

  lemma {:induction false} UserAgrees(l: GuardLimits, es: seq<Event>, ip: string, user: string, now: nat)
    requires Ordered(es) && Clock(es) <= now
    ensures PruneFront(UserQueue(After(l, es), ip, user), now, l.window)
         == PruneFront(UserHistory(es, ip, user), now, l.window)
    decreases |es|
  {
    if es != [] {
      var before, e := es[..|es| - 1], es[|es| - 1];
      UserAgrees(l, before, ip, user, now);
      if e.Failure? && e.ip == ip && e.user == Some(user) {
        var q := UserQueue(After(l, before), ip, user);
        PruneTwice(q + [e.at], e.at, now, l.window);
        PruneSnoc(q, e.at, now, l.window);
        PruneSnoc(UserHistory(before, ip, user), e.at, now, l.window);
      }
    }
  }

  /** The failures that count when `e` is recorded, read off the whole history. */
  predicate EnoughFailures(l: GuardLimits, es: seq<Event>, e: Event)
    requires e.Failure?
  {
    || CountRecent(IpHistory(es + [e], e.ip), e.at, l.window) >= l.ipThreshold
    || (e.user.Some? && CountRecent(UserHistory(es + [e], e.ip, e.user.value), e.at, l.window) >= l.userThreshold)
  }

  /**
    A recorded failure triggers a block exactly when the whole history holds enough
    failures in the window, for the address, or for the address and user since
    their last success; a zero user threshold blocks on any failure.
   */
  lemma TriggersExactly(l: GuardLimits, es: seq<Event>, e: Event)
    requires e.Failure? && Ordered(es + [e])
    ensures Triggers(l, After(l, es), e) <==> EnoughFailures(l, es, e) || l.userThreshold == 0
  {
    var all := es + [e];
    assert all[..|es|] == es;
    IpAgrees(l, es, e.ip, e.at);
    PruneSnoc(IpQueue(After(l, es), e.ip), e.at, e.at, l.window);
    PruneSnoc(IpHistory(es, e.ip), e.at, e.at, l.window);
    IpHistoryAscends(all, e.ip, e.at);
    PruneCounts(IpHistory(all, e.ip), e.at, l.window);
    if e.user.Some? {
      var u := e.user.value;
      UserAgrees(l, es, e.ip, u, e.at);
      PruneSnoc(UserQueue(After(l, es), e.ip, u), e.at, e.at, l.window);
      PruneSnoc(UserHistory(es, e.ip, u), e.at, e.at, l.window);
      UserHistoryAscends(all, e.ip, u, e.at);
      PruneCounts(UserHistory(all, e.ip, u), e.at, l.window);
    }
  }

  /** Event `k` is a failure of this address that triggered. */
  predicate TriggeredAt(l: GuardLimits, es: seq<Event>, k: nat, ip: string)
    requires k < |es|
  {
    es[k].Failure? && es[k].ip == ip && Triggers(l, After(l, es[..k]), es[k])
  }

  /** When the last triggering failure of an address ends its block, unless it was lifted since. */
  function BlockEnd(l: GuardLimits, es: seq<Event>, ip: string): Option<nat> {
    if es == [] then None
    else
      var n := |es| - 1;
      if TriggeredAt(l, es, n, ip) then Some(es[n].at + l.blockSecs)
      else if es[n] == Unblock(ip) then None
      else BlockEnd(l, es[..n], ip)
  }

  /** `BlockEnd` names the last triggering failure with no later unblock. */
  lemma {:induction false} BlockEndMeans(l: GuardLimits, es: seq<Event>, ip: string, k: nat)
    requires k < |es| && TriggeredAt(l, es, k, ip)
    requires forall j :: k < j < |es| ==> !TriggeredAt(l, es, j, ip)
    ensures BlockEnd(l, es, ip) == if Unblock(ip) in es[k..] then None else Some(es[k].at + l.blockSecs)
    decreases |es|
  {
    var n := |es| - 1;
    if k < n {
      forall j | 0 <= j < n ensures es[..n][..j] == es[..j] {
      }
      assert forall j :: 0 <= j < n ==> TriggeredAt(l, es[..n], j, ip) == TriggeredAt(l, es, j, ip);
      BlockEndMeans(l, es[..n], ip, k);
      assert es[k..] == es[..n][k..] + [es[n]];
    } else {
      assert es[k..] == [es[k]];
    }
  }

  /** An address is blocked exactly while the block of its last triggering failure lasts. */
  lemma {:induction false} BlockedExactly(l: GuardLimits, es: seq<Event>, ip: string, now: nat)
    requires Ordered(es) && Clock(es) <= now
    ensures (ip in After(l, es).blocks && After(l, es).blocks[ip] > now)
       <==> (BlockEnd(l, es, ip).Some? && BlockEnd(l, es, ip).value > now)
    decreases |es|
  {
    if es != [] {
      BlockedExactly(l, es[..|es| - 1], ip, now);
    }
  }

  /** Without a triggering failure there is no block. */
  lemma {:induction false} NoTriggerNoBlock(l: GuardLimits, es: seq<Event>, ip: string)
    requires forall j :: 0 <= j < |es| ==> !TriggeredAt(l, es, j, ip)
    ensures BlockEnd(l, es, ip) == None
    decreases |es|
  {
    if es != [] {
      var n := |es| - 1;
      forall j | 0 <= j < n ensures !TriggeredAt(l, es[..n], j, ip) {
        assert es[..n][..j] == es[..j] && !TriggeredAt(l, es, j, ip);
      }
      NoTriggerNoBlock(l, es[..n], ip);
    }
  }

  /** Event `k` is a failure of this address for which the whole history holds enough failures. */
  predicate EnoughAt(l: GuardLimits, es: seq<Event>, k: nat, ip: string)
    requires k < |es|
  {
    es[k].Failure? && es[k].ip == ip && (EnoughFailures(l, es[..k], es[k]) || l.userThreshold == 0)
  }

  lemma {:induction false} OrderedPrefix(es: seq<Event>, n: nat)
    requires Ordered(es) && n <= |es|
    ensures Ordered(es[..n])
    decreases |es|
  {
    if n < |es| {
      OrderedPrefix(es[..|es| - 1], n);
      assert es[..|es| - 1][..n] == es[..n];
    } else {
      assert es[..n] == es;
    }
  }

  lemma EnoughIsTriggered(l: GuardLimits, es: seq<Event>, k: nat, ip: string)
    requires Ordered(es) && k < |es|
    ensures TriggeredAt(l, es, k, ip) <==> EnoughAt(l, es, k, ip)
  {
    OrderedPrefix(es, k + 1);
    assert es[..k + 1] == es[..k] + [es[k]];
    if es[k].Failure? {
      TriggersExactly(l, es[..k], es[k]);
    }
  }

  /** The last of the failures of an address that had enough before them. */
  predicate LastEnough(l: GuardLimits, es: seq<Event>, k: nat, ip: string) {
    k < |es| && EnoughAt(l, es, k, ip) && forall j :: k < j < |es| ==> !EnoughAt(l, es, j, ip)
  }

  lemma {:induction false} FindLast(l: GuardLimits, es: seq<Event>, n: nat, ip: string) returns (k: Option<nat>)
    requires n <= |es| && forall j :: n <= j < |es| ==> !EnoughAt(l, es, j, ip)
    ensures k.Some? ==> LastEnough(l, es, k.value, ip)
    ensures k == None ==> forall j :: 0 <= j < |es| ==> !EnoughAt(l, es, j, ip)
  {
    if n == 0 {
      k := None;
    } else if EnoughAt(l, es, n - 1, ip) {
      k := Some(n - 1);
    } else {
      k := FindLast(l, es, n - 1, ip);
    }
  }

  lemma LastEnoughEnds(l: GuardLimits, es: seq<Event>, ip: string, k: nat)
    requires Ordered(es) && LastEnough(l, es, k, ip)
    ensures BlockEnd(l, es, ip) == if Unblock(ip) in es[k..] then None else Some(es[k].at + l.blockSecs)
  {
    forall j | 0 <= j < |es| ensures TriggeredAt(l, es, j, ip) <==> EnoughAt(l, es, j, ip) {
      EnoughIsTriggered(l, es, j, ip);
    }
    BlockEndMeans(l, es, ip, k);
  }

  /**
    The guard against the whole history: an address is blocked at a time exactly
    when the last of its failures with enough failures behind it has no later
    unblock and is younger than the block time.
   */
  lemma BlockedByHistory(l: GuardLimits, es: seq<Event>, ip: string, now: nat)
    requires Ordered(es) && Clock(es) <= now
    ensures (ip in After(l, es).blocks && After(l, es).blocks[ip] > now)
       <==> exists k: nat :: LastEnough(l, es, k, ip) && Unblock(ip) !in es[k..] && es[k].at + l.blockSecs > now
  {
    BlockedExactly(l, es, ip, now);
    var last := FindLast(l, es, |es|, ip);
    if last == None {
      forall j | 0 <= j < |es| ensures !TriggeredAt(l, es, j, ip) {
        EnoughIsTriggered(l, es, j, ip);
      }
      NoTriggerNoBlock(l, es, ip);
    } else {
      LastEnoughEnds(l, es, ip, last.value);
      forall k: nat | LastEnough(l, es, k, ip) ensures k == last.value {
      }
    }
  }
}
