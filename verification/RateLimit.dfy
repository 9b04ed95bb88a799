/**
  The sliding-window rate limiter of the REST API.  Instants and durations are
  natural numbers of one clock unit.
 */
module RateLimit {
  import opened Instants

  /** The timestamps that `retain` keeps at time `now`. */
  function Recent(h: seq<nat>, now: nat, window: nat): (r: seq<nat>)
    ensures |r| <= |h|
  {
    if h == [] then []
    else
      var kept, last := Recent(h[..|h| - 1], now, window), h[|h| - 1];
      if Since(now, last) < window then kept + [last] else kept
  }

  datatype Limits = Limits(limit: nat, window: nat)

  datatype Request = Request(key: string, at: nat)

  type Table = map<string, seq<nat>>

  function Get(m: Table, key: string): seq<nat> {
    if key in m then m[key] else []
  }

  predicate Admits(l: Limits, m: Table, r: Request) {
    |Recent(Get(m, r.key), r.at, l.window)| < l.limit
  }

  function Next(l: Limits, m: Table, r: Request): Table {
    var kept := Recent(Get(m, r.key), r.at, l.window);
    m[r.key := if Admits(l, m, r) then kept + [r.at] else kept]
  }

  class RateLimiter {
    const limits: Limits
    var requests: Table

    constructor (limits: Limits)
      ensures this.limits == limits && requests == map[]
    {
      this.limits := limits;
      requests := map[];
    }

    method Check(key: string, now: nat) returns (admitted: bool)
      modifies this`requests
      ensures admitted == Admits(limits, old(requests), Request(key, now))
      ensures requests == Next(limits, old(requests), Request(key, now))
    {
      var timestamps := if key in requests then requests[key] else [];
      var kept := [];
      var i := 0;
      while i < |timestamps|
        invariant 0 <= i <= |timestamps|
        invariant kept == Recent(timestamps[..i], now, limits.window)
      {
        assert timestamps[..i + 1][..i] == timestamps[..i];
        if Since(now, timestamps[i]) < limits.window {
          kept := kept + [timestamps[i]];
        }
        i := i + 1;
      }
      assert timestamps[..i] == timestamps;
      if |kept| >= limits.limit {
        requests := requests[key := kept];
        return false;
      }
      requests := requests[key := kept + [now]];
      admitted := true;
    }
  }

  // ----- The pruned table against the full history ---------------------------

  function After(l: Limits, rs: seq<Request>): Table {
    if rs == [] then map[] else Next(l, After(l, rs[..|rs| - 1]), rs[|rs| - 1])
  }

  /** Whether the `n`-th request of a run was admitted. */
  predicate Admitted(l: Limits, rs: seq<Request>, n: nat)
    requires n < |rs|
  {
    Admits(l, After(l, rs[..n]), rs[n])
  }

  /** The times of all admitted requests of one key, never pruned. */
  function History(l: Limits, rs: seq<Request>, key: string): seq<nat> {
    if rs == [] then []
    else
      var n := |rs| - 1;
      var before := History(l, rs[..n], key);
      if rs[n].key == key && Admits(l, After(l, rs[..n]), rs[n]) then before + [rs[n].at] else before
  }

  predicate Ordered(rs: seq<Request>) {
    forall i, j :: 0 <= i < j < |rs| ==> rs[i].at <= rs[j].at
  }

  /** The number of times in the half-open window (end - window, end]. */
  function InWindow(h: seq<nat>, end: nat, window: nat): nat {
    if h == [] then 0
    else
      var last := h[|h| - 1];
      InWindow(h[..|h| - 1], end, window) + if last <= end < last + window then 1 else 0
  }

  lemma RecentSnoc(h: seq<nat>, t: nat, now: nat, w: nat)
    ensures Recent(h + [t], now, w) == if Since(now, t) < w then Recent(h, now, w) + [t] else Recent(h, now, w)
  {
    assert (h + [t])[..|h|] == h;
  }

  /** Pruning early does not lose anything a later pruning would keep. */
  lemma {:induction false} RecentTwice(h: seq<nat>, early: nat, late: nat, w: nat)
    requires early <= late
    ensures Recent(Recent(h, early, w), late, w) == Recent(h, late, w)
  {
    if h != [] {
      var n := |h| - 1;
      RecentTwice(h[..n], early, late, w);
      if Since(early, h[n]) < w {
        RecentSnoc(Recent(h[..n], early, w), h[n], late, w);
      }
    }
  }

  /** From the last request on, the pruned list and the full history agree. */
  lemma {:induction false} PrunedAgrees(l: Limits, rs: seq<Request>, key: string, now: nat)
    requires Ordered(rs) && (rs != [] ==> rs[|rs| - 1].at <= now)
    ensures Recent(Get(After(l, rs), key), now, l.window) == Recent(History(l, rs, key), now, l.window)
    decreases |rs|
  {
    if rs != [] {
      var n := |rs| - 1;
      var r := rs[n];
      PrunedAgrees(l, rs[..n], key, now);
      if r.key == key {
        var stored := Get(After(l, rs[..n]), key);
        RecentTwice(stored, r.at, now, l.window);
        RecentSnoc(Recent(stored, r.at, l.window), r.at, now, l.window);
        RecentSnoc(History(l, rs[..n], key), r.at, now, l.window);
      }
    }
  }

  predicate UpTo(h: seq<nat>, t: nat) {
    forall i :: 0 <= i < |h| ==> h[i] <= t
  }

  lemma {:induction false} HistoryBounded(l: Limits, rs: seq<Request>, key: string, t: nat)
    requires Ordered(rs) && (rs != [] ==> rs[|rs| - 1].at <= t)
    ensures UpTo(History(l, rs, key), t)
    decreases |rs|
  {
    if rs != [] {
      HistoryBounded(l, rs[..|rs| - 1], key, t);
    }
  }

  /** Counting by window and by age is the same for times that are not in the future. */
  lemma {:induction false} WindowIsRecent(h: seq<nat>, now: nat, end: nat, w: nat)
    requires now <= end && UpTo(h, now)
    ensures InWindow(h, end, w) <= |Recent(h, now, w)|
    ensures now == end ==> InWindow(h, end, w) == |Recent(h, now, w)|
  {
    if h != [] {
      WindowIsRecent(h[..|h| - 1], now, end, w);
    }
  }

  lemma InWindowSnoc(h: seq<nat>, t: nat, end: nat, w: nat)
    ensures InWindow(h + [t], end, w) == InWindow(h, end, w) + if t <= end < t + w then 1 else 0
  {
    assert (h + [t])[..|h|] == h;
  }

  /** At most `limit` requests of a key are admitted in any window, whatever its end. */
  lemma {:induction false} AtMostLimit(l: Limits, rs: seq<Request>, key: string, end: nat)
    requires Ordered(rs)
    ensures InWindow(History(l, rs, key), end, l.window) <= l.limit
    decreases |rs|
  {
    if rs != [] {
      var n := |rs| - 1;
      var r := rs[n];
      AtMostLimit(l, rs[..n], key, end);
      if r.key == key && Admits(l, After(l, rs[..n]), r) {
        var h := History(l, rs[..n], key);
        InWindowSnoc(h, r.at, end, l.window);
        if r.at <= end {
          PrunedAgrees(l, rs[..n], key, r.at);
          HistoryBounded(l, rs[..n], key, r.at);
          WindowIsRecent(h, r.at, end, l.window);
        }
      }
    }
  }

  /** A request is refused exactly when `limit` others were admitted in the window that ends with it. */
  lemma RefusedExactlyWhenFull(l: Limits, rs: seq<Request>, n: nat)
    requires Ordered(rs) && n < |rs|
    ensures !Admitted(l, rs, n) <==>
            InWindow(History(l, rs[..n], rs[n].key), rs[n].at, l.window) == l.limit
  {
    var before, r := rs[..n], rs[n];
    PrunedAgrees(l, before, r.key, r.at);
    HistoryBounded(l, before, r.key, r.at);
    WindowIsRecent(History(l, before, r.key), r.at, r.at, l.window);
    AtMostLimit(l, before, r.key, r.at);
  }
}
