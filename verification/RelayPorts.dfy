/**
  The RTP relay's port allocator.  The operating system is the set of ports that
  other processes hold (`taken`) together with the ports held by the relay's own
  sockets (`held`); aborting a stream's tasks closes its two sockets.  A counter
  is a u32, ports are u16.
 */
module RelayPorts {
  import opened Options

  const U32 := 0x1_0000_0000

  /** The configured range; the width leaves the last port to the last pair. */
  datatype Config = Config(min: nat, max: nat) {
    function Width(): nat { if max < min then 0 else max - min }
  }

  /** `offset & !1` */
  function Aligned(offset: nat): nat {
    offset - offset % 2
  }

  /** Ports `base` and `base + 1` form a pair the search is meant to consider. */
  predicate InPair(c: Config, base: nat) {
    c.min <= base && base + 1 <= c.max && (base - c.min) % 2 == 0
  }

  predicate FreePair(base: nat, busy: set<nat>) {
    base !in busy && base + 1 !in busy
  }

  // ----- The pair search ----------------------------------------------------

  /** The u32 counter after `k` attempts, each adding two. */
  function Advance(counter: nat, k: nat): nat {
    (counter + 2 * k) % U32
  }

  /** The first port of the pair that attempt `k` of a search looks at. */
  function Attempt(c: Config, counter: nat, k: nat): nat
    requires c.Width() >= 2
  {
    c.min + Aligned(Advance(counter, k) % c.Width())
  }

  /** The first successful attempt from the `k`-th on, or `Width() / 2` if there is none. */
  function FirstFree(c: Config, counter: nat, busy: set<nat>, k: nat): (r: nat)
    requires c.Width() >= 2 && k <= c.Width() / 2
    ensures k <= r <= c.Width() / 2
    ensures forall j :: k <= j < r ==> !FreePair(Attempt(c, counter, j), busy)
    ensures r < c.Width() / 2 ==> FreePair(Attempt(c, counter, r), busy)
    decreases c.Width() / 2 - k
  {
    if k == c.Width() / 2 || FreePair(Attempt(c, counter, k), busy) then k
    else FirstFree(c, counter, busy, k + 1)
  }

  /** The counter after the search, and the pair it found. */
  function BindPair(c: Config, counter: nat, busy: set<nat>): (nat, Option<nat>) {
    if c.Width() < 2 then (counter, None)
    else
      var r := FirstFree(c, counter, busy, 0);
      if r < c.Width() / 2 then (Advance(counter, r + 1), Some(Attempt(c, counter, r)))
      else (Advance(counter, r), None)
  }

  lemma AttemptInRange(c: Config, counter: nat, k: nat)
    requires c.Width() >= 2
    ensures InPair(c, Attempt(c, counter, k))
  {
    var o := Advance(counter, k) % c.Width();
    assert 0 <= o < c.Width();
  }

  lemma AdvanceNext(counter: nat, k: nat)
    ensures Advance(counter, k + 1) == (Advance(counter, k) + 2) % U32
  {
  }

  lemma AdvanceEven(counter: nat, k: nat)
    requires counter % 2 == 0
    ensures Advance(counter, k) % 2 == 0
  {
  }

  lemma CounterStaysEven(c: Config, counter: nat, busy: set<nat>)
    requires counter % 2 == 0
    ensures BindPair(c, counter, busy).0 % 2 == 0
  {
    if c.Width() >= 2 {
      var r := FirstFree(c, counter, busy, 0);
      AdvanceEven(counter, r + 1);
      AdvanceEven(counter, r);
    }
  }

  /** Whatever is found is a free pair of the range. */
  lemma BindPairSafe(c: Config, counter: nat, busy: set<nat>)
    ensures BindPair(c, counter, busy).1.Some? ==>
              var base := BindPair(c, counter, busy).1.value;
              InPair(c, base) && FreePair(base, busy)
  {
    if c.Width() >= 2 {
      AttemptInRange(c, counter, FirstFree(c, counter, busy, 0));
    }
  }

  /**
    The walk does not jump: either the u32 counter does not wrap during the
    search, or wrapping does not show because the width divides its range.
   */
  predicate NoJump(c: Config, counter: nat)
    requires c.Width() >= 2
  {
    counter + c.Width() <= U32 || U32 % c.Width() == 0
  }

  /** Attempt `k` in closed form as long as the walk does not jump. */
  lemma AttemptOffset(c: Config, counter: nat, k: nat)
    requires c.Width() >= 2 && k < c.Width() / 2 && NoJump(c, counter)
    ensures var w := c.Width();
            var r := counter % w;
            Attempt(c, counter, k) == c.min + Aligned(if r + 2 * k < w then r + 2 * k else r + 2 * k - w)
  {
    var w := c.Width();
    assert Advance(counter, k) % w == (counter + 2 * k) % w by {
      if counter + w <= U32 {
        SmallMod(counter + 2 * k, U32);
      } else {
        ModMod(counter + 2 * k, U32, w);
      }
    }
    ModShift(counter, w, 2 * k);
  }

  lemma SmallMod(x: nat, m: nat)
    requires x < m
    ensures x % m == x
  {
  }

  lemma ModMod(x: nat, m: nat, w: nat)
    requires m > 0 && w > 0 && m % w == 0
    ensures x % m % w == x % w
  {
    var a, b, q := x / m, x % m / w, m / w;
    assert x == a * m + x % m && m == q * w && x % m == b * w + x % m % w;
    assert a * (q * w) + b * w == (a * q + b) * w;
    ModUnique(x, w, a * q + b, x % m % w);
  }

  lemma ModShift(x: nat, w: nat, d: nat)
    requires w > 0 && d < w
    ensures (x + d) % w == if x % w + d < w then x % w + d else x % w + d - w
  {
    var q, r := x / w, x % w;
    assert x == q * w + r;
    if r + d < w {
      ModUnique(x + d, w, q, r + d);
    } else {
      assert x + d == (q + 1) * w + (r + d - w);
      ModUnique(x + d, w, q + 1, r + d - w);
    }
  }

  lemma ModUnique(x: nat, w: nat, q: nat, r: nat)
    requires w > 0 && r < w && x == q * w + r
    ensures x % w == r
  {
    var d := x / w - q;
    assert d * w == r - x % w by {
      assert x == (x / w) * w + x % w;
      assert (x / w) * w - q * w == d * w;
    }
    MulBound(d, w);
  }

  lemma MulBound(d: int, w: int)
    requires w > 0
    ensures d >= 1 ==> d * w >= w
    ensures d <= -1 ==> d * w <= -w
  {
  }

  /** The attempt that looks at offset `o`. */
  function AttemptFor(w: nat, r: nat, o: nat): int {
    if o >= r then (o - r) / 2 else (o + w - r) / 2
  }

  predicate Attempted(c: Config, counter: nat, base: nat)
    requires c.Width() >= 2
  {
    exists k :: 0 <= k < c.Width() / 2 && Attempt(c, counter, k) == base
  }

  /** With an even width and no jump every aligned pair of the range is attempted ... */
  lemma EvenWidthCovers(c: Config, counter: nat, base: nat)
    requires c.Width() >= 2 && c.Width() % 2 == 0 && counter % 2 == 0 && NoJump(c, counter)
    requires InPair(c, base)
    ensures Attempted(c, counter, base)
  {
    var w := c.Width();
    var r := counter % w;
    EvenRemainder(counter, w);
    CoverArithmetic(w, r, base - c.min);
    var k := AttemptFor(w, r, base - c.min);
    AttemptOffset(c, counter, k);
    assert Attempt(c, counter, k) == base;
  }

  lemma CoverArithmetic(w: nat, r: nat, o: nat)
    requires w >= 2 && w % 2 == 0 && r < w && r % 2 == 0 && o < w && o % 2 == 0
    ensures var k := AttemptFor(w, r, o);
            0 <= k < w / 2 && o == Aligned(if r + 2 * k < w then r + 2 * k else r + 2 * k - w)
  {
  }

  /** ... and no pair is attempted twice. */
  lemma EvenWidthNoRepeat(c: Config, counter: nat, k: nat, j: nat)
    requires c.Width() >= 2 && c.Width() % 2 == 0 && counter % 2 == 0 && NoJump(c, counter)
    requires k < j < c.Width() / 2
    ensures Attempt(c, counter, k) != Attempt(c, counter, j)
  {
    EvenRemainder(counter, c.Width());
    AttemptOffset(c, counter, k);
    AttemptOffset(c, counter, j);
    NoRepeatArithmetic(c.Width(), counter % c.Width(), k, j);
  }

  lemma NoRepeatArithmetic(w: nat, r: nat, k: nat, j: nat)
    requires w >= 2 && w % 2 == 0 && r < w && r % 2 == 0 && k < j < w / 2
    ensures Aligned(if r + 2 * k < w then r + 2 * k else r + 2 * k - w)
         != Aligned(if r + 2 * j < w then r + 2 * j else r + 2 * j - w)
  {
  }

  lemma EvenRemainder(x: nat, w: nat)
    requires w > 0 && x % 2 == 0 && w % 2 == 0
    ensures x % w % 2 == 0
  {
    var q, h := x / w, w / 2;
    assert x == q * w + x % w;
    assert q * (2 * h) == 2 * (q * h);
    Parity(x, q * h, x % w);
  }

  lemma Parity(x: int, p: int, r: int)
    requires x == 2 * p + r && x % 2 == 0
    ensures r % 2 == 0
  {
  }

  // ----- When the counter wraps inside a search -----------------------------------

  /** Offset of an attempt: `d` attempts before the wrap, or behind it. */
  function JumpOffset(w: nat, u: nat, m: nat, k: nat): int {
    if k >= m then 2 * (k - m) else if u >= 2 * (m - k) then u - 2 * (m - k) else u - 2 * (m - k) + w
  }

  lemma AttemptJumps(c: Config, counter: nat, k: nat)
    requires c.max <= 65535 && c.Width() >= 2 && c.Width() % 2 == 0
    requires counter % 2 == 0 && counter < U32 < counter + c.Width() && k < c.Width() / 2
    ensures var u, m := U32 % c.Width(), (U32 - counter) / 2;
            Attempt(c, counter, k) == c.min + JumpOffset(c.Width(), u, m, k)
  {
    var w := c.Width();
    var u, m := U32 % w, (U32 - counter) / 2;
    EvenRemainder(U32, w);
    Halves(counter);
    assert Advance(counter, k) % w == JumpOffset(w, u, m, k) by {
      if k >= m {
        WrappedMod(counter + 2 * k, U32);
        SmallMod(2 * (k - m), w);
      } else {
        SmallMod(counter + 2 * k, U32);
        ModBack(U32, w, 2 * (m - k));
      }
    }
    OffsetEven(w, u, m, k);
  }

  lemma Halves(counter: nat)
    requires counter % 2 == 0 && counter < U32
    ensures U32 - counter == 2 * ((U32 - counter) / 2)
  {
  }

  lemma WrappedMod(x: nat, m: nat)
    requires m <= x < 2 * m
    ensures x % m == x - m
  {
    ModUnique(x, m, 1, x - m);
  }

  lemma OffsetEven(w: nat, u: nat, m: nat, k: nat)
    requires w % 2 == 0 && u % 2 == 0 && u < w && 2 * m < w
    ensures JumpOffset(w, u, m, k) % 2 == 0
  {
  }

  lemma ModBack(x: nat, w: nat, d: nat)
    requires w > 0 && d < w && d <= x
    ensures (x - d) % w == if x % w >= d then x % w - d else x % w - d + w
  {
    var q, r := x / w, x % w;
    assert x == q * w + r;
    if r >= d {
      ModUnique(x - d, w, q, r - d);
    } else {
      assert q >= 1;
      assert x - d == (q - 1) * w + (r - d + w);
      ModUnique(x - d, w, q - 1, r - d + w);
    }
  }

  function JumpedOver(w: nat, u: nat, m: nat): int {
    if 2 * m <= u then w - 2 else w - 2 - (2 * m - u)
  }

  lemma JumpMisses(w: nat, u: nat, m: nat, k: nat)
    requires w % 2 == 0 && u % 2 == 0 && 0 < u < w && 0 < m && 2 * m < w && k < w / 2
    ensures JumpOffset(w, u, m, k) != JumpedOver(w, u, m)
    ensures 0 <= JumpedOver(w, u, m) <= w - 2 && JumpedOver(w, u, m) % 2 == 0
  {
  }

  lemma JumpRepeats(w: nat, u: nat, m: nat) returns (k: nat, j: nat)
    requires w % 2 == 0 && u % 2 == 0 && 0 < u < w && 0 < m && 2 * m < w
    ensures k < j < w / 2 && JumpOffset(w, u, m, k) == JumpOffset(w, u, m, j)
  {
    if 2 * m <= u {
      k, j := 0, u / 2;
    } else {
      k, j := m - u / 2, m;
    }
  }

  lemma JumpShape(c: Config, counter: nat)
    requires c.max <= 65535 && c.Width() >= 2 && c.Width() % 2 == 0
    requires counter % 2 == 0 && counter < U32 && !NoJump(c, counter)
    ensures var u, m := U32 % c.Width(), (U32 - counter) / 2;
            u % 2 == 0 && 0 < u < c.Width() && 0 < m && 2 * m < c.Width()
  {
    EvenRemainder(U32, c.Width());
  }

  /** A jump leaves out an aligned pair ... */
  lemma JumpLeavesOut(c: Config, counter: nat) returns (base: nat)
    requires c.max <= 65535 && c.Width() >= 2 && c.Width() % 2 == 0
    requires counter % 2 == 0 && counter < U32 && !NoJump(c, counter)
    ensures InPair(c, base) && !Attempted(c, counter, base)
  {
    var w, u, m := c.Width(), U32 % c.Width(), (U32 - counter) / 2;
    JumpShape(c, counter);
    JumpMisses(w, u, m, 0);
    base := c.min + JumpedOver(w, u, m);
    forall k | 0 <= k < w / 2 ensures Attempt(c, counter, k) != base {
      AttemptJumps(c, counter, k);
      JumpMisses(w, u, m, k);
    }
  }

  /** With an even width the search tries every pair exactly when its walk does not jump. */
  lemma CoversExactly(c: Config, counter: nat)
    requires c.max <= 65535 && c.Width() >= 2 && c.Width() % 2 == 0 && counter % 2 == 0 && counter < U32
    ensures (forall base :: InPair(c, base) ==> Attempted(c, counter, base)) <==> NoJump(c, counter)
  {
    if NoJump(c, counter) {
      forall base | InPair(c, base) ensures Attempted(c, counter, base) {
        EvenWidthCovers(c, counter, base);
      }
    } else {
      var base := JumpLeavesOut(c, counter);
    }
  }

  /** And exactly then it tries none twice. */
  lemma RepeatsExactly(c: Config, counter: nat)
    requires c.max <= 65535 && c.Width() >= 2 && c.Width() % 2 == 0 && counter % 2 == 0 && counter < U32
    ensures (forall k, j :: 0 <= k < j < c.Width() / 2 ==> Attempt(c, counter, k) != Attempt(c, counter, j))
       <==> NoJump(c, counter)
  {
    if NoJump(c, counter) {
      forall k, j | 0 <= k < j < c.Width() / 2 ensures Attempt(c, counter, k) != Attempt(c, counter, j) {
        EvenWidthNoRepeat(c, counter, k, j);
      }
    } else {
      JumpShape(c, counter);
      var k, j := JumpRepeats(c.Width(), U32 % c.Width(), (U32 - counter) / 2);
      AttemptJumps(c, counter, k);
      AttemptJumps(c, counter, j);
    }
  }

  // ----- Odd widths ------------------------------------------------------------------

  function AttemptSet(c: Config, counter: nat, n: nat): set<nat>
    requires c.Width() >= 2
  {
    if n == 0 then {} else AttemptSet(c, counter, n - 1) + {Attempt(c, counter, n - 1)}
  }

  lemma {:induction false} AttemptSetSize(c: Config, counter: nat, n: nat)
    requires c.Width() >= 2
    ensures |AttemptSet(c, counter, n)| <= n
  {
    if n > 0 {
      AttemptSetSize(c, counter, n - 1);
    }
  }

  lemma {:induction false} AttemptInSet(c: Config, counter: nat, n: nat, k: nat)
    requires c.Width() >= 2 && k < n
    ensures Attempt(c, counter, k) in AttemptSet(c, counter, n)
  {
    if k < n - 1 {
      AttemptInSet(c, counter, n - 1, k);
    }
  }

  lemma {:induction false} WhichAttempt(c: Config, counter: nat, n: nat, base: nat) returns (k: nat)
    requires c.Width() >= 2 && base in AttemptSet(c, counter, n)
    ensures k < n && Attempt(c, counter, k) == base
  {
    if base == Attempt(c, counter, n - 1) {
      k := n - 1;
    } else {
      k := WhichAttempt(c, counter, n - 1, base);
    }
  }

  function PairSet(min: nat, n: nat): set<nat> {
    if n == 0 then {} else PairSet(min, n - 1) + {min + 2 * (n - 1)}
  }

  lemma {:induction false} PairSetIs(min: nat, n: nat)
    ensures |PairSet(min, n)| == n
    ensures forall p :: p in PairSet(min, n) ==> min <= p && p + 2 <= min + 2 * n && (p - min) % 2 == 0
  {
    if n > 0 {
      PairSetIs(min, n - 1);
      assert min + 2 * (n - 1) !in PairSet(min, n - 1);
    }
  }

  lemma Subsets(a: set<nat>, b: set<nat>)
    requires a <= b
    ensures |a| <= |b|
  {
    assert b == a + (b - a);
  }

  /** With an odd width there is one pair more than there are attempts: some pair is never tried. */
  lemma OddWidthMisses(c: Config, counter: nat) returns (base: nat)
    requires c.Width() >= 2 && c.Width() % 2 == 1
    ensures InPair(c, base) && !Attempted(c, counter, base)
  {
    var n := c.Width() / 2;
    var pairs, tried := PairSet(c.min, n + 1), AttemptSet(c, counter, n);
    PairSetIs(c.min, n + 1);
    AttemptSetSize(c, counter, n);
    if pairs <= tried {
      Subsets(pairs, tried);
      assert false;
    }
    base :| base in pairs && base !in tried;
    forall k | 0 <= k < n ensures Attempt(c, counter, k) != base {
      AttemptInSet(c, counter, n, k);
    }
  }

  // ----- When the search fails ---------------------------------------------------------

  /** The search fails only if no aligned pair is free, whichever ports are busy. */
  ghost predicate FailsOnlyWhenFull(c: Config, counter: nat) {
    forall busy: set<nat> :: BindPair(c, counter, busy).1 == None ==> Full(c, busy)
  }

  ghost predicate Full(c: Config, busy: set<nat>) {
    forall base :: InPair(c, base) ==> !FreePair(base, busy)
  }

  /** With all attempted pairs busy the search fails ... */
  lemma AllTriedBusy(c: Config, counter: nat)
    requires c.Width() >= 2
    ensures BindPair(c, counter, AttemptSet(c, counter, c.Width() / 2)).1 == None
  {
    var n := c.Width() / 2;
    var r := FirstFree(c, counter, AttemptSet(c, counter, n), 0);
    if r < n {
      AttemptInSet(c, counter, n, r);
      assert false;
    }
  }

  lemma PairsDoNotTouch(c: Config, base: nat)
    requires InPair(c, base)
    ensures !InPair(c, base + 1)
  {
  }

  /** ... while a pair that was not attempted is free. */
  lemma UntriedFree(c: Config, counter: nat, base: nat)
    requires c.Width() >= 2 && InPair(c, base) && !Attempted(c, counter, base)
    ensures FreePair(base, AttemptSet(c, counter, c.Width() / 2))
  {
    var n := c.Width() / 2;
    if base in AttemptSet(c, counter, n) {
      var k := WhichAttempt(c, counter, n, base);
      assert false;
    }
    if base + 1 in AttemptSet(c, counter, n) {
      var k := WhichAttempt(c, counter, n, base + 1);
      AttemptInRange(c, counter, k);
      PairsDoNotTouch(c, base);
    }
  }

  lemma MissedCanFail(c: Config, counter: nat, base: nat)
    requires c.Width() >= 2 && InPair(c, base) && !Attempted(c, counter, base)
    ensures !FailsOnlyWhenFull(c, counter)
  {
    AllTriedBusy(c, counter);
    UntriedFree(c, counter, base);
  }

  /** The search fails only when it must, exactly for an even width without a jump. */
  lemma BindFailsOnlyWhenFull(c: Config, counter: nat)
    requires c.max <= 65535 && c.Width() >= 2 && counter % 2 == 0 && counter < U32
    ensures FailsOnlyWhenFull(c, counter) <==> c.Width() % 2 == 0 && NoJump(c, counter)
  {
    if c.Width() % 2 == 1 {
      var base := OddWidthMisses(c, counter);
      MissedCanFail(c, counter, base);
    } else if !NoJump(c, counter) {
      var base := JumpLeavesOut(c, counter);
      MissedCanFail(c, counter, base);
    } else {
      forall busy: set<nat> | BindPair(c, counter, busy).1 == None ensures Full(c, busy) {
        forall base | InPair(c, base) ensures !FreePair(base, busy) {
          EvenWidthCovers(c, counter, base);
        }
      }
    }
  }

  /** A pair that is free can be missed when the counter wraps inside the search. */
  lemma WrapMisses()
    ensures var c := Config(10000, 10006);
            BindPair(c, U32 - 2, {10000, 10002}).1 == None && InPair(c, 10004) && FreePair(10004, {10000, 10002})
  {
    var c, busy := Config(10000, 10006), {10000, 10002};
    assert Attempt(c, U32 - 2, 0) == 10002;
    assert Attempt(c, U32 - 2, 1) == 10000;
    assert Attempt(c, U32 - 2, 2) == 10002;
    assert FirstFree(c, U32 - 2, busy, 0) == 3;
  }
}
