/** The two halves of a ring in shared memory: free-running 32-bit indices over a
    power-of-two number of entries (kernel/src/rings.rs). `posted` and `pushed` are
    everything ever put in; the counts of what was taken out never wrap. */
module RingQueues {
  import opened Prelude
  import opened Words

  const U32: nat := 0x1_0000_0000
  const MAX_ENTRIES: nat := 64

  type Index = i: nat | i < U32

  /** `entries` as `ring_register` admits it. */
  predicate GoodSize(entries: nat) {
    entries in {1, 2, 4, 8, 16, 32, 64}
  }

  /** Which sizes pass: a power of two that fits one frame. */
  lemma GoodSizesArePowersOfTwo(x: bv32)
    ensures GoodSize(x as nat) <==> x != 0 && x <= 64 && x & (x - 1) == 0
  {
    if x <= 64 && x & (x - 1) == 0 && x != 0 {
      assert x == 1 || x == 2 || x == 4 || x == 8 || x == 16 || x == 32 || x == 64;
    }
  }

  function Bump(i: Index): Index { (i + 1) % U32 }

  /** `a.wrapping_sub(b)`. */
  function WrapSub(a: Index, b: Index): Index { (a - b) % U32 }

  /** `index & mask`, for `mask == entries - 1`. */
  function Slot(i: Index, entries: nat): (s: nat)
    requires GoodSize(entries)
    ensures s < entries
  {
    i % entries
  }

  /** The mask of a power of two is the remainder. */
  lemma MaskIsRemainder(i: bv32)
    ensures i & 0 == i % 1 && i & 1 == i % 2 && i & 3 == i % 4 && i & 7 == i % 8
    ensures i & 15 == i % 16 && i & 31 == i % 32 && i & 63 == i % 64
  {
  }

  /** Wrapping at 2^32 does not move an entry: the slot of a wrapped index is the
      slot of the true count. */
  lemma SlotOfCount(n: nat, entries: nat)
    requires GoodSize(entries)
    ensures Slot(n % U32, entries) == n % entries
  {
    match entries {
      case 1 =>
      case 2 => ModMod(n, 2, U32 / 2);
      case 4 => ModMod(n, 4, U32 / 4);
      case 8 => ModMod(n, 8, U32 / 8);
      case 16 => ModMod(n, 16, U32 / 16);
      case 32 => ModMod(n, 32, U32 / 32);
      case _ => ModMod(n, 64, U32 / 64);
    }
  }

  lemma ModMod(n: nat, d: nat, k: nat)
    requires d > 0 && k > 0
    ensures d * k > 0 && n % (d * k) % d == n % d
  {
    var q := n / (d * k);
    var r := n % (d * k);
    assert n == d * (k * q) + r;
    assert (d * (k * q) + r) % d == r % d by { AddMultiple(r, d, k * q); }
  }

  lemma AddMultiple(r: nat, d: nat, m: nat)
    requires d > 0
    ensures (d * m + r) % d == r % d
  {
    var q := r / d;
    assert d * m + r == (m + q) * d + r % d;
    QuotientIsUnique(d * m + r, d, m + q, r % d);
  }

  /** The distance between two indices is the true distance while it fits. */
  lemma WrapSubIsDistance(a: nat, b: nat)
    requires b <= a && a - b < U32
    ensures WrapSub(a % U32, b % U32) == a - b
  {
  }

  /** And beyond that it is the true distance modulo 2^32. */
  lemma WrapSubWraps(a: nat, b: nat)
    requires b <= a
    ensures WrapSub(a % U32, b % U32) == (a - b) % U32
  {
    var q, r := a / U32, b / U32;
    assert a - b == U32 * (q - r) + (a % U32 - b % U32);
    Rewrap(a - b, q - r, a % U32 - b % U32);
  }

  lemma Rewrap(x: int, q: int, r: int)
    requires x == U32 * q + r
    ensures x % U32 == r % U32
  {
  }

  lemma BumpIsNext(n: nat)
    ensures Bump(n % U32) == (n + 1) % U32
  {
  }

  // ----- the queue the indices stand for -----

  /** Entry `k` of everything ever put in is still in its slot, for every `k` not yet
      taken, and there are no more of those than slots. */
  ghost predicate Intact<T>(slots: seq<T>, put: seq<T>, taken: nat) {
    && GoodSize(|slots|) && taken <= |put| <= taken + |slots|
    && forall k {:trigger put[k]} :: taken <= k < |put| ==> slots[k % |slots|] == put[k]
  }

  /** The last `|slots|` entries ever put in are where they were put. */
  ghost predicate Recent<T>(slots: seq<T>, put: seq<T>) {
    GoodSize(|slots|) && forall k {:trigger put[k]} :: 0 <= k < |put| <= k + |slots| ==> slots[k % |slots|] == put[k]
  }

  /** Writing the next entry, room or not. */
  lemma PutKeepsRecent<T>(slots: seq<T>, put: seq<T>, x: T)
    requires Recent(slots, put)
    ensures Recent(slots[|put| % |slots| := x], put + [x])
  {
    var n := |slots|;
    var after := slots[|put| % n := x];
    forall k | 0 <= k < |put| + 1 <= k + n ensures after[k % n] == (put + [x])[k] {
      if k < |put| { SlotsDiffer(k, |put|, n); }
    }
  }

  /** With the last ones in place, nothing unread is lost exactly while there are no
      more unread than slots. */
  lemma RecentIsIntact<T>(slots: seq<T>, put: seq<T>, taken: nat)
    requires Recent(slots, put) && taken <= |put|
    ensures Intact(slots, put, taken) <==> |put| <= taken + |slots|
  {
  }

  /** What now stands in the slot of entry `k`: the last entry put there. */
  function Standing(k: nat, n: nat, size: nat): (j: nat)
    requires k < n && size > 0
    ensures k <= j < n <= j + size && j % size == k % size
    ensures n <= k + size <==> j == k
  {
    StandsThere(k, n, size);
    k + (n - 1 - k) / size * size
  }

  lemma StandsOneTurnOn(k: nat, size: nat)
    requires size > 0
    ensures Standing(k, k + size + 1, size) == k + size
  {
    assert size / size == 1;
  }

  lemma StandsThere(k: nat, n: nat, size: nat)
    requires k < n && size > 0
    ensures var j := k + (n - 1 - k) / size * size;
      k <= j < n <= j + size && j % size == k % size && (n <= k + size <==> j == k)
  {
    var m := (n - 1 - k) / size;
    assert n - 1 - k == m * size + (n - 1 - k) % size;
    AddMultiple(k, size, m);
    assert m * size == size * m;
    if m > 0 { assert m * size >= size by { NoMultipleBetween(size, m); } }
  }

  /** Two counts closer than the size fall in different slots. */
  lemma SlotsDiffer(i: nat, j: nat, n: nat)
    requires n > 0 && i < j < i + n
    ensures i % n != j % n
  {
    var a, b := i / n, j / n;
    Distribute(n, b, a);
    assert j - i == n * (b - a) + (j % n - i % n);
    NoMultipleBetween(n, b - a);
  }

  lemma Distribute(n: int, b: int, a: int)
    ensures n * b - n * a == n * (b - a)
  {
  }

  lemma NoMultipleBetween(n: nat, c: int)
    requires n > 0
    ensures n * c <= 0 || n * c >= n
  {
    if c >= 1 { Distribute(n, c, 1); }
  }

  /** Writing the next entry keeps the rest, exactly when there was room. */
  lemma PutKeepsIntact<T>(slots: seq<T>, put: seq<T>, taken: nat, x: T)
    requires Intact(slots, put, taken)
    ensures Intact(slots[|put| % |slots| := x], put + [x], taken) <==> |put| < taken + |slots|
  {
    var n := |slots|;
    var after := slots[|put| % n := x];
    if |put| < taken + n {
      forall k | taken <= k < |put| + 1 ensures after[k % n] == (put + [x])[k] {
        if k < |put| { SlotsDiffer(k, |put|, n); }
      }
    }
  }
}
