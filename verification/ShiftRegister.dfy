/** Linear feedback shift registers over any carrier: the algebra the CRC proofs need, free of bits. */
module ShiftRegister {

  /** `shift` is one register shift, `low` keeps the lowest bit, `down` drops it. */
  datatype Ops<!V> = Ops(shift: V -> V, xor: (V, V) -> V, low: V -> V, down: V -> V)

  ghost predicate LinearAt<V(!new)>(o: Ops<V>, x: V, y: V) {
    o.shift(o.xor(x, y)) == o.xor(o.shift(x), o.shift(y))
  }

  /** Only the lowest bit feeds back; the others move down. */
  ghost predicate MovesAt<V(!new)>(o: Ops<V>, r: V, b: V) {
    o.shift(o.xor(r, b)) == o.xor(o.shift(o.xor(r, o.low(b))), o.down(b))
  }

  ghost predicate Register<V(!new)>(o: Ops<V>) {
    && (forall x, y :: LinearAt(o, x, y))
    && (forall r, b :: MovesAt(o, r, b))
  }

  function Shifts<V>(o: Ops<V>, r: V, n: nat): V
    decreases n
  {
    if n == 0 then r else Shifts(o, o.shift(r), n - 1)
  }

  /** The register after the `n` lowest bits of `b` were fed into it one at a time, lowest first. */
  function Feed<V>(o: Ops<V>, r: V, b: V, n: nat): V
    decreases n
  {
    if n == 0 then r else Feed(o, o.shift(o.xor(r, o.low(b))), o.down(b), n - 1)
  }

  function Downs<V>(o: Ops<V>, b: V, n: nat): V
    decreases n
  {
    if n == 0 then b else Downs(o, o.down(b), n - 1)
  }

  lemma {:induction false} ShiftsLinear<V(!new)>(o: Ops<V>, x: V, y: V, n: nat)
    requires Register(o)
    ensures Shifts(o, o.xor(x, y), n) == o.xor(Shifts(o, x, n), Shifts(o, y, n))
    decreases n
  {
    if n > 0 {
      assert LinearAt(o, x, y);
      ShiftsLinear(o, o.shift(x), o.shift(y), n - 1);
    }
  }

  /** Feeding bits one by one is xoring them in at once and then shifting. */
  lemma {:induction false} FeedIsShift<V(!new)>(o: Ops<V>, r: V, b: V, n: nat)
    requires Register(o)
    ensures Shifts(o, o.xor(r, b), n) == o.xor(Feed(o, r, b, n), Downs(o, b, n))
    decreases n
  {
    if n > 0 {
      assert MovesAt(o, r, b);
      FeedIsShift(o, o.shift(o.xor(r, o.low(b))), o.down(b), n - 1);
    }
  }

  lemma {:induction false} ShiftsAdd<V>(o: Ops<V>, r: V, m: nat, n: nat)
    ensures Shifts(o, r, m + n) == Shifts(o, Shifts(o, r, m), n)
    decreases m
  {
    if m > 0 {
      ShiftsAdd(o, o.shift(r), m - 1, n);
    }
  }

  lemma ShiftsJoin<V(!new)>(o: Ops<V>, w: V, v: V, m: nat, n: nat)
    requires Register(o)
    ensures Shifts(o, o.xor(Shifts(o, w, m), Shifts(o, v, m)), n) == Shifts(o, o.xor(w, v), m + n)
  {
    ShiftsLinear(o, w, v, m);
    ShiftsAdd(o, o.xor(w, v), m, n);
  }

  // ---- Messages, fed a byte at a time by any function ----

  /** The register after the first `n` bytes of a message, from `z`. */
  function After<V>(feed: (V, V) -> V, z: V, s: seq<V>, n: nat): V
    requires n <= |s|
  {
    if n == 0 then z else feed(After(feed, z, s, n - 1), s[n - 1])
  }

  /** Feeding `b` is xoring it in whole and shifting it through. */
  ghost predicate WholeAt<V(!new)>(o: Ops<V>, feed: (V, V) -> V, r: V, b: V) {
    feed(r, b) == Shifts(o, o.xor(r, b), 8)
  }

  function Joined<V>(o: Ops<V>, z: V, placed: seq<V>, k: nat): V
    requires k <= |placed|
  {
    if k == 0 then z else o.xor(Joined(o, z, placed, k - 1), placed[k - 1])
  }

  /** Bytes fed one after another are one long word shifted through, when byte `p + j` of the message is
      `placed[j]` after 8j shifts. */
  lemma {:induction false} AfterIsShifts<V(!new)>(o: Ops<V>, feed: (V, V) -> V, z: V, s: seq<V>, p: nat,
                                                        placed: seq<V>, k: nat)
    requires Register(o) && k <= |placed| && p + |placed| <= |s|
    requires forall r, j :: 0 <= j < |s| ==> WholeAt(o, feed, r, s[j])
    requires forall j :: 0 <= j < |placed| ==> Shifts(o, placed[j], 8 * j) == s[p + j]
    ensures After(feed, z, s, p + k) == Shifts(o, Joined(o, After(feed, z, s, p), placed, k), 8 * k)
  {
    if k > 0 {
      var j := k - 1;
      AfterIsShifts(o, feed, z, s, p, placed, j);
      assert WholeAt(o, feed, After(feed, z, s, p + j), s[p + j]);
      ShiftsJoin(o, Joined(o, After(feed, z, s, p), placed, j), placed[j], 8 * j, 8);
    }
  }

  ghost predicate KeepsAt<V(!new)>(feed: (V, V) -> V, p: V -> bool, r: V, b: V) { p(r) ==> p(feed(r, b)) }

  lemma {:induction false} AfterKeeps<V(!new)>(feed: (V, V) -> V, z: V, s: seq<V>, n: nat, p: V -> bool)
    requires n <= |s| && p(z) && forall r, j :: 0 <= j < |s| ==> KeepsAt(feed, p, r, s[j])
    ensures p(After(feed, z, s, n))
  {
    if n > 0 {
      AfterKeeps(feed, z, s, n - 1, p);
      assert KeepsAt(feed, p, After(feed, z, s, n - 1), s[n - 1]);
    }
  }

  ghost predicate FeedXorAt<V(!new)>(feed: (V, V) -> V, xor: (V, V) -> V, r: V, x: V, q: V, y: V) {
    feed(xor(r, q), xor(x, y)) == xor(feed(r, x), feed(q, y))
  }

  lemma {:induction false} AfterLinear<V(!new)>(feed: (V, V) -> V, xor: (V, V) -> V, z: V,
                                                      a: seq<V>, b: seq<V>, c: seq<V>, n: nat)
    requires n <= |a| == |b| == |c| && xor(z, z) == z
    requires forall j :: 0 <= j < |c| ==> c[j] == xor(a[j], b[j])
    requires forall r, q, i :: 0 <= i < |a| ==> FeedXorAt(feed, xor, r, a[i], q, b[i])
    ensures After(feed, z, c, n) == xor(After(feed, z, a, n), After(feed, z, b, n))
  {
    if n > 0 {
      AfterLinear(feed, xor, z, a, b, c, n - 1);
      assert FeedXorAt(feed, xor, After(feed, z, a, n - 1), a[n - 1], After(feed, z, b, n - 1), b[n - 1]);
    }
  }

  lemma {:induction false} AfterZeros<V>(feed: (V, V) -> V, z: V, s: seq<V>, n: nat)
    requires n <= |s| && feed(z, z) == z && forall i :: 0 <= i < n ==> s[i] == z
    ensures After(feed, z, s, n) == z
  {
    if n > 0 {
      AfterZeros(feed, z, s, n - 1);
    }
  }

  ghost predicate KernelAt<V(!new)>(feed: (V, V) -> V, z: V, p: V -> bool, r: V) { p(r) && feed(r, z) == z ==> r == z }

  /** If zero bytes cannot turn a register with `p` into `z`, the register was `z` before them. */
  lemma {:induction false} BeforeZeros<V(!new)>(feed: (V, V) -> V, z: V, s: seq<V>, n: nat, m: nat, p: V -> bool)
    requires n <= m <= |s| && forall i :: n <= i < m ==> s[i] == z
    requires forall r :: KernelAt(feed, z, p, r)
    requires p(z) && forall r, j :: 0 <= j < |s| ==> KeepsAt(feed, p, r, s[j])
    requires After(feed, z, s, m) == z
    ensures After(feed, z, s, n) == z
    decreases m
  {
    if n < m {
      AfterKeeps(feed, z, s, m - 1, p);
      assert KernelAt(feed, z, p, After(feed, z, s, m - 1));
      BeforeZeros(feed, z, s, n, m - 1, p);
    }
  }
}
