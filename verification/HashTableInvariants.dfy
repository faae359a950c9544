/** What every run keeps (with removes, duplicate slots and failed allocations), and how far the table grows. */
module HashTableInvariants {
  import opened HashTable

  /** 256 times a power of two. */
  predicate PowerSize(n: nat) {
    n == INITIAL_SIZE || (n > INITIAL_SIZE && n % 2 == 0 && PowerSize(n / 2))
  }

  lemma PowerSizeAtLeast(n: nat)
    requires PowerSize(n)
    ensures n >= INITIAL_SIZE && n % 2 == 0 && PowerSize(2 * n)
  {
  }

  function One(s: Slot): nat { if s.Used? then 1 else 0 }

  /** The number of occupied slots. */
  function Occupied(slots: seq<Slot>): nat {
    if slots == [] then 0 else Occupied(slots[..|slots| - 1]) + One(slots[|slots| - 1])
  }

  lemma OccupiedStep(slots: seq<Slot>, i: nat)
    requires i < |slots|
    ensures Occupied(slots[..i + 1]) == Occupied(slots[..i]) + One(slots[i])
  {
    assert slots[..i + 1][..i] == slots[..i];
  }

  lemma {:induction false} OccupiedUpdate(slots: seq<Slot>, c: nat, s: Slot)
    requires c < |slots|
    ensures Occupied(slots[c := s]) == Occupied(slots) - One(slots[c]) + One(s)
  {
    var l := |slots| - 1;
    if c == l {
      assert slots[c := s][..l] == slots[..l];
    } else {
      assert slots[c := s][..l] == slots[..l][c := s];
      OccupiedUpdate(slots[..l], c, s);
    }
  }

  lemma {:induction false} OccupiedPrefix(slots: seq<Slot>, i: nat)
    requires i <= |slots|
    ensures Occupied(slots[..i]) <= Occupied(slots)
    decreases |slots| - i
  {
    if i == |slots| {
      assert slots[..i] == slots;
    } else {
      OccupiedStep(slots, i);
      OccupiedPrefix(slots, i + 1);
    }
  }

  lemma {:induction false} OccupiedNone(slots: seq<Slot>)
    requires forall p :: 0 <= p < |slots| ==> slots[p] == Empty
    ensures Occupied(slots) == 0
  {
    if slots != [] {
      OccupiedNone(slots[..|slots| - 1]);
    }
  }

  /** Every stored key lies within eight slots, cyclically, of its home. */
  ghost predicate Windowed(cfg: Config, slots: seq<Slot>) {
    forall p :: 0 <= p < |slots| && slots[p].Used? ==>
      Offset(Home(cfg, slots[p].key, |slots|), p, |slots|) < MAX_CHAIN
  }

  /** Holds of every table a run of any operations reaches. */
  ghost predicate Sound(cfg: Config, t: Table) {
    && PowerSize(|t.slots|)
    && |t.slots| >= INITIAL_SIZE
    && Occupied(t.slots) <= t.size <= |t.slots| / 2
    && Windowed(cfg, t.slots)
  }

  lemma FreshSound(cfg: Config, t: Table)
    requires PowerSize(|t.slots|) && t.size == 0
    requires t.slots == EmptySlots(|t.slots|)
    ensures Sound(cfg, t)
  {
    PowerSizeAtLeast(|t.slots|);
    OccupiedNone(t.slots);
  }

  lemma StoreSound(cfg: Config, t: Table, k: Key, v: Data)
    requires Sound(cfg, t) && Probe(cfg, t, k) < MAX_CHAIN
    ensures Sound(cfg, Store(cfg, t, k, v, Probe(cfg, t, k)))
  {
    var c := At(Home(cfg, k, |t.slots|), Probe(cfg, t, k), |t.slots|);
    OccupiedUpdate(t.slots, c, Used(k, v));
  }

  /** A put keeps the invariant whatever it returns; `size` grows by one on MAP_OK and never on MAP_OMEM. */
  lemma {:induction false} PutSound(cfg: Config, t: Table, k: Key, v: Data)
    requires Sound(cfg, t)
    ensures var r := Put(cfg, t, k, v);
      && Sound(cfg, r.table)
      && r.table.size <= t.size + (if r.status == OK then 1 else 0)
    decreases Room(cfg, |t.slots|), 2, 0
  {
    if Probe(cfg, t, k) < MAX_CHAIN {
      StoreSound(cfg, t, k, v);
    } else {
      RehashSound(cfg, Noted(t));
      var r := Rehash(cfg, Noted(t));
      if r.status == OK {
        PutSound(cfg, r.table, k, v);
      }
    }
  }

  /** Once its allocation is granted a rehash ends with `size` at most the old occupancy, hence at most a
      quarter of the table it leaves, whether it succeeds or not and however often it is interrupted. */
  lemma {:induction false} RehashSound(cfg: Config, t: Table)
    requires Sound(cfg, t)
    ensures var r := Rehash(cfg, t);
      && Sound(cfg, r.table)
      && r.table.size <= t.size
      && (Granted(cfg, t.calls, 2 * |t.slots|) ==>
            r.table.size <= Occupied(t.slots) && 4 * r.table.size <= |r.table.slots|)
    decreases Room(cfg, |t.slots|), 1, 0
  {
    if Granted(cfg, t.calls, 2 * |t.slots|) {
      PowerSizeAtLeast(|t.slots|);
      FreshSound(cfg, Doubled(t));
      MoveAllSound(cfg, t.slots, Doubled(t), 0);
    }
  }

  lemma {:induction false} MoveAllSound(cfg: Config, from: seq<Slot>, t: Table, i: nat)
    requires Sound(cfg, t) && i <= |from|
    requires t.size <= Occupied(from[..i])
    ensures var r := MoveAll(cfg, from, t, i);
      Sound(cfg, r.table) && r.table.size <= Occupied(from)
    decreases Room(cfg, |t.slots|), 3, |from| - i
  {
    OccupiedPrefix(from, i);
    if i < |from| {
      OccupiedStep(from, i);
      if from[i].Empty? {
        MoveAllSound(cfg, from, t, i + 1);
      } else {
        PutSound(cfg, t, from[i].key, from[i].data);
        var r := Put(cfg, t, from[i].key, from[i].data);
        if r.status == OK {
          MoveAllSound(cfg, from, r.table, i + 1);
        }
      }
    }
  }

  /** The table a rehash of `t` has after moving the first `i` old slots. */
  function DuringRehash(cfg: Config, t: Table, i: nat): Outcome
    requires Shape(t) && i <= |t.slots|
  {
    MoveAll(cfg, t.slots[..i], Doubled(t), 0)
  }

  /** The loop may be cut anywhere: it moves the slots before `i`, then, unless that failed, those from `i` on. */
  lemma {:induction false} MoveAllSplit(cfg: Config, from: seq<Slot>, t: Table, j: nat, i: nat)
    requires Shape(t) && j <= i <= |from|
    ensures var m := MoveAll(cfg, from[..i], t, j);
      MoveAll(cfg, from, t, j) == if m.status == OK then MoveAll(cfg, from, m.table, i) else m
    decreases i - j
  {
    if j < i {
      assert from[..i][j] == from[j];
      if from[j].Empty? {
        MoveAllSplit(cfg, from, t, j + 1, i);
      } else {
        var r := Put(cfg, t, from[j].key, from[j].data);
        if r.status == OK {
          MoveAllSplit(cfg, from, r.table, j + 1, i);
        }
      }
    }
  }

  /** At no point of a rehash is the new table above a quarter full, so none of the puts it makes is
      refused by the load check: a nested rehash can only come from a full probe chain. */
  lemma RehashNeverLoaded(cfg: Config, t: Table, i: nat)
    requires Sound(cfg, t) && i <= |t.slots|
    ensures var m := DuringRehash(cfg, t, i);
      && Sound(cfg, m.table) && 4 * m.table.size <= |m.table.slots| && !Loaded(m.table)
      && (Granted(cfg, t.calls, 2 * |t.slots|) ==>
            Rehash(cfg, t) == if m.status == OK then MoveAll(cfg, t.slots, m.table, i) else m)
  {
    PowerSizeAtLeast(|t.slots|);
    FreshSound(cfg, Doubled(t));
    assert t.slots[..i][..0] == [];
    MoveAllSound(cfg, t.slots[..i], Doubled(t), 0);
    OccupiedPrefix(t.slots, i);
    MoveAllSplit(cfg, t.slots, Doubled(t), 0, i);
  }

  lemma RemoveSound(cfg: Config, t: Table, k: Key)
    requires Sound(cfg, t)
    ensures Sound(cfg, Remove(cfg, t, k).table)
    ensures Remove(cfg, t, k).table.size <= t.size
  {
    var i := Find(cfg, t, k);
    if i < MAX_CHAIN {
      OccupiedUpdate(t.slots, At(Home(cfg, k, |t.slots|), i, |t.slots|), Empty);
    }
  }

  // ---- Runs of arbitrary operations ----

  datatype Op = PutOp(k: Key, v: Data) | GetOp(k: Key) | RemoveOp(k: Key)

  function Step(cfg: Config, t: Table, op: Op): (r: (Table, Reply))
    requires Shape(t)
    ensures Shape(r.0)
  {
    match op
    case PutOp(k, v) => var o := Put(cfg, t, k, v); (o.table, Reply(o.status, NULL))
    case GetOp(k) => (t, Get(cfg, t, k))
    case RemoveOp(k) => var o := Remove(cfg, t, k); (o.table, Reply(o.status, NULL))
  }

  /** The table and the replies after a run of operations, whatever the calls returned. */
  function Run(cfg: Config, t: Table, ops: seq<Op>): (r: (Table, seq<Reply>))
    requires Shape(t)
    ensures Shape(r.0) && |r.1| == |ops|
    decreases |ops|
  {
    if ops == [] then (t, [])
    else
      var s := Step(cfg, t, ops[0]);
      var rest := Run(cfg, s.0, ops[1..]);
      (rest.0, [s.1] + rest.1)
  }

  lemma {:induction false} RunSoundFrom(cfg: Config, t: Table, ops: seq<Op>)
    requires Sound(cfg, t)
    ensures Sound(cfg, Run(cfg, t, ops).0)
    decreases |ops|
  {
    if ops != [] {
      match ops[0] {
        case PutOp(k, v) => PutSound(cfg, t, k, v);
        case GetOp(k) =>
        case RemoveOp(k) => RemoveSound(cfg, t, k);
      }
      RunSoundFrom(cfg, Step(cfg, t, ops[0]).0, ops[1..]);
    }
  }

  /** Every reachable table: occupancy <= size <= half the table, a size of 256 times a power of two, and
      every key in its window. */
  lemma RunSound(cfg: Config, ops: seq<Op>)
    ensures Sound(cfg, Run(cfg, New(), ops).0)
  {
    FreshSound(cfg, New());
    RunSoundFrom(cfg, New(), ops);
  }

  // ---- Growth ----

  /** Without a chain overflow, a put below the load limit neither fails nor allocates. */
  lemma {:induction false} PutBelowLoad(cfg: Config, t: Table, k: Key, v: Data)
    requires Shape(t)
    ensures var r := Put(cfg, t, k, v);
      && r.table.overflows >= t.overflows
      && (!Loaded(t) && r.table.overflows == t.overflows ==>
            r.status == OK && |r.table.slots| == |t.slots| && r.table.calls == t.calls)
    decreases Room(cfg, |t.slots|), 2, 0
  {
    if Probe(cfg, t, k) == MAX_CHAIN {
      RehashOverflows(cfg, Noted(t));
      var r := Rehash(cfg, Noted(t));
      if r.status == OK {
        PutBelowLoad(cfg, r.table, k, v);
      }
    }
  }

  lemma {:induction false} RehashOverflows(cfg: Config, t: Table)
    requires Shape(t)
    ensures Rehash(cfg, t).table.overflows >= t.overflows
    decreases Room(cfg, |t.slots|), 1, 0
  {
    if Granted(cfg, t.calls, 2 * |t.slots|) {
      MoveAllOverflows(cfg, t.slots, Doubled(t), 0);
    }
  }

  lemma {:induction false} MoveAllOverflows(cfg: Config, from: seq<Slot>, t: Table, i: nat)
    requires Shape(t) && i <= |from|
    ensures MoveAll(cfg, from, t, i).table.overflows >= t.overflows
    decreases Room(cfg, |t.slots|), 3, |from| - i
  {
    if i < |from| {
      if from[i].Empty? {
        MoveAllOverflows(cfg, from, t, i + 1);
      } else {
        PutBelowLoad(cfg, t, from[i].key, from[i].data);
        var r := Put(cfg, t, from[i].key, from[i].data);
        if r.status == OK {
          MoveAllOverflows(cfg, from, r.table, i + 1);
        }
      }
    }
  }

  lemma {:induction false} MoveAllDirect(cfg: Config, from: seq<Slot>, t: Table, i: nat)
    requires Sound(cfg, t) && i <= |from|
    requires t.size <= Occupied(from[..i]) && 4 * Occupied(from) <= |t.slots|
    requires MoveAll(cfg, from, t, i).table.overflows == t.overflows
    ensures var r := MoveAll(cfg, from, t, i);
      r.status == OK && |r.table.slots| == |t.slots| && r.table.calls == t.calls
    decreases |from| - i
  {
    if i < |from| {
      OccupiedStep(from, i);
      if from[i].Empty? {
        MoveAllDirect(cfg, from, t, i + 1);
      } else {
        OccupiedPrefix(from, i);
        var r := Put(cfg, t, from[i].key, from[i].data);
        PutSound(cfg, t, from[i].key, from[i].data);
        PutBelowLoad(cfg, t, from[i].key, from[i].data);
        if r.status == OK {
          MoveAllOverflows(cfg, from, r.table, i + 1);
          MoveAllDirect(cfg, from, r.table, i + 1);
        }
      }
    }
  }

  /** A granted rehash without a chain overflow makes one allocation, exactly doubles and succeeds. */
  lemma RehashDirect(cfg: Config, t: Table)
    requires Sound(cfg, t) && Granted(cfg, t.calls, 2 * |t.slots|)
    requires Rehash(cfg, t).table.overflows == t.overflows
    ensures var r := Rehash(cfg, t);
      r.status == OK && |r.table.slots| == 2 * |t.slots| && r.table.calls == t.calls + 1
  {
    PowerSizeAtLeast(|t.slots|);
    FreshSound(cfg, Doubled(t));
    MoveAllDirect(cfg, t.slots, Doubled(t), 0);
  }

  /** Without a chain overflow a put doubles the table at most once, and only when `size` is at half of it. */
  lemma PutGrowth(cfg: Config, t: Table, k: Key, v: Data)
    requires Sound(cfg, t) && Put(cfg, t, k, v).table.overflows == t.overflows
    ensures var r := Put(cfg, t, k, v);
      |r.table.slots| == |t.slots| || (|r.table.slots| == 2 * |t.slots| && 2 * t.size == |t.slots|)
  {
    PutBelowLoad(cfg, t, k, v);
    if Loaded(t) {
      PowerSizeAtLeast(|t.slots|);
      var r := Rehash(cfg, t);
      RehashOverflows(cfg, t);
      if Granted(cfg, t.calls, 2 * |t.slots|) {
        RehashSound(cfg, t);
        if r.status == OK {
          PutBelowLoad(cfg, r.table, k, v);
        }
        RehashDirect(cfg, t);
      }
    }
  }

  function Puts(ops: seq<Op>): nat {
    if ops == [] then 0 else (if ops[0].PutOp? then 1 else 0) + Puts(ops[1..])
  }

  function GrowthLimit(puts: nat): nat { if 4 * puts > INITIAL_SIZE then 4 * puts else INITIAL_SIZE }

  lemma StepOverflows(cfg: Config, t: Table, op: Op)
    requires Shape(t)
    ensures Step(cfg, t, op).0.overflows >= t.overflows
  {
    if op.PutOp? {
      PutBelowLoad(cfg, t, op.k, op.v);
    }
  }

  lemma {:induction false} RunOverflows(cfg: Config, t: Table, ops: seq<Op>)
    requires Shape(t)
    ensures Run(cfg, t, ops).0.overflows >= t.overflows
    decreases |ops|
  {
    if ops != [] {
      StepOverflows(cfg, t, ops[0]);
      RunOverflows(cfg, Step(cfg, t, ops[0]).0, ops[1..]);
    }
  }

  ghost predicate GrowthInv(cfg: Config, t: Table, before: nat) {
    Sound(cfg, t) && t.size <= before && |t.slots| <= GrowthLimit(before)
  }

  lemma StepGrowth(cfg: Config, t: Table, op: Op, before: nat)
    requires GrowthInv(cfg, t, before)
    requires Step(cfg, t, op).0.overflows == t.overflows
    ensures GrowthInv(cfg, Step(cfg, t, op).0, before + if op.PutOp? then 1 else 0)
  {
    match op {
      case PutOp(k, v) =>
        PutSound(cfg, t, k, v);
        PutGrowth(cfg, t, k, v);
      case GetOp(k) =>
      case RemoveOp(k) => RemoveSound(cfg, t, k);
    }
  }

  lemma RunGrowthHead(cfg: Config, t: Table, ops: seq<Op>, before: nat) returns (s: Table, d: nat, rest: seq<Op>)
    requires ops != [] && GrowthInv(cfg, t, before)
    requires Run(cfg, t, ops).0.overflows == t.overflows
    ensures GrowthInv(cfg, s, before + d) && Puts(ops) == d + Puts(rest) && |rest| < |ops|
    ensures s.overflows == Run(cfg, s, rest).0.overflows
    ensures Run(cfg, t, ops).0 == Run(cfg, s, rest).0
  {
    s := Step(cfg, t, ops[0]).0;
    d := if ops[0].PutOp? then 1 else 0;
    rest := ops[1..];
    StepOverflows(cfg, t, ops[0]);
    RunOverflows(cfg, s, rest);
    StepGrowth(cfg, t, ops[0], before);
  }

  lemma {:induction false} RunGrowthFrom(cfg: Config, t: Table, ops: seq<Op>, before: nat, puts: nat)
    requires GrowthInv(cfg, t, before) && puts == before + Puts(ops)
    requires Run(cfg, t, ops).0.overflows == t.overflows
    ensures |Run(cfg, t, ops).0.slots| <= GrowthLimit(puts)
    decreases |ops|
  {
    if ops != [] {
      var s, d, rest := RunGrowthHead(cfg, t, ops, before);
      RunGrowthFrom(cfg, s, rest, before + d, puts);
    }
  }

  /** In any run in which no probe chain overflows, the table has at most max(256, 4 x puts) slots. */
  lemma RunGrowth(cfg: Config, ops: seq<Op>)
    requires Run(cfg, New(), ops).0.overflows == 0
    ensures |Run(cfg, New(), ops).0.slots| <= GrowthLimit(Puts(ops))
  {
    FreshSound(cfg, New());
    RunGrowthFrom(cfg, New(), ops, 0, Puts(ops));
  }

  // ---- At most eight slots per home ----

  function WindowSlots(home: nat, n: nat, i: nat): (ps: set<nat>)
    requires home < n && i <= MAX_CHAIN <= n
    ensures |ps| <= i
    ensures forall j :: 0 <= j < i ==> At(home, j, n) in ps
  {
    if i == 0 then {} else WindowSlots(home, n, i - 1) + {At(home, i - 1, n)}
  }

  lemma {:induction false} SubsetSize<T>(a: set<T>, b: set<T>)
    requires a <= b
    ensures |a| <= |b|
  {
    if a != {} {
      var x :| x in a;
      SubsetSize(a - {x}, b - {x});
    }
  }

  /** Pigeonhole over the probe window: at most eight occupied slots have one home index. */
  lemma AtMostEightPerHome(cfg: Config, slots: seq<Slot>, home: nat, ps: set<nat>)
    requires |slots| >= MAX_CHAIN && Windowed(cfg, slots) && home < |slots|
    requires forall p :: p in ps ==> p < |slots| && slots[p].Used? && Home(cfg, slots[p].key, |slots|) == home
    ensures |ps| <= MAX_CHAIN
  {
    var w := WindowSlots(home, |slots|, MAX_CHAIN);
    forall p | p in ps ensures p in w {
      assert At(home, Offset(home, p, |slots|), |slots|) == p;
    }
    SubsetSize(ps, w);
  }

  /** So in every reachable table, removes, duplicates and failed calls included. */
  lemma RunAtMostEight(cfg: Config, ops: seq<Op>, home: nat, ps: set<nat>)
    requires var slots := Run(cfg, New(), ops).0.slots;
      && home < |slots|
      && forall p :: p in ps ==> p < |slots| && slots[p].Used? && Home(cfg, slots[p].key, |slots|) == home
    ensures |ps| <= MAX_CHAIN
  {
    RunSound(cfg, ops);
    AtMostEightPerHome(cfg, Run(cfg, New(), ops).0.slots, home, ps);
  }
}
