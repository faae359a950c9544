/** Where a put stores its key, slot by slot, and when a call runs out of memory. */
module HashTableMemory {
  import opened HashTable
  import opened HashTableInvariants
  import opened HashTableRefinement

  // ---- Where a key lands ----

  /** Slot number `hash + i`, modulo the table size. */
  function SlotOf(cfg: Config, t: Table, k: Key, i: nat): nat
    requires |t.slots| >= 8
  {
    (cfg.hash(k) + i) % |t.slots|
  }

  /** The slot is in use by another key. */
  predicate Blocks(cfg: Config, t: Table, k: Key, i: nat)
    requires |t.slots| >= 8
  {
    var s := t.slots[SlotOf(cfg, t, k, i)];
    s.Used? && s.key != k
  }

  lemma ModIs(x: nat, q: nat, r: nat, n: nat)
    requires r < n && x == n * q + r
    ensures x % n == r
  {
    var d := x / n - q;
    assert n * d == r - x % n;
    assert d >= 1 ==> n * d >= n;
    assert d <= -1 ==> n * d + n <= 0;
  }

  lemma ModStep(h: nat, i: nat, n: nat)
    requires n > 0 && i < n
    ensures (h + i) % n == if h % n + i < n then h % n + i else h % n + i - n
  {
    var q, r := h / n, h % n + i;
    assert h + i == n * q + r;
    if r < n {
      ModIs(h + i, q, r, n);
    } else {
      assert n * (q + 1) == n * q + n;
      ModIs(h + i, q + 1, r - n, n);
    }
  }

  lemma AtIsSlotOf(cfg: Config, t: Table, k: Key, i: nat)
    requires |t.slots| > 8 && i <= 8
    ensures At(Home(cfg, k, |t.slots|), i, |t.slots|) == SlotOf(cfg, t, k, i)
  {
    ModStep(cfg.hash(k), i, |t.slots|);
  }

  lemma ProbeIs(cfg: Config, t: Table, k: Key, i: nat)
    requires |t.slots| > 8 && i <= 8 && t.size < |t.slots| / 2
    requires forall j :: 0 <= j < i ==> Blocks(cfg, t, k, j)
    requires i < 8 ==> !Blocks(cfg, t, k, i)
    ensures Probe(cfg, t, k) == i
  {
    var p := Probe(cfg, t, k);
    AtIsSlotOf(cfg, t, k, i);
    AtIsSlotOf(cfg, t, k, p);
    assert p < i ==> Blocks(cfg, t, k, p);
  }

  /** Below half load a key whose first `i` slots, fewer than eight, are in use by others is stored in the next one if
      that is free or its own, and nothing else changes. */
  lemma PutLands(cfg: Config, t: Table, k: Key, v: Data, i: nat)
    requires |t.slots| > 8 && i < 8 && t.size < |t.slots| / 2
    requires (forall j :: 0 <= j < i ==> Blocks(cfg, t, k, j)) && !Blocks(cfg, t, k, i)
    ensures Put(cfg, t, k, v)
      == Outcome(Table(t.slots[SlotOf(cfg, t, k, i) := Used(k, v)], t.size + 1, t.calls, t.overflows), OK)
  {
    ProbeIs(cfg, t, k, i);
    AtIsSlotOf(cfg, t, k, i);
  }

  /** At half load, or with eight slots in use by others, the table has to grow first: it is asked for twice the slots,
      and a refusal leaves everything as it was. A full chain below half load is what counts as an overflow. */
  lemma PutGrows(cfg: Config, t: Table, k: Key, v: Data)
    requires |t.slots| > 8
    requires t.size >= |t.slots| / 2 || forall j :: 0 <= j < 8 ==> Blocks(cfg, t, k, j)
    ensures var noted := t.(overflows := t.overflows + if t.size >= |t.slots| / 2 then 0 else 1);
      && Put(cfg, t, k, v).table.calls > t.calls
      && (!Granted(cfg, t.calls, 2 * |t.slots|) ==>
            Put(cfg, t, k, v) == Outcome(noted.(calls := t.calls + 1), OMEM))
      && (Granted(cfg, t.calls, 2 * |t.slots|) ==>
            |Put(cfg, t, k, v).table.slots| >= 2 * |t.slots| && Put(cfg, t, k, v).table.overflows >= noted.overflows)
  {
    if t.size < |t.slots| / 2 {
      ProbeIs(cfg, t, k, 8);
    }
    RehashRequests(cfg, Noted(t));
    RehashOverflows(cfg, Noted(t));
    var r := Rehash(cfg, Noted(t));
    if r.status == OK {
      PutRequests(cfg, r.table, k, v);
      PutBelowLoad(cfg, r.table, k, v);
    }
  }

  // ---- Out of memory ----

  /** Requests `a` up to `b` were granted. */
  ghost predicate GrantedFrom(cfg: Config, a: nat, b: nat) { forall c :: a <= c < b ==> cfg.grants(c) }

  /** What the requests of a call on `t` were answered: all were granted, or exactly the last one, for twice the slots
      the call leaves, was refused. */
  ghost predicate Requests(cfg: Config, t: Table, r: Outcome) {
    && r.table.calls >= t.calls
    && if r.status == OK then GrantedFrom(cfg, t.calls, r.table.calls)
       else
         && r.table.calls > t.calls && GrantedFrom(cfg, t.calls, r.table.calls - 1)
         && !Granted(cfg, r.table.calls - 1, 2 * |r.table.slots|)
  }

  /** Put returns MAP_OMEM exactly when a request was refused, at whatever depth; it then stops at once. */
  lemma {:induction false} PutRequests(cfg: Config, t: Table, k: Key, v: Data)
    requires Shape(t)
    ensures Requests(cfg, t, Put(cfg, t, k, v))
    decreases Room(cfg, |t.slots|), 2, 0
  {
    if Probe(cfg, t, k) == MAX_CHAIN {
      RehashRequests(cfg, Noted(t));
      var r := Rehash(cfg, Noted(t));
      if r.status == OK {
        PutRequests(cfg, r.table, k, v);
      }
    }
  }

  /** So does rehash. */
  lemma {:induction false} RehashRequests(cfg: Config, t: Table)
    requires Shape(t)
    ensures Requests(cfg, t, Rehash(cfg, t)) && Rehash(cfg, t).table.calls > t.calls
    ensures Granted(cfg, t.calls, 2 * |t.slots|) ==> |Rehash(cfg, t).table.slots| >= 2 * |t.slots|
    decreases Room(cfg, |t.slots|), 1, 0
  {
    if Granted(cfg, t.calls, 2 * |t.slots|) {
      MoveAllRequests(cfg, t.slots, Doubled(t), 0);
    }
  }

  lemma {:induction false} MoveAllRequests(cfg: Config, from: seq<Slot>, t: Table, i: nat)
    requires Shape(t) && i <= |from|
    ensures Requests(cfg, t, MoveAll(cfg, from, t, i))
    decreases Room(cfg, |t.slots|), 3, |from| - i
  {
    if i < |from| {
      if from[i].Empty? {
        MoveAllRequests(cfg, from, t, i + 1);
      } else {
        PutRequests(cfg, t, from[i].key, from[i].data);
        var r := Put(cfg, t, from[i].key, from[i].data);
        if r.status == OK {
          MoveAllRequests(cfg, from, r.table, i + 1);
        }
      }
    }
  }

  /** Without a chain overflow a put runs out of memory if and only if the table is at half load and the one request
      it makes is refused. */
  lemma PutOmemIff(cfg: Config, t: Table, k: Key, v: Data)
    requires Sound(cfg, t) && Put(cfg, t, k, v).table.overflows == t.overflows
    ensures Put(cfg, t, k, v).status == OMEM <==> t.size >= |t.slots| / 2 && !Granted(cfg, t.calls, 2 * |t.slots|)
  {
    PutBelowLoad(cfg, t, k, v);
    if Loaded(t) && Granted(cfg, t.calls, 2 * |t.slots|) {
      var r := Rehash(cfg, t);
      RehashOverflows(cfg, t);
      RehashSound(cfg, t);
      if r.status == OK {
        PutBelowLoad(cfg, r.table, k, v);
      }
      RehashDirect(cfg, t);
    }
  }

  // ---- Runs with memory for their puts ----

  lemma StepCalls(cfg: Config, t: Table, op: Op)
    requires Shape(t)
    ensures Step(cfg, t, op).0.calls >= t.calls
  {
    if op.PutOp? {
      PutRequests(cfg, t, op.k, op.v);
    }
  }

  lemma {:induction false} RunCalls(cfg: Config, t: Table, ops: seq<Op>)
    requires Shape(t)
    ensures Run(cfg, t, ops).0.calls >= t.calls
    decreases |ops|
  {
    if ops != [] {
      StepCalls(cfg, t, ops[0]);
      RunCalls(cfg, Step(cfg, t, ops[0]).0, ops[1..]);
    }
  }

  lemma StepEnough(cfg: Config, t: Table, op: Op, before: nat)
    requires GrowthInv(cfg, t, before) && Step(cfg, t, op).0.overflows == t.overflows
    requires GrantedFrom(cfg, t.calls, Step(cfg, t, op).0.calls)
    requires op.PutOp? ==> cfg.cap >= GrowthLimit(before + 1)
    ensures Step(cfg, t, op).1.status != OMEM
  {
    if op.PutOp? {
      PutRequests(cfg, t, op.k, op.v);
      PutOmemIff(cfg, t, op.k, op.v);
    }
  }

  lemma EnoughCons(cfg: Config, t: Table, ops: seq<Op>)
    requires Shape(t) && ops != [] && Step(cfg, t, ops[0]).1.status != OMEM
    requires EnoughMemory(cfg, Step(cfg, t, ops[0]).0, ops[1..])
    ensures EnoughMemory(cfg, t, ops)
  {
    var rest := Run(cfg, Step(cfg, t, ops[0]).0, ops[1..]).1;
    forall i | 0 <= i < |ops| ensures Run(cfg, t, ops).1[i].status != OMEM {
      assert i > 0 ==> Run(cfg, t, ops).1[i] == rest[i - 1];
    }
  }

  /** The run `ops` from `t` has no overflow, all its requests are granted, and the cap admits it, when it is part of
      one with `puts` puts of which `before` are done. */
  ghost predicate Provided(cfg: Config, t: Table, ops: seq<Op>, before: nat, puts: nat) {
    && GrowthInv(cfg, t, before) && puts == before + Puts(ops) && cfg.cap >= GrowthLimit(puts)
    && Run(cfg, t, ops).0.overflows == t.overflows && GrantedFrom(cfg, t.calls, Run(cfg, t, ops).0.calls)
  }

  lemma ProvidedStep(cfg: Config, t: Table, ops: seq<Op>, before: nat, puts: nat) returns (done: nat)
    requires ops != [] && Provided(cfg, t, ops, before, puts)
    ensures Step(cfg, t, ops[0]).1.status != OMEM
    ensures Provided(cfg, Step(cfg, t, ops[0]).0, ops[1..], done, puts)
  {
    var s := Step(cfg, t, ops[0]).0;
    StepOverflows(cfg, t, ops[0]);
    RunOverflows(cfg, s, ops[1..]);
    StepCalls(cfg, t, ops[0]);
    RunCalls(cfg, s, ops[1..]);
    StepEnough(cfg, t, ops[0], before);
    StepGrowth(cfg, t, ops[0], before);
    done := before + if ops[0].PutOp? then 1 else 0;
  }

  lemma {:induction false} RunEnoughFrom(cfg: Config, t: Table, ops: seq<Op>, before: nat, puts: nat)
    requires Provided(cfg, t, ops, before, puts)
    ensures EnoughMemory(cfg, t, ops)
    decreases |ops|
  {
    if ops != [] {
      var done := ProvidedStep(cfg, t, ops, before, puts);
      RunEnoughFrom(cfg, Step(cfg, t, ops[0]).0, ops[1..], done, puts);
      EnoughCons(cfg, t, ops);
    }
  }

  /** A run in which no probe chain overflows and every request is granted runs out of memory nowhere, if the cap admits
      max(256, 4 x puts) slots. */
  lemma RunEnough(cfg: Config, ops: seq<Op>)
    requires Run(cfg, New(), ops).0.overflows == 0
    requires GrantedFrom(cfg, 0, Run(cfg, New(), ops).0.calls) && cfg.cap >= GrowthLimit(Puts(ops))
    ensures EnoughMemory(cfg, New(), ops)
  {
    FreshSound(cfg, New());
    RunEnoughFrom(cfg, New(), ops, 0, Puts(ops));
  }
}
