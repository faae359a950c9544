/** The table as a finite map: what a single put, rehash and remove do to it, and runs against a plain map. */
module HashTableRefinement {
  import opened HashTable
  import opened HashTableInvariants
  import opened HashTableKeys

  /** No key is stored twice. */
  ghost predicate Unique(slots: seq<Slot>) {
    forall p, q :: 0 <= p < q < |slots| && slots[p].Used? && slots[q].Used? ==> slots[p].key != slots[q].key
  }

  /** No free slot between a key's home and the slot it is stored in. */
  ghost predicate NoHole(cfg: Config, slots: seq<Slot>)
    requires |slots| >= MAX_CHAIN
  {
    forall p, j :: 0 <= p < |slots| && slots[p].Used?
      && 0 <= j < Offset(Home(cfg, slots[p].key, |slots|), p, |slots|) && j < MAX_CHAIN
      ==> slots[At(Home(cfg, slots[p].key, |slots|), j, |slots|)].Used?
  }

  /** The invariant of tables that have seen no remove. */
  ghost predicate Chained(cfg: Config, slots: seq<Slot>) {
    && |slots| >= MAX_CHAIN
    && Windowed(cfg, slots)
    && Unique(slots)
    && NoHole(cfg, slots)
  }

  /** The map the first `i` slots represent. */
  ghost function Prefix(slots: seq<Slot>, i: nat): map<Key, Data>
    requires Unique(slots) && i <= |slots|
  {
    map p | 0 <= p < i && slots[p].Used? :: slots[p].key := slots[p].data
  }

  /** The map a table with unique keys represents. */
  ghost function Contents(slots: seq<Slot>): map<Key, Data>
    requires Unique(slots)
  {
    Prefix(slots, |slots|)
  }

  ghost predicate Submap(a: map<Key, Data>, b: map<Key, Data>) {
    forall k :: k in a ==> k in b && a[k] == b[k]
  }

  /** `size` is the number of keys. */
  ghost predicate Exact(t: Table)
    requires Unique(t.slots)
  {
    t.size == |Contents(t.slots)|
  }

  ghost predicate Holds(slots: seq<Slot>, k: Key) {
    exists p :: 0 <= p < |slots| && slots[p].Used? && slots[p].key == k
  }

  lemma ContentsIff(slots: seq<Slot>, k: Key, v: Data)
    requires Unique(slots)
    ensures (k in Contents(slots) && Contents(slots)[k] == v)
      <==> (exists p :: 0 <= p < |slots| && slots[p] == Used(k, v))
    ensures k in Contents(slots) <==> Holds(slots, k)
  {
  }

  /** Writing `k` into a free slot when it is stored nowhere, or into its own slot. */
  lemma ContentsUpdate(slots: seq<Slot>, c: nat, k: Key, v: Data)
    requires Unique(slots) && c < |slots|
    requires if slots[c].Used? then slots[c].key == k else k !in Contents(slots)
    ensures Unique(slots[c := Used(k, v)])
    ensures Contents(slots[c := Used(k, v)]) == Contents(slots)[k := v]
  {
    var s := slots[c := Used(k, v)];
    assert forall p :: 0 <= p < |slots| && p != c && slots[p].Used? ==> slots[p].key != k;
    assert s[c].key == k;
    forall x | x in Contents(slots) && x != k ensures x in Contents(s) {
      var p :| 0 <= p < |slots| && slots[p].Used? && slots[p].key == x;
      assert s[p] == slots[p];
    }
  }

  /** With no holes, a probe that stops at a free slot proves the key absent. */
  lemma FreeMeansAbsent(cfg: Config, t: Table, k: Key)
    requires Chained(cfg, t.slots) && Probe(cfg, t, k) < MAX_CHAIN
    requires t.slots[At(Home(cfg, k, |t.slots|), Probe(cfg, t, k), |t.slots|)].Empty?
    ensures k !in Contents(t.slots)
  {
    var home, n := Home(cfg, k, |t.slots|), |t.slots|;
    var i := Probe(cfg, t, k);
    forall p | 0 <= p < n && t.slots[p].Used?
      ensures t.slots[p].key != k
    {
      var h := Home(cfg, t.slots[p].key, n);
      assert At(h, Offset(h, p, n), n) == p;
    }
  }

  lemma StoreNoHole(cfg: Config, t: Table, k: Key, v: Data)
    requires Chained(cfg, t.slots) && Probe(cfg, t, k) < MAX_CHAIN
    ensures var s := Store(cfg, t, k, v, Probe(cfg, t, k)).slots;
      Windowed(cfg, s) && NoHole(cfg, s)
  {
  }

  lemma StoreChained(cfg: Config, t: Table, k: Key, v: Data)
    requires Chained(cfg, t.slots) && Probe(cfg, t, k) < MAX_CHAIN
    ensures var s := Store(cfg, t, k, v, Probe(cfg, t, k)).slots;
      && Chained(cfg, s)
      && Contents(s) == Contents(t.slots)[k := v]
  {
    var c := At(Home(cfg, k, |t.slots|), Probe(cfg, t, k), |t.slots|);
    StoreNoHole(cfg, t, k, v);
    if t.slots[c].Empty? {
      FreeMeansAbsent(cfg, t, k);
    }
    ContentsUpdate(t.slots, c, k, v);
  }

  // ---- One call against the map ----

  /** Put on a table without holes: MAP_OK means the map gained exactly `k -> v`; MAP_OMEM, at whatever
      nesting depth, leaves a submap. A correct `size` stays correct when the key is new. */
  lemma {:induction false} PutCorrect(cfg: Config, t: Table, k: Key, v: Data)
    requires Chained(cfg, t.slots)
    ensures var r := Put(cfg, t, k, v);
      && Chained(cfg, r.table.slots)
      && (r.status == OK ==> Contents(r.table.slots) == Contents(t.slots)[k := v])
      && (r.status == OMEM ==> Submap(Contents(r.table.slots), Contents(t.slots)))
      && (Exact(t) && (k !in Contents(t.slots) || r.status == OMEM) ==> Exact(r.table))
    decreases Room(cfg, |t.slots|), 2, 0
  {
    if Probe(cfg, t, k) < MAX_CHAIN {
      StoreChained(cfg, t, k, v);
    } else {
      RehashCorrect(cfg, Noted(t));
      var r := Rehash(cfg, Noted(t));
      if r.status == OK {
        PutCorrect(cfg, r.table, k, v);
      }
    }
  }

  /** Rehash of any table with unique keys, holes or not: a refused first allocation changes nothing;
      otherwise the holes are gone and `size` is the number of keys, MAP_OK means the same map and
      MAP_OMEM a submap, even when a put inside it rehashes the half-filled table again. */
  lemma {:induction false} RehashCorrect(cfg: Config, t: Table)
    requires Shape(t) && Unique(t.slots)
    ensures var r := Rehash(cfg, t);
      if Granted(cfg, t.calls, 2 * |t.slots|) then
        && Chained(cfg, r.table.slots)
        && Exact(r.table)
        && (r.status == OK ==> Contents(r.table.slots) == Contents(t.slots))
        && Submap(Contents(r.table.slots), Contents(t.slots))
      else
        r == Outcome(t.(calls := t.calls + 1), OMEM)
    decreases Room(cfg, |t.slots|), 1, 0
  {
    if Granted(cfg, t.calls, 2 * |t.slots|) {
      assert Prefix(t.slots, 0) == map[];
      assert Contents(Doubled(t).slots) == map[];
      MoveAllCorrect(cfg, t.slots, Doubled(t), 0);
    }
  }

  lemma PrefixStep(slots: seq<Slot>, i: nat)
    requires Unique(slots) && i < |slots|
    ensures slots[i].Empty? ==> Prefix(slots, i + 1) == Prefix(slots, i)
    ensures slots[i].Used? ==> (slots[i].key !in Prefix(slots, i)
                                && Prefix(slots, i + 1) == Prefix(slots, i)[slots[i].key := slots[i].data])
  {
  }

  lemma PrefixSub(slots: seq<Slot>, i: nat, m: map<Key, Data>)
    requires Unique(slots) && i <= |slots| && Submap(m, Prefix(slots, i))
    ensures Submap(m, Contents(slots))
  {
  }

  /** The new table holds exactly the first `i` old slots, and its `size` is right. */
  ghost predicate Moved(cfg: Config, from: seq<Slot>, t: Table, i: nat) {
    && Unique(from) && i <= |from|
    && Chained(cfg, t.slots) && Exact(t) && Contents(t.slots) == Prefix(from, i)
  }

  /** A put inside the rehash ran out of memory. */
  ghost predicate Cut(cfg: Config, from: seq<Slot>, t: Table) {
    && Unique(from)
    && Chained(cfg, t.slots) && Exact(t) && Submap(Contents(t.slots), Contents(from))
  }

  lemma {:induction false} MoveOne(cfg: Config, from: seq<Slot>, t: Table, i: nat)
    requires i < |from| && from[i].Used? && Moved(cfg, from, t, i)
    ensures var r := Put(cfg, t, from[i].key, from[i].data);
      if r.status == OK then Moved(cfg, from, r.table, i + 1) else Cut(cfg, from, r.table)
    decreases Room(cfg, |t.slots|), 2, 1
  {
    PutCorrect(cfg, t, from[i].key, from[i].data);
    PrefixStep(from, i);
    var r := Put(cfg, t, from[i].key, from[i].data);
    if r.status != OK {
      PrefixSub(from, i, Contents(r.table.slots));
    }
  }

  lemma {:induction false} MoveAllCorrect(cfg: Config, from: seq<Slot>, t: Table, i: nat)
    requires Moved(cfg, from, t, i)
    ensures var r := MoveAll(cfg, from, t, i);
      if r.status == OK then Moved(cfg, from, r.table, |from|) else Cut(cfg, from, r.table)
    decreases Room(cfg, |t.slots|), 3, |from| - i
  {
    if i == |from| {
    } else if from[i].Empty? {
      PrefixStep(from, i);
      MoveAllCorrect(cfg, from, t, i + 1);
    } else {
      MoveOne(cfg, from, t, i);
      var r := Put(cfg, t, from[i].key, from[i].data);
      if r.status == OK {
        MoveAllCorrect(cfg, from, r.table, i + 1);
      }
    }
  }

  lemma SubmapTrans(a: map<Key, Data>, b: map<Key, Data>, c: map<Key, Data>)
    requires Submap(a, b) && Submap(b, c)
    ensures Submap(a, c)
  {
  }

  /** Put from any table with unique keys, holes or not: MAP_OMEM leaves a submap with unique keys, and the
      very same table when the first allocation is the refused one. */
  lemma PutOutOfMemory(cfg: Config, t: Table, k: Key, v: Data)
    requires Shape(t) && Unique(t.slots) && Put(cfg, t, k, v).status == OMEM
    ensures var r := Put(cfg, t, k, v).table;
      && Unique(r.slots)
      && Submap(Contents(r.slots), Contents(t.slots))
      && (!Granted(cfg, t.calls, 2 * |t.slots|) ==> r.slots == t.slots && r.size == t.size)
  {
    var r := Rehash(cfg, Noted(t));
    if Granted(cfg, t.calls, 2 * |t.slots|) {
      PutOutOfMemoryLater(cfg, t, k, v, r);
    }
  }

  lemma PutOutOfMemoryLater(cfg: Config, t: Table, k: Key, v: Data, r: Outcome)
    requires Shape(t) && Unique(t.slots) && Granted(cfg, t.calls, 2 * |t.slots|) && r == Rehash(cfg, Noted(t))
    ensures Unique(r.table.slots) && Submap(Contents(r.table.slots), Contents(t.slots))
    ensures var q := Put(cfg, r.table, k, v);
      q.status == OMEM ==> Unique(q.table.slots) && Submap(Contents(q.table.slots), Contents(t.slots))
  {
    RehashCorrect(cfg, Noted(t));
    PutCorrect(cfg, r.table, k, v);
    var q := Put(cfg, r.table, k, v);
    if q.status == OMEM {
      SubmapTrans(Contents(q.table.slots), Contents(r.table.slots), Contents(t.slots));
    }
  }

  /** The probe stops at a hole in front of the slot that already holds `k`. */
  ghost predicate Shadows(cfg: Config, t: Table, k: Key)
    requires Shape(t)
  {
    && Probe(cfg, t, k) < MAX_CHAIN
    && t.slots[At(Home(cfg, k, |t.slots|), Probe(cfg, t, k), |t.slots|)].Empty?
    && Find(cfg, t, k) < MAX_CHAIN
  }

  lemma FindIff(cfg: Config, t: Table, k: Key)
    requires Shape(t) && Windowed(cfg, t.slots)
    ensures Find(cfg, t, k) < MAX_CHAIN <==> Holds(t.slots, k)
  {
  }

  /** Put on a table that may have holes keeps the keys unique exactly when it does not stop at a hole in
      front of `k`; then, and only then, it is the map update. */
  lemma PutUniqueIff(cfg: Config, t: Table, k: Key, v: Data)
    requires Shape(t) && Windowed(cfg, t.slots) && Unique(t.slots) && Put(cfg, t, k, v).status == OK
    ensures var r := Put(cfg, t, k, v).table;
      && Windowed(cfg, r.slots)
      && (Unique(r.slots) <==> !Shadows(cfg, t, k))
      && (!Shadows(cfg, t, k) ==> Contents(r.slots) == Contents(t.slots)[k := v])
  {
    FindIff(cfg, t, k);
    if Probe(cfg, t, k) == MAX_CHAIN {
      RehashCorrect(cfg, Noted(t));
      PutCorrect(cfg, Rehash(cfg, Noted(t)).table, k, v);
    } else if Shadows(cfg, t, k) {
      StoreShadowed(cfg, t, k, v);
    } else {
      ContentsUpdate(t.slots, At(Home(cfg, k, |t.slots|), Probe(cfg, t, k), |t.slots|), k, v);
    }
  }

  lemma StoreShadowed(cfg: Config, t: Table, k: Key, v: Data)
    requires Shape(t) && Shadows(cfg, t, k)
    ensures !Unique(Store(cfg, t, k, v, Probe(cfg, t, k)).slots)
  {
    var home, n := Home(cfg, k, |t.slots|), |t.slots|;
    var s := Store(cfg, t, k, v, Probe(cfg, t, k)).slots;
    var c, d := At(home, Probe(cfg, t, k), n), At(home, Find(cfg, t, k), n);
    assert s[c].key == s[d].key == k && c != d;
  }

  /** In every table, even one with duplicate slots, a put that returns MAP_OK is what the next get sees. */
  lemma {:induction false} PutThenGet(cfg: Config, t: Table, k: Key, v: Data)
    requires Shape(t) && Put(cfg, t, k, v).status == OK
    ensures Get(cfg, Put(cfg, t, k, v).table, k) == Reply(OK, v)
    decreases Room(cfg, |t.slots|)
  {
    var i := Probe(cfg, t, k);
    if i < MAX_CHAIN {
      var s := Store(cfg, t, k, v, i);
      var home, n := Home(cfg, k, |t.slots|), |t.slots|;
      assert forall j :: 0 <= j < i ==> s.slots[At(home, j, n)] == t.slots[At(home, j, n)];
      assert Find(cfg, s, k) == i;
    } else {
      PutThenGet(cfg, Rehash(cfg, Noted(t)).table, k, v);
    }
  }

  /** Get is the lookup in the represented map. */
  lemma GetCorrect(cfg: Config, t: Table, k: Key)
    requires Shape(t) && Windowed(cfg, t.slots) && Unique(t.slots)
    ensures Get(cfg, t, k) == MapGet(Contents(t.slots), k)
  {
    FindIff(cfg, t, k);
    ContentsIff(t.slots, k, Get(cfg, t, k).arg);
  }

  /** Remove on unique keys deletes exactly `k`, reports MAP_MISSING exactly when it is absent, and leaves
      every other lookup as it was. */
  lemma RemoveCorrect(cfg: Config, t: Table, k: Key)
    requires Shape(t) && Windowed(cfg, t.slots) && Unique(t.slots)
    ensures var r := Remove(cfg, t, k);
      && Unique(r.table.slots) && Windowed(cfg, r.table.slots)
      && (r.status == OK <==> k in Contents(t.slots)) && (r.status == MISSING <==> k !in Contents(t.slots))
      && Contents(r.table.slots) == Contents(t.slots) - {k}
      && forall x :: x != k ==> Get(cfg, r.table, x) == Get(cfg, t, x)
  {
    FindIff(cfg, t, k);
    var r := Remove(cfg, t, k).table;
    if r != t {
      EraseContents(t.slots, At(Home(cfg, k, |t.slots|), Find(cfg, t, k), |t.slots|));
    }
    assert Windowed(cfg, r.slots);
    forall x | x != k ensures Get(cfg, r, x) == Get(cfg, t, x) {
      GetCorrect(cfg, t, x);
      GetCorrect(cfg, r, x);
    }
  }

  lemma EraseUnique(slots: seq<Slot>, c: nat)
    requires Unique(slots) && c < |slots|
    ensures Unique(slots[c := Empty])
  {
  }

  lemma EraseContents(slots: seq<Slot>, c: nat)
    requires Unique(slots) && c < |slots| && slots[c].Used?
    ensures Unique(slots[c := Empty])
    ensures Contents(slots[c := Empty]) == Contents(slots) - {slots[c].key}
  {
    var s, k := slots[c := Empty], slots[c].key;
    EraseUnique(slots, c);
    forall x ensures x in Contents(s) <==> x in Contents(slots) && x != k {
      if x in Contents(slots) && x != k {
        var p :| 0 <= p < |slots| && slots[p].Used? && slots[p].key == x;
        assert s[p].key == x;
      }
    }
  }

  // ---- Runs against a plain map ----

  function MapGet(m: map<Key, Data>, k: Key): Reply {
    if k in m then Reply(OK, m[k]) else Reply(MISSING, NULL)
  }

  function MapStep(m: map<Key, Data>, op: Op): (map<Key, Data>, Reply) {
    match op
    case PutOp(k, v) => (m[k := v], Reply(OK, NULL))
    case GetOp(k) => (m, MapGet(m, k))
    case RemoveOp(k) => (m - {k}, Reply(if k in m then OK else MISSING, NULL))
  }

  function MapRun(m: map<Key, Data>, ops: seq<Op>): (r: (map<Key, Data>, seq<Reply>))
    ensures |r.1| == |ops|
    decreases |ops|
  {
    if ops == [] then (m, [])
    else
      var s := MapStep(m, ops[0]);
      var rest := MapRun(s.0, ops[1..]);
      (rest.0, [s.1] + rest.1)
  }

  /** Once a remove has succeeded, puts only insert keys that are absent. */
  predicate Disciplined(m: map<Key, Data>, removed: bool, ops: seq<Op>)
    decreases |ops|
  {
    ops != [] ==>
      && (ops[0].PutOp? && removed ==> ops[0].k !in m)
      && Disciplined(MapStep(m, ops[0]).0, removed || (ops[0].RemoveOp? && ops[0].k in m), ops[1..])
  }

  /** No put of the run stops at a hole in front of the slot that already holds its key. */
  ghost predicate NeverShadows(cfg: Config, t: Table, ops: seq<Op>)
    requires Shape(t)
    decreases |ops|
  {
    ops != [] ==>
      && (ops[0].PutOp? ==> !Shadows(cfg, t, ops[0].k))
      && NeverShadows(cfg, Step(cfg, t, ops[0]).0, ops[1..])
  }

  /** No table of the run holds a key twice. */
  ghost predicate UniqueAlong(cfg: Config, t: Table, ops: seq<Op>)
    requires Shape(t)
    decreases |ops|
  {
    Unique(t.slots) && (ops != [] ==> UniqueAlong(cfg, Step(cfg, t, ops[0]).0, ops[1..]))
  }

  /** The table represents the map `m`; it may have holes. */
  ghost predicate Represents(cfg: Config, t: Table, m: map<Key, Data>) {
    Shape(t) && Windowed(cfg, t.slots) && Unique(t.slots) && Contents(t.slots) == m
  }

  lemma StepUniqueIff(cfg: Config, t: Table, op: Op)
    requires Shape(t) && Windowed(cfg, t.slots) && Unique(t.slots)
    ensures Windowed(cfg, Step(cfg, t, op).0.slots)
    ensures Unique(Step(cfg, t, op).0.slots) <==> !(op.PutOp? && Shadows(cfg, t, op.k))
  {
    match op {
      case PutOp(k, v) =>
        PutKeys(cfg, t, k, v);
        if Put(cfg, t, k, v).status == OK {
          PutUniqueIff(cfg, t, k, v);
        } else {
          PutOutOfMemory(cfg, t, k, v);
        }
      case GetOp(k) =>
      case RemoveOp(k) => RemoveCorrect(cfg, t, k);
    }
  }

  lemma {:induction false} RunUniqueIffFrom(cfg: Config, t: Table, ops: seq<Op>)
    requires Shape(t) && Windowed(cfg, t.slots) && Unique(t.slots)
    ensures UniqueAlong(cfg, t, ops) <==> NeverShadows(cfg, t, ops)
    decreases |ops|
  {
    if ops != [] {
      StepUniqueIff(cfg, t, ops[0]);
      var s := Step(cfg, t, ops[0]).0;
      if Unique(s.slots) {
        RunUniqueIffFrom(cfg, s, ops[1..]);
      } else {
        assert !UniqueAlong(cfg, s, ops[1..]);
      }
    }
  }

  lemma NewRepresents(cfg: Config)
    ensures Represents(cfg, New(), map[]) && Chained(cfg, New().slots)
  {
  }

  /** Of any run, failed calls and removes included: no table on the way holds a key twice if and only if no put
      stops at a hole in front of its own key. */
  lemma RunUniqueIff(cfg: Config, ops: seq<Op>)
    ensures UniqueAlong(cfg, New(), ops) <==> NeverShadows(cfg, New(), ops)
  {
    NewRepresents(cfg);
    RunUniqueIffFrom(cfg, New(), ops);
  }

  lemma StepRefines(cfg: Config, t: Table, m: map<Key, Data>, op: Op)
    requires Represents(cfg, t, m) && (op.PutOp? ==> !Shadows(cfg, t, op.k))
    requires Step(cfg, t, op).1.status != OMEM
    ensures Step(cfg, t, op).1 == MapStep(m, op).1
    ensures Represents(cfg, Step(cfg, t, op).0, MapStep(m, op).0)
  {
    match op {
      case PutOp(k, v) => PutUniqueIff(cfg, t, k, v);
      case GetOp(k) => GetCorrect(cfg, t, k);
      case RemoveOp(k) =>
        RemoveCorrect(cfg, t, k);
        assert k !in m ==> m - {k} == m;
    }
  }

  /** No call of the run runs out of memory. */
  ghost predicate EnoughMemory(cfg: Config, t: Table, ops: seq<Op>)
    requires Shape(t)
  {
    forall i :: 0 <= i < |ops| ==> Run(cfg, t, ops).1[i].status != OMEM
  }

  lemma EnoughMemoryStep(cfg: Config, t: Table, ops: seq<Op>)
    requires Shape(t) && ops != [] && EnoughMemory(cfg, t, ops)
    ensures Step(cfg, t, ops[0]).1.status != OMEM
    ensures EnoughMemory(cfg, Step(cfg, t, ops[0]).0, ops[1..])
  {
    var s := Step(cfg, t, ops[0]);
    var rest := Run(cfg, s.0, ops[1..]).1;
    assert Run(cfg, t, ops).1[0] == s.1;
    forall i | 0 <= i < |ops| - 1 ensures rest[i].status != OMEM {
      assert rest[i] == Run(cfg, t, ops).1[i + 1];
    }
  }

  lemma {:induction false} RunRefinesFrom(cfg: Config, t: Table, m: map<Key, Data>, ops: seq<Op>)
    requires Represents(cfg, t, m) && NeverShadows(cfg, t, ops) && EnoughMemory(cfg, t, ops)
    ensures Run(cfg, t, ops).1 == MapRun(m, ops).1
    ensures Represents(cfg, Run(cfg, t, ops).0, MapRun(m, ops).0)
    decreases |ops|
  {
    if ops != [] {
      EnoughMemoryStep(cfg, t, ops);
      StepRefines(cfg, t, m, ops[0]);
      RunRefinesFrom(cfg, Step(cfg, t, ops[0]).0, MapStep(m, ops[0]).0, ops[1..]);
    }
  }

  /** A run in which no call runs out of memory and no put shadows its key answers every call as a plain map does,
      and its last table represents that map. */
  lemma ShadowFreeRunRefines(cfg: Config, ops: seq<Op>)
    requires NeverShadows(cfg, New(), ops) && EnoughMemory(cfg, New(), ops)
    ensures Run(cfg, New(), ops).1 == MapRun(map[], ops).1
    ensures Represents(cfg, Run(cfg, New(), ops).0, MapRun(map[], ops).0)
  {
    NewRepresents(cfg);
    RunRefinesFrom(cfg, New(), map[], ops);
  }

  // ---- What a shadowing put breaks ----

  lemma ShadowPut(cfg: Config, t: Table, k: Key, v: Data)
    requires Shape(t) && Shadows(cfg, t, k)
    ensures var s := Store(cfg, t, k, v, Probe(cfg, t, k));
      Put(cfg, t, k, v) == Outcome(s, OK) && Find(cfg, s, k) == Probe(cfg, t, k)
  {
    var home, n := Home(cfg, k, |t.slots|), |t.slots|;
    var i := Probe(cfg, t, k);
    var s := Store(cfg, t, k, v, i);
    assert forall j :: 0 <= j < i ==> s.slots[At(home, j, n)] == t.slots[At(home, j, n)];
  }

  lemma ShadowRemove(cfg: Config, t: Table, k: Key, v: Data)
    requires Shape(t) && Shadows(cfg, t, k)
    ensures var r := Remove(cfg, Put(cfg, t, k, v).table, k);
      r.status == OK && r.table.slots == t.slots
  {
    ShadowPut(cfg, t, k, v);
    var c := At(Home(cfg, k, |t.slots|), Probe(cfg, t, k), |t.slots|);
    assert t.slots[c := Used(k, v)][c := Empty] == t.slots;
  }

  /** A put that stops at a hole in front of its key hides the older slot: the next remove of the key takes the new
      slot away again, and the get after it returns the older value. */
  lemma ShadowBreaks(cfg: Config, t: Table, m: map<Key, Data>, k: Key, v: Data)
    requires Represents(cfg, t, m) && Shadows(cfg, t, k)
    ensures var p := Put(cfg, t, k, v);
      var r := Remove(cfg, p.table, k);
      && k in m && p.status == OK && r.status == OK && r.table.slots == t.slots
      && Get(cfg, r.table, k) == Reply(OK, m[k])
  {
    ShadowPut(cfg, t, k, v);
    ShadowRemove(cfg, t, k, v);
    GetCorrect(cfg, t, k);
  }

  predicate NoPuts(ops: seq<Op>) { forall i :: 0 <= i < |ops| ==> !ops[i].PutOp? }

  /** Gets and removes on table `t` are answered as the map `m` answers them. */
  ghost predicate Faithful(cfg: Config, t: Table, m: map<Key, Data>)
    requires Shape(t)
  {
    forall ops: seq<Op> :: NoPuts(ops) ==> Run(cfg, t, ops).1 == MapRun(m, ops).1
  }

  lemma {:induction false} NoPutsRefine(cfg: Config, t: Table, m: map<Key, Data>, ops: seq<Op>)
    requires Represents(cfg, t, m) && NoPuts(ops)
    ensures Run(cfg, t, ops).1 == MapRun(m, ops).1
    decreases |ops|
  {
    if ops != [] {
      StepRefines(cfg, t, m, ops[0]);
      NoPutsRefine(cfg, Step(cfg, t, ops[0]).0, MapStep(m, ops[0]).0, ops[1..]);
    }
  }

  lemma RepresentsFaithful(cfg: Config, t: Table, m: map<Key, Data>)
    requires Represents(cfg, t, m)
    ensures Faithful(cfg, t, m)
  {
    forall ops: seq<Op> | NoPuts(ops) ensures Run(cfg, t, ops).1 == MapRun(m, ops).1 {
      NoPutsRefine(cfg, t, m, ops);
    }
  }

  /** The second reply of a remove and a get of one key. */
  lemma RemoveThenGet(cfg: Config, t: Table, m: map<Key, Data>, k: Key)
    requires Shape(t)
    ensures var ops := [RemoveOp(k), GetOp(k)];
      && NoPuts(ops)
      && Run(cfg, t, ops).1[1] == Get(cfg, Remove(cfg, t, k).table, k)
      && MapRun(m, ops).1[1] == Reply(MISSING, NULL)
  {
    var ops := [RemoveOp(k), GetOp(k)];
    assert ops[1..] == [GetOp(k)];
    var s := Step(cfg, t, ops[0]).0;
    assert Run(cfg, s, [GetOp(k)]).1[0] == Get(cfg, s, k);
    assert MapRun(m - {k}, [GetOp(k)]).1[0] == Reply(MISSING, NULL);
  }

  /** After a successful put all gets and removes are answered as by the updated map if and only if the put did not
      stop at a hole in front of its key. */
  lemma PutFaithfulIff(cfg: Config, t: Table, m: map<Key, Data>, k: Key, v: Data)
    requires Represents(cfg, t, m) && Put(cfg, t, k, v).status == OK
    ensures Faithful(cfg, Put(cfg, t, k, v).table, m[k := v]) <==> !Shadows(cfg, t, k)
  {
    var p := Put(cfg, t, k, v).table;
    if Shadows(cfg, t, k) {
      ShadowBreaks(cfg, t, m, k, v);
      RemoveThenGet(cfg, p, m[k := v], k);
      var ops := [RemoveOp(k), GetOp(k)];
      assert NoPuts(ops) && Run(cfg, p, ops).1 != MapRun(m[k := v], ops).1;
    } else {
      PutUniqueIff(cfg, t, k, v);
      RepresentsFaithful(cfg, p, m[k := v]);
    }
  }

  /** Every call of the run is answered as by the map, and after each of them so is every continuation by gets and
      removes. */
  ghost predicate FaithfulAlong(cfg: Config, t: Table, m: map<Key, Data>, ops: seq<Op>)
    requires Shape(t)
    decreases |ops|
  {
    && Faithful(cfg, t, m)
    && (ops != [] ==>
          && Step(cfg, t, ops[0]).1 == MapStep(m, ops[0]).1
          && FaithfulAlong(cfg, Step(cfg, t, ops[0]).0, MapStep(m, ops[0]).0, ops[1..]))
  }

  lemma {:induction false} RunFaithfulIffFrom(cfg: Config, t: Table, m: map<Key, Data>, ops: seq<Op>)
    requires Represents(cfg, t, m) && EnoughMemory(cfg, t, ops)
    ensures FaithfulAlong(cfg, t, m, ops) <==> NeverShadows(cfg, t, ops)
    decreases |ops|
  {
    RepresentsFaithful(cfg, t, m);
    if ops != [] {
      EnoughMemoryStep(cfg, t, ops);
      if ops[0].PutOp? && Shadows(cfg, t, ops[0].k) {
        PutFaithfulIff(cfg, t, m, ops[0].k, ops[0].v);
      } else {
        StepRefines(cfg, t, m, ops[0]);
        RunFaithfulIffFrom(cfg, Step(cfg, t, ops[0]).0, MapStep(m, ops[0]).0, ops[1..]);
      }
    }
  }

  /** A run with enough memory behaves as a plain map, now and in whatever gets and removes may follow any of its
      calls, if and only if no put stops at a hole in front of its key. */
  lemma RunFaithfulIff(cfg: Config, ops: seq<Op>)
    requires EnoughMemory(cfg, New(), ops)
    ensures FaithfulAlong(cfg, New(), map[], ops) <==> NeverShadows(cfg, New(), ops)
  {
    NewRepresents(cfg);
    RunFaithfulIffFrom(cfg, New(), map[], ops);
  }

  /** Tables without holes stay so until a remove succeeds. */
  lemma StepChained(cfg: Config, t: Table, op: Op)
    requires Chained(cfg, t.slots) && !(op.RemoveOp? && op.k in Contents(t.slots))
    ensures Chained(cfg, Step(cfg, t, op).0.slots)
  {
    match op {
      case PutOp(k, v) => PutCorrect(cfg, t, k, v);
      case GetOp(k) =>
      case RemoveOp(k) => RemoveCorrect(cfg, t, k);
    }
  }

  lemma NotShadowed(cfg: Config, t: Table, k: Key)
    requires Shape(t) && Windowed(cfg, t.slots) && Unique(t.slots)
    requires Chained(cfg, t.slots) || k !in Contents(t.slots)
    ensures !Shadows(cfg, t, k)
  {
    FindIff(cfg, t, k);
    if k in Contents(t.slots) && Probe(cfg, t, k) < MAX_CHAIN
      && t.slots[At(Home(cfg, k, |t.slots|), Probe(cfg, t, k), |t.slots|)].Empty? {
      FreeMeansAbsent(cfg, t, k);
    }
  }

  lemma {:induction false} DisciplinedNeverShadows(cfg: Config, t: Table, m: map<Key, Data>, removed: bool,
                                                   ops: seq<Op>)
    requires Represents(cfg, t, m) && (!removed ==> Chained(cfg, t.slots))
    requires Disciplined(m, removed, ops) && EnoughMemory(cfg, t, ops)
    ensures NeverShadows(cfg, t, ops)
    decreases |ops|
  {
    if ops != [] {
      var op := ops[0];
      if op.PutOp? {
        NotShadowed(cfg, t, op.k);
      }
      EnoughMemoryStep(cfg, t, ops);
      StepRefines(cfg, t, m, op);
      if !removed && !(op.RemoveOp? && op.k in m) {
        StepChained(cfg, t, op);
      }
      var removes := op.RemoveOp? && op.k in m;
      DisciplinedNeverShadows(cfg, Step(cfg, t, op).0, MapStep(m, op).0, removed || removes, ops[1..]);
    }
  }

  /** In particular a run in which puts after a successful remove only insert absent keys, a condition on the calls
      alone. */
  lemma RunRefines(cfg: Config, ops: seq<Op>)
    requires Disciplined(map[], false, ops) && EnoughMemory(cfg, New(), ops)
    ensures Run(cfg, New(), ops).1 == MapRun(map[], ops).1
  {
    NewRepresents(cfg);
    DisciplinedNeverShadows(cfg, New(), map[], false, ops);
    ShadowFreeRunRefines(cfg, ops);
  }

  lemma {:induction false} NoRemoveDisciplined(m: map<Key, Data>, ops: seq<Op>)
    requires forall i :: 0 <= i < |ops| ==> !ops[i].RemoveOp?
    ensures Disciplined(m, false, ops)
    decreases |ops|
  {
    if ops != [] {
      NoRemoveDisciplined(MapStep(m, ops[0]).0, ops[1..]);
    }
  }

  /** Runs of puts and gets, all the server makes: get returns the value of the last put of its key and
      MAP_MISSING exactly when there was none. */
  lemma PutGetRunRefines(cfg: Config, ops: seq<Op>)
    requires forall i :: 0 <= i < |ops| ==> !ops[i].RemoveOp?
    requires EnoughMemory(cfg, New(), ops)
    ensures Run(cfg, New(), ops).1 == MapRun(map[], ops).1
  {
    NoRemoveDisciplined(map[], ops);
    RunRefines(cfg, ops);
  }

  /** The last value put under each key, counting only the puts that returned MAP_OK. */
  function Accepted(cfg: Config, t: Table, m: map<Key, Data>, ops: seq<Op>): map<Key, Data>
    requires Shape(t)
    decreases |ops|
  {
    if ops == [] then m
    else
      var s := Step(cfg, t, ops[0]);
      Accepted(cfg, s.0, if ops[0].PutOp? && s.1.status == OK then m[ops[0].k := ops[0].v] else m, ops[1..])
  }

  lemma {:induction false} RunNeverWrongFrom(cfg: Config, t: Table, m: map<Key, Data>, ops: seq<Op>)
    requires Chained(cfg, t.slots) && Submap(Contents(t.slots), m)
    requires forall i :: 0 <= i < |ops| ==> !ops[i].RemoveOp?
    ensures var r := Run(cfg, t, ops).0;
      Chained(cfg, r.slots) && Submap(Contents(r.slots), Accepted(cfg, t, m, ops))
    decreases |ops|
  {
    if ops != [] {
      if ops[0].PutOp? {
        PutCorrect(cfg, t, ops[0].k, ops[0].v);
      }
      var s := Step(cfg, t, ops[0]);
      RunNeverWrongFrom(cfg, s.0, if ops[0].PutOp? && s.1.status == OK then m[ops[0].k := ops[0].v] else m, ops[1..]);
    }
  }

  /** Runs of puts and gets in which puts may run out of memory: keys may be lost, but a get that succeeds
      returns the value of the last put of its key that returned MAP_OK. */
  lemma PutGetRunNeverWrong(cfg: Config, ops: seq<Op>, k: Key)
    requires forall i :: 0 <= i < |ops| ==> !ops[i].RemoveOp?
    ensures var g := Get(cfg, Run(cfg, New(), ops).0, k);
      g.status == OK ==> (k in Accepted(cfg, New(), map[], ops) && Accepted(cfg, New(), map[], ops)[k] == g.arg)
  {
    NewRepresents(cfg);
    RunNeverWrongFrom(cfg, New(), map[], ops);
    GetCorrect(cfg, Run(cfg, New(), ops).0, k);
  }

  lemma LoneKeyShadowed(cfg: Config, t: Table, b: Key, v: Data, c: nat, d: nat)
    requires |t.slots| == INITIAL_SIZE && t.size == 1 && c == Home(cfg, b, INITIAL_SIZE) && d == At(c, 1, INITIAL_SIZE)
    requires t.slots[d] == Used(b, v) && forall p :: 0 <= p < INITIAL_SIZE && p != d ==> t.slots[p].Empty?
    ensures Represents(cfg, t, map[b := v]) && Shadows(cfg, t, b)
  {
    FindIff(cfg, t, b);
    assert Holds(t.slots, b);
    assert At(c, 0, INITIAL_SIZE) == c && t.slots[c].Empty?;
    assert Probe(cfg, t, b) == 0;
  }

  lemma RunCons(cfg: Config, t: Table, op: Op, rest: seq<Op>)
    requires Shape(t)
    ensures Run(cfg, t, [op] + rest).1 == [Step(cfg, t, op).1] + Run(cfg, Step(cfg, t, op).0, rest).1
  {
    assert ([op] + rest)[1..] == rest;
  }

  lemma MapRunCons(m: map<Key, Data>, op: Op, rest: seq<Op>)
    ensures MapRun(m, [op] + rest).1 == [MapStep(m, op).1] + MapRun(MapStep(m, op).0, rest).1
  {
    assert ([op] + rest)[1..] == rest;
  }

  /** Replies after three calls are those of the table the three leave. */
  lemma RunAfterThree(cfg: Config, t: Table, x: Op, y: Op, z: Op, rest: seq<Op>, i: nat)
    requires Shape(t) && i < |rest|
    ensures Run(cfg, t, [x] + ([y] + ([z] + rest))).1[i + 3]
      == Run(cfg, Step(cfg, Step(cfg, Step(cfg, t, x).0, y).0, z).0, rest).1[i]
  {
    var s := Step(cfg, t, x).0;
    RunCons(cfg, t, x, [y] + ([z] + rest));
    RunCons(cfg, s, y, [z] + rest);
    RunCons(cfg, Step(cfg, s, y).0, z, rest);
  }

  lemma MapRunAfterThree(m: map<Key, Data>, x: Op, y: Op, z: Op, rest: seq<Op>, i: nat)
    requires i < |rest|
    ensures MapRun(m, [x] + ([y] + ([z] + rest))).1[i + 3]
      == MapRun(MapStep(MapStep(MapStep(m, x).0, y).0, z).0, rest).1[i]
  {
    var n := MapStep(m, x).0;
    MapRunCons(m, x, [y] + ([z] + rest));
    MapRunCons(n, y, [z] + rest);
    MapRunCons(MapStep(n, y).0, z, rest);
  }

  /** Two keys share a home, the first is removed, the second is put again. The put stops at the hole. */
  function StaleRun(a: Key, b: Key, older: Data, newer: Data): seq<Op> {
    [PutOp(a, NULL)] + ([PutOp(b, older)] + ([RemoveOp(a)] + Overwrite(b, newer)))
  }

  function Overwrite(b: Key, newer: Data): seq<Op> { [PutOp(b, newer)] + [RemoveOp(b), GetOp(b)] }

  /** With a table that shadows the key, overwriting and removing it brings the older value back, where a plain map
      has nothing. */
  lemma OverwriteStale(cfg: Config, t: Table, m: map<Key, Data>, b: Key, newer: Data)
    requires Represents(cfg, t, m) && Shadows(cfg, t, b)
    ensures b in m && Run(cfg, t, Overwrite(b, newer)).1[2] == Reply(OK, m[b])
    ensures MapRun(m, Overwrite(b, newer)).1[2] == Reply(MISSING, NULL)
  {
    ShadowBreaks(cfg, t, m, b, newer);
    var rest := [RemoveOp(b), GetOp(b)];
    RunCons(cfg, t, PutOp(b, newer), rest);
    MapRunCons(m, PutOp(b, newer), rest);
    RemoveThenGet(cfg, Put(cfg, t, b, newer).table, m[b := newer], b);
  }

  /** The table before the last three calls of the stale run. */
  lemma HoleTable(cfg: Config, a: Key, b: Key, older: Data) returns (t1: Table, t2: Table, t3: Table)
    requires a != b && Home(cfg, a, INITIAL_SIZE) == Home(cfg, b, INITIAL_SIZE)
    ensures Shape(t1) && Shape(t2) && Step(cfg, New(), PutOp(a, NULL)).0 == t1
    ensures Step(cfg, t1, PutOp(b, older)).0 == t2 && Step(cfg, t2, RemoveOp(a)).0 == t3
    ensures Represents(cfg, t3, map[b := older]) && Shadows(cfg, t3, b)
  {
    var c := Home(cfg, a, INITIAL_SIZE);
    var d := At(c, 1, INITIAL_SIZE);
    t1 := Table(New().slots[c := Used(a, NULL)], 1, 0, 0);
    t2 := Table(t1.slots[d := Used(b, older)], 2, 0, 0);
    t3 := Table(t2.slots[c := Empty], 1, 0, 0);
    LoneKeyShadowed(cfg, t3, b, older, c, d);
  }

  lemma StaleRunOnMap(a: Key, b: Key, older: Data, newer: Data)
    requires a != b
    ensures MapRun(map[], StaleRun(a, b, older, newer)).1[5] == MapRun(map[b := older], Overwrite(b, newer)).1[2]
  {
    MapRunAfterThree(map[], PutOp(a, NULL), PutOp(b, older), RemoveOp(a), Overwrite(b, newer), 2);
    assert map[a := NULL][b := older] - {a} == map[b := older];
  }

  /** So for any two keys with one home there is a run that answers wrongly. */
  lemma StaleValueReturns(cfg: Config, a: Key, b: Key, older: Data, newer: Data)
    requires a != b && Home(cfg, a, INITIAL_SIZE) == Home(cfg, b, INITIAL_SIZE)
    ensures Run(cfg, New(), StaleRun(a, b, older, newer)).1[5] == Reply(OK, older)
    ensures MapRun(map[], StaleRun(a, b, older, newer)).1[5] == Reply(MISSING, NULL)
  {
    var t1, t2, t3 := HoleTable(cfg, a, b, older);
    OverwriteStale(cfg, t3, map[b := older], b, newer);
    RunAfterThree(cfg, New(), PutOp(a, NULL), PutOp(b, older), RemoveOp(a), Overwrite(b, newer), 2);
    StaleRunOnMap(a, b, older, newer);
  }
}
