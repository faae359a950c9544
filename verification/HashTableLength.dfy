/** When `size`, which `hashmap_length` returns, is the number of stored keys. */
module HashTableLength {
  import opened HashTable
  import opened HashTableInvariants
  import opened HashTableKeys
  import opened HashTableRefinement

  /** The length is the number of distinct stored keys. */
  ghost predicate Right(t: Table) { t.size == |KeySet(t.slots)| }

  lemma KeySetLast(slots: seq<Slot>)
    requires slots != []
    ensures var l := |slots| - 1;
      KeySet(slots) == KeySet(slots[..l]) + if slots[l].Used? then {slots[l].key} else {}
  {
    var l := |slots| - 1;
    var s := slots[..l];
    forall x | x in KeySet(slots) && (slots[l].Used? ==> x != slots[l].key) ensures x in KeySet(s) {
      var p :| 0 <= p < |slots| && slots[p].Used? && slots[p].key == x;
      assert s[p] == slots[p];
    }
    forall x | x in KeySet(s) ensures x in KeySet(slots) {
      var p :| 0 <= p < |s| && s[p].Used? && s[p].key == x;
      assert slots[p] == s[p];
    }
  }

  lemma UniqueLast(slots: seq<Slot>)
    requires slots != []
    ensures var l := |slots| - 1;
      Unique(slots) <==> Unique(slots[..l]) && (slots[l].Used? ==> slots[l].key !in KeySet(slots[..l]))
  {
    var l := |slots| - 1;
    var s := slots[..l];
    if Unique(slots) {
      assert forall p :: 0 <= p < l ==> s[p] == slots[p];
    } else {
      var p, q :| 0 <= p < q < |slots| && slots[p].Used? && slots[q].Used? && slots[p].key == slots[q].key;
      assert s[p] == slots[p];
      assert q < l ==> s[q] == slots[q];
    }
  }

  /** Slots in use are at least the keys, and exactly the keys if and only if no key is stored twice. */
  lemma {:induction false} OccupiedKeys(slots: seq<Slot>)
    ensures |KeySet(slots)| <= Occupied(slots)
    ensures |KeySet(slots)| == Occupied(slots) <==> Unique(slots)
  {
    if slots != [] {
      var l := |slots| - 1;
      OccupiedKeys(slots[..l]);
      KeySetLast(slots);
      UniqueLast(slots);
    }
  }

  /** Over every run the length is at least the number of keys. */
  lemma RunLengthBound(cfg: Config, ops: seq<Op>)
    ensures var t := Run(cfg, New(), ops).0;
      |KeySet(t.slots)| <= t.size
  {
    RunSound(cfg, ops);
    OccupiedKeys(Run(cfg, New(), ops).0.slots);
  }

  /** A right length means that no key is stored twice. */
  lemma RightUnique(cfg: Config, t: Table)
    requires Sound(cfg, t) && Right(t)
    ensures Unique(t.slots)
  {
    OccupiedKeys(t.slots);
  }

  /** On unique keys this is the number of keys of the represented map. */
  lemma RightIsExact(t: Table)
    requires Unique(t.slots)
    ensures Contents(t.slots).Keys == KeySet(t.slots) && (Right(t) <==> Exact(t))
  {
  }

  /** Storing a key keeps a right length right exactly when the key is new, and never makes a wrong one right. */
  lemma StoreRightIff(cfg: Config, t: Table, k: Key, v: Data)
    requires Sound(cfg, t) && Probe(cfg, t, k) < MAX_CHAIN
    ensures Right(Store(cfg, t, k, v, Probe(cfg, t, k))) <==> Right(t) && k !in KeySet(t.slots)
  {
    StoreKeys(cfg, t, k, v);
    OccupiedKeys(t.slots);
  }

  /** A granted rehash of unique keys makes the length right. */
  lemma RehashRight(cfg: Config, t: Table)
    requires Sound(cfg, t) && Unique(t.slots) && Granted(cfg, t.calls, 2 * |t.slots|)
    ensures var r := Rehash(cfg, t);
      Sound(cfg, r.table) && Unique(r.table.slots) && Right(r.table)
      && (r.status == OK ==> KeySet(r.table.slots) == KeySet(t.slots))
  {
    RehashSound(cfg, t);
    RehashCorrect(cfg, t);
    RehashKeys(cfg, t);
    RightIsExact(Rehash(cfg, t).table);
  }

  /** From a table with unique keys the length is right after a successful put if and only if the key is new, and
      the length was right or the table grew; after a failed one if and only if it was right or the first allocation
      was granted. */
  lemma {:induction false} PutRightIff(cfg: Config, t: Table, k: Key, v: Data)
    requires Sound(cfg, t) && Unique(t.slots)
    ensures var r := Put(cfg, t, k, v);
      Right(r.table) <==>
        if r.status == OK then k !in KeySet(t.slots) && (Right(t) || Probe(cfg, t, k) == MAX_CHAIN)
        else Right(t) || Granted(cfg, t.calls, 2 * |t.slots|)
    decreases Room(cfg, |t.slots|)
  {
    if Probe(cfg, t, k) < MAX_CHAIN {
      StoreRightIff(cfg, t, k, v);
    } else if Granted(cfg, t.calls, 2 * |t.slots|) {
      RehashRight(cfg, Noted(t));
      var r := Rehash(cfg, Noted(t));
      if r.status == OK {
        PutRightIff(cfg, r.table, k, v);
      }
    }
  }

  /** A remove keeps a right length right and a wrong one wrong. */
  lemma RemoveRightIff(cfg: Config, t: Table, k: Key)
    requires Sound(cfg, t) && Unique(t.slots)
    ensures Right(Remove(cfg, t, k).table) <==> Right(t)
  {
    RemoveCorrect(cfg, t, k);
    RightIsExact(t);
    RightIsExact(Remove(cfg, t, k).table);
    assert Contents(Remove(cfg, t, k).table.slots).Keys == Contents(t.slots).Keys - {k};
  }

  // ---- Whole runs ----

  /** The length is right before the run and after each of its calls. */
  ghost predicate RightAlong(cfg: Config, t: Table, ops: seq<Op>)
    requires Shape(t)
    decreases |ops|
  {
    Right(t) && (ops != [] ==> RightAlong(cfg, Step(cfg, t, ops[0]).0, ops[1..]))
  }

  /** Every put that succeeds is of a key a get before it would miss. */
  predicate OnlyInserts(cfg: Config, t: Table, ops: seq<Op>)
    requires Shape(t)
    decreases |ops|
  {
    ops != [] ==>
      && (ops[0].PutOp? && Step(cfg, t, ops[0]).1.status == OK ==> Get(cfg, t, ops[0].k).status == MISSING)
      && OnlyInserts(cfg, Step(cfg, t, ops[0]).0, ops[1..])
  }

  lemma MissingIff(cfg: Config, t: Table, k: Key)
    requires Shape(t) && Windowed(cfg, t.slots)
    ensures Get(cfg, t, k).status == MISSING <==> k !in KeySet(t.slots)
  {
    FindIff(cfg, t, k);
  }

  lemma StepRightIff(cfg: Config, t: Table, op: Op)
    requires Sound(cfg, t) && Right(t)
    ensures Sound(cfg, Step(cfg, t, op).0)
    ensures Right(Step(cfg, t, op).0) <==>
      (op.PutOp? && Step(cfg, t, op).1.status == OK ==> Get(cfg, t, op.k).status == MISSING)
  {
    RightUnique(cfg, t);
    match op {
      case PutOp(k, v) =>
        PutSound(cfg, t, k, v);
        PutRightIff(cfg, t, k, v);
        MissingIff(cfg, t, k);
      case GetOp(k) =>
      case RemoveOp(k) =>
        RemoveSound(cfg, t, k);
        RemoveRightIff(cfg, t, k);
    }
  }

  lemma {:induction false} RunLengthIffFrom(cfg: Config, t: Table, ops: seq<Op>)
    requires Sound(cfg, t) && Right(t)
    ensures RightAlong(cfg, t, ops) <==> OnlyInserts(cfg, t, ops)
    decreases |ops|
  {
    if ops != [] {
      StepRightIff(cfg, t, ops[0]);
      var s := Step(cfg, t, ops[0]).0;
      if Right(s) {
        RunLengthIffFrom(cfg, s, ops[1..]);
      } else {
        assert !RightAlong(cfg, s, ops[1..]);
      }
    }
  }

  lemma NewRight(cfg: Config)
    ensures Sound(cfg, New()) && Right(New())
  {
    FreshSound(cfg, New());
    assert KeySet(New().slots) == {};
  }

  /** Over any run, removes and failed calls included, the length is the number of keys after every call if and only
      if no successful put overwrites a stored key. */
  lemma RunLengthIff(cfg: Config, ops: seq<Op>)
    ensures RightAlong(cfg, New(), ops) <==> OnlyInserts(cfg, New(), ops)
  {
    NewRight(cfg);
    RunLengthIffFrom(cfg, New(), ops);
  }

  /** The shortest run with a wrong length: one key put twice has length two. */
  lemma LengthDrifts(cfg: Config, a: Key, v: Data, w: Data)
    ensures var t := Run(cfg, New(), [PutOp(a, v), PutOp(a, w)]).0;
      t.size == 2 && KeySet(t.slots) == {a} && !Right(t)
  {
    var ops := [PutOp(a, v), PutOp(a, w)];
    var c := Home(cfg, a, INITIAL_SIZE);
    var t1 := Table(New().slots[c := Used(a, v)], 1, 0, 0);
    var t2 := Table(t1.slots[c := Used(a, w)], 2, 0, 0);
    assert At(c, 0, INITIAL_SIZE) == c;
    assert Step(cfg, New(), ops[0]).0 == t1;
    assert Step(cfg, t1, ops[1]).0 == t2;
    assert ops[1..] == [PutOp(a, w)] && [PutOp(a, w)][1..] == [];
    assert Run(cfg, t1, [PutOp(a, w)]).0 == Run(cfg, t2, []).0 == t2;
    assert t2.slots[c].key == a;
  }
}
