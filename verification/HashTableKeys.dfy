/** The stored keys of any table, duplicate slots or not: which keys a call keeps, and how many can collide. */
module HashTableKeys {
  import opened HashTable
  import opened HashTableInvariants

  ghost function KeySet(slots: seq<Slot>): set<Key> {
    set p | 0 <= p < |slots| && slots[p].Used? :: slots[p].key
  }

  /** The table after a call on table `t`: windows are kept, on MAP_OK the keys are `more` and those of `t`, and
      otherwise no key is new. */
  ghost predicate Keeps(cfg: Config, t: Table, more: set<Key>, r: Outcome) {
    && (Windowed(cfg, t.slots) ==> Windowed(cfg, r.table.slots))
    && (if r.status == OK then KeySet(r.table.slots) == KeySet(t.slots) + more
        else KeySet(r.table.slots) <= KeySet(t.slots) + more)
  }

  lemma KeysStored(slots: seq<Slot>, c: nat, k: Key, v: Data)
    requires c < |slots| && (slots[c].Used? ==> slots[c].key == k)
    ensures KeySet(slots[c := Used(k, v)]) == KeySet(slots) + {k}
  {
    var s := slots[c := Used(k, v)];
    assert s[c].key == k;
    forall x | x in KeySet(slots) ensures x in KeySet(s) {
      var p :| 0 <= p < |slots| && slots[p].Used? && slots[p].key == x;
      assert s[p].Used? && s[p].key == x;
    }
  }

  lemma StoreKeys(cfg: Config, t: Table, k: Key, v: Data)
    requires Shape(t) && Probe(cfg, t, k) < MAX_CHAIN
    ensures Keeps(cfg, t, {k}, Outcome(Store(cfg, t, k, v, Probe(cfg, t, k)), OK))
  {
    KeysStored(t.slots, At(Home(cfg, k, |t.slots|), Probe(cfg, t, k), |t.slots|), k, v);
  }

  lemma KeysFrom(slots: seq<Slot>, i: nat)
    requires i < |slots|
    ensures KeySet(slots[i..]) == KeySet(slots[i + 1..]) + if slots[i].Used? then {slots[i].key} else {}
  {
    var s, rest := slots[i..], slots[i + 1..];
    assert forall p :: 0 <= p < |rest| ==> rest[p] == s[p + 1];
    forall x | x in KeySet(rest) ensures x in KeySet(s) {
      var p :| 0 <= p < |rest| && rest[p].Used? && rest[p].key == x;
      assert s[p + 1].key == x;
    }
    forall x | x in KeySet(s) && (slots[i].Used? ==> x != slots[i].key) ensures x in KeySet(rest) {
      var p :| 0 <= p < |s| && s[p].Used? && s[p].key == x;
      assert rest[p - 1] == s[p];
    }
  }

  /** Of any table, a put that returns MAP_OK stores its key and keeps every other; one that returns MAP_OMEM, at
      any depth, may lose keys but adds none. */
  lemma {:induction false} PutKeys(cfg: Config, t: Table, k: Key, v: Data)
    requires Shape(t)
    ensures var r := Put(cfg, t, k, v);
      Keeps(cfg, t, if r.status == OK then {k} else {}, r)
    decreases Room(cfg, |t.slots|), 2, 0
  {
    if Probe(cfg, t, k) < MAX_CHAIN {
      StoreKeys(cfg, t, k, v);
    } else {
      RehashKeys(cfg, Noted(t));
      var r := Rehash(cfg, Noted(t));
      if r.status == OK {
        PutKeys(cfg, r.table, k, v);
      }
    }
  }

  /** A rehash that returns MAP_OK keeps exactly the keys, and one that returns MAP_OMEM adds none. */
  lemma {:induction false} RehashKeys(cfg: Config, t: Table)
    requires Shape(t)
    ensures Keeps(cfg, t, {}, Rehash(cfg, t))
    decreases Room(cfg, |t.slots|), 1, 0
  {
    if Granted(cfg, t.calls, 2 * |t.slots|) {
      MoveAllKeys(cfg, t.slots, Doubled(t), 0);
      assert t.slots[0..] == t.slots;
      assert KeySet(Doubled(t).slots) == {};
    }
  }

  lemma {:induction false} MoveAllKeys(cfg: Config, from: seq<Slot>, t: Table, i: nat)
    requires Shape(t) && i <= |from|
    ensures Keeps(cfg, t, KeySet(from[i..]), MoveAll(cfg, from, t, i))
    decreases Room(cfg, |t.slots|), 3, |from| - i
  {
    if i < |from| {
      KeysFrom(from, i);
      if from[i].Empty? {
        MoveAllKeys(cfg, from, t, i + 1);
      } else {
        PutKeys(cfg, t, from[i].key, from[i].data);
        var r := Put(cfg, t, from[i].key, from[i].data);
        if r.status == OK {
          MoveAllKeys(cfg, from, r.table, i + 1);
        }
      }
    }
  }

  // ---- At most eight keys with one full hash ----

  /** Distinct stored keys sit in distinct slots. */
  lemma {:induction false} SlotsOf(slots: seq<Slot>, ks: set<Key>) returns (ps: set<nat>)
    requires ks <= KeySet(slots)
    ensures |ps| == |ks|
    ensures forall p :: p in ps ==> p < |slots| && slots[p].Used? && slots[p].key in ks
    decreases |ks|
  {
    if ks == {} {
      ps := {};
    } else {
      var x :| x in ks;
      ps := SlotsOf(slots, ks - {x});
      var p :| 0 <= p < |slots| && slots[p].Used? && slots[p].key == x;
      ps := ps + {p};
    }
  }

  /** All of `ks` have the full hash of `k`. */
  ghost predicate Collide(cfg: Config, ks: set<Key>, k: Key) { forall x :: x in ks ==> cfg.hash(x) == cfg.hash(k) }

  /** At most eight of the stored keys share a full hash. */
  lemma AtMostEightColliders(cfg: Config, slots: seq<Slot>, k: Key, ks: set<Key>)
    requires |slots| >= MAX_CHAIN && Windowed(cfg, slots) && ks <= KeySet(slots) && Collide(cfg, ks, k)
    ensures |ks| <= MAX_CHAIN
  {
    var ps := SlotsOf(slots, ks);
    AtMostEightPerHome(cfg, slots, Home(cfg, k, |slots|), ps);
  }

  /** So in every table any run reaches, removes, duplicates and failed calls included: no call, whatever it
      returns, leaves nine distinct keys with one full hash. */
  lemma RunColliders(cfg: Config, ops: seq<Op>, k: Key, ks: set<Key>)
    requires ks <= KeySet(Run(cfg, New(), ops).0.slots) && Collide(cfg, ks, k)
    ensures |ks| <= MAX_CHAIN
  {
    RunSound(cfg, ops);
    AtMostEightColliders(cfg, Run(cfg, New(), ops).0.slots, k, ks);
  }

  /** Once eight keys with one full hash are stored, a ninth can never be, whatever else the table holds: put
      doubles the table until the allocator refuses and returns MAP_OMEM, whatever the cap. */
  lemma NinthCollider(cfg: Config, t: Table, k: Key, v: Data, ks: set<Key>)
    requires Shape(t) && Windowed(cfg, t.slots)
    requires |ks| == MAX_CHAIN && k !in ks && ks <= KeySet(t.slots) && Collide(cfg, ks, k)
    ensures Put(cfg, t, k, v).status == OMEM
  {
    PutKeys(cfg, t, k, v);
    var r := Put(cfg, t, k, v);
    if r.status == OK {
      AtMostEightColliders(cfg, r.table.slots, k, ks + {k});
    }
  }
}
