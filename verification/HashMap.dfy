/** The in-place hash map. Every method is proved to leave the table, and return the status, that the
    functions of HashTable.dfy give. */
module HashMap {
  import opened HashTable
  import Invariants = HashTableInvariants
  import opened HashTableKeys
  import opened HashTableLength

  /** The next slot in the cyclic order. */
  function Next(curr: nat, n: nat): (c: nat)
    requires curr < n
    ensures c == if curr + 1 == n then 0 else curr + 1
  {
    (curr + 1) % n
  }

  class Map {
    const cfg: Config
    var tableSize: nat
    var size: int
    var data: array<Slot>
    var calls: nat            // position in the allocator's answers
    ghost var overflows: nat  // full chains met below the load limit

    ghost predicate Valid()
      reads this
    {
      tableSize == data.Length && tableSize >= MAX_CHAIN
    }

    /** The value of the map that the specification functions work on. */
    ghost function View(): Table
      reads this, data
    {
      Table(data[..], size, calls, overflows)
    }

    constructor (cfg: Config)
      ensures Valid() && View() == New() && this.cfg == cfg && fresh(data)
      ensures tableSize == 256 && size == 0 && forall i :: 0 <= i < 256 ==> data[i] == Empty
    {
      this.cfg := cfg;
      data := new Slot[INITIAL_SIZE](_ => Empty);
      tableSize := INITIAL_SIZE;
      size := 0;
      calls := 0;
      overflows := 0;
    }

    method HashInt(key: Key) returns (home: nat)
      requires Valid()
      ensures home == Home(cfg, key, tableSize)
    {
      home := cfg.hash(key) % tableSize;
    }

    /** The slot to store `key` in; `full` is MAP_FULL. */
    method Hash(key: Key) returns (full: bool, index: nat)
      requires Valid()
      ensures full <==> Probe(cfg, View(), key) == MAX_CHAIN
      ensures !full ==> index == At(Home(cfg, key, tableSize), Probe(cfg, View(), key), tableSize)
    {
      if size >= tableSize / 2 {
        return true, 0;
      }
      var home := HashInt(key);
      var curr := home;
      for i := 0 to MAX_CHAIN
        invariant curr == At(home, i, tableSize)
        invariant ProbeFrom(data[..], key, home, 0) == ProbeFrom(data[..], key, home, i)
      {
        if data[curr].Empty? {
          return false, curr;
        }
        if data[curr].key == key {
          return false, curr;
        }
        curr := Next(curr, tableSize);
      }
      return true, 0;
    }

    /** Bookkeeping of the model only. */
    ghost method NoteOverflow()
      requires Valid()
      modifies this`overflows
      ensures View() == Noted(old(View()))
    {
      if size < tableSize / 2 {
        overflows := overflows + 1;
      }
    }

    method Rehash() returns (status: Status)
      requires Valid()
      modifies this
      ensures Valid() && (data == old(data) || fresh(data))
      ensures Outcome(View(), status) == HashTable.Rehash(cfg, old(View()))
      decreases Room(cfg, tableSize), 1, 0
    {
      var request := calls;
      calls := calls + 1;
      if !(cfg.grants(request) && 2 * tableSize <= cfg.cap) {
        return OMEM;
      }
      var temp := new Slot[2 * tableSize](_ => Empty);
      var curr := data;
      data := temp;
      var oldSize := tableSize;
      tableSize := 2 * tableSize;
      size := 0;
      assert View() == Doubled(old(View()));
      for i := 0 to oldSize
        invariant Valid() && fresh(data) && tableSize >= 2 * oldSize
        invariant curr[..] == old(data[..])
        invariant MoveAll(cfg, curr[..], View(), i) == HashTable.Rehash(cfg, old(View()))
      {
        if curr[i].Empty? {
          continue;
        }
        status := Put(curr[i].key, curr[i].data);
        if status != OK {
          return;
        }
      }
      return OK;
    }

    method Put(key: Key, value: Data) returns (status: Status)
      requires Valid()
      modifies this, data
      ensures Valid() && (data == old(data) || fresh(data))
      ensures Outcome(View(), status) == HashTable.Put(cfg, old(View()), key, value)
      decreases Room(cfg, tableSize), 2, 0
    {
      ghost var goal := HashTable.Put(cfg, View(), key, value);
      var full, index := Hash(key);
      while full
        invariant Valid() && (data == old(data) || fresh(data))
        invariant full <==> Probe(cfg, View(), key) == MAX_CHAIN
        invariant !full ==> index == At(Home(cfg, key, tableSize), Probe(cfg, View(), key), tableSize)
        invariant HashTable.Put(cfg, View(), key, value) == goal
        invariant Room(cfg, tableSize) <= Room(cfg, old(tableSize))
        decreases Room(cfg, tableSize)
      {
        NoteOverflow();
        var s := Rehash();
        assert goal == if s == OMEM then Outcome(View(), s) else HashTable.Put(cfg, View(), key, value);
        if s == OMEM {
          return OMEM;
        }
        full, index := Hash(key);
      }
      ghost var before := View();
      data[index] := Used(key, value);
      size := size + 1;
      assert View() == Store(cfg, before, key, value, Probe(cfg, before, key));
      return OK;
    }

    method Get(key: Key) returns (status: Status, arg: Data)
      requires Valid()
      ensures Reply(status, arg) == HashTable.Get(cfg, View(), key)
    {
      var home := HashInt(key);
      var curr := home;
      for i := 0 to MAX_CHAIN
        invariant curr == At(home, i, tableSize)
        invariant FindFrom(data[..], key, home, 0) == FindFrom(data[..], key, home, i)
      {
        if data[curr].Used? && data[curr].key == key {
          return OK, data[curr].data;
        }
        curr := Next(curr, tableSize);
      }
      return MISSING, NULL;
    }

    method Remove(key: Key) returns (status: Status)
      requires Valid()
      modifies this, data
      ensures Valid() && data == old(data)
      ensures Outcome(View(), status) == HashTable.Remove(cfg, old(View()), key)
    {
      var home := HashInt(key);
      var curr := home;
      for i := 0 to MAX_CHAIN
        invariant curr == At(home, i, tableSize) && View() == old(View())
        invariant FindFrom(data[..], key, home, 0) == FindFrom(data[..], key, home, i)
      {
        if data[curr].Used? && data[curr].key == key {
          data[curr] := Empty;
          size := size - 1;
          return OK;
        }
        curr := Next(curr, tableSize);
      }
      return MISSING;
    }

    /** `size`: in every table a run reaches, at least the number of distinct keys. */
    method Length() returns (n: int)
      requires Valid()
      ensures n == size
      ensures Invariants.Sound(cfg, View()) ==>
        |KeySet(data[..])| <= Invariants.Occupied(data[..]) <= n <= tableSize / 2
    {
      OccupiedKeys(data[..]);
      n := size;
    }
  }
}
