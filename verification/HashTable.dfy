/** The open-addressing table of the key-value server as a value: what one call of put, rehash, get
    and remove computes. The class in HashMap.dfy updates its fields in place and is proved to compute
    exactly these functions; HashTableInvariants.dfy and HashTableRefinement.dfy prove what they mean. */
module HashTable {

  /** A NUL-terminated key string, compared by its characters as strcmp does. */
  datatype Key = Key(text: string)

  /** The stored `any_t` pointer; 0 is NULL. */
  type Data = nat
  const NULL: Data := 0

  /** `in_use == 0` slots always have NULL key and data (calloc, and the blanking in remove). */
  datatype Slot = Empty | Used(key: Key, data: Data)

  /** MAP_OK, MAP_OMEM and MAP_MISSING; MAP_FULL never leaves the probe and is the offset MAX_CHAIN. */
  datatype Status = OK | OMEM | MISSING

  const INITIAL_SIZE: nat := 256
  const MAX_CHAIN: nat := 8

  /** The full hash before reduction by the table size, and the allocator: request number `c` for `n`
      slots is granted iff `grants(c)` and `n <= cap`. */
  datatype Config = Config(hash: Key -> nat, cap: nat, grants: nat -> bool)

  predicate Granted(cfg: Config, call: nat, n: nat) { cfg.grants(call) && n <= cfg.cap }

  /** `calls` numbers the allocator requests made so far. `overflows` counts the probes that found a
      full chain below the load limit; the program does not keep it, the growth bound speaks of it. */
  datatype Table = Table(slots: seq<Slot>, size: int, calls: nat, overflows: nat)

  datatype Outcome = Outcome(table: Table, status: Status)

  ghost predicate Shape(t: Table) { |t.slots| >= MAX_CHAIN }

  function EmptySlots(n: nat): (s: seq<Slot>)
    ensures |s| == n && forall p :: 0 <= p < n ==> s[p] == Empty
  {
    seq(n, _ => Empty)
  }

  function New(): Table { Table(EmptySlots(INITIAL_SIZE), 0, 0, 0) }

  function Home(cfg: Config, k: Key, n: nat): (h: nat)
    requires n > 0
    ensures h < n
  {
    cfg.hash(k) % n
  }

  /** The slot `i` steps after `home`, cyclically. */
  function At(home: nat, i: nat, n: nat): (p: nat)
    requires home < n && i <= MAX_CHAIN <= n
    ensures p < n
  {
    if home + i < n then home + i else home + i - n
  }

  /** How many steps after `home` slot `p` lies, cyclically. */
  function Offset(home: nat, p: nat, n: nat): (i: nat)
    requires home < n && p < n
    ensures i < n
    ensures i <= MAX_CHAIN <= n ==> At(home, i, n) == p
  {
    if p >= home then p - home else p + n - home
  }

  /** First offset from `i` on whose slot is free or holds `k`; MAX_CHAIN if there is none. */
  function ProbeFrom(slots: seq<Slot>, k: Key, home: nat, i: nat): (r: nat)
    requires home < |slots| && i <= MAX_CHAIN <= |slots|
    ensures i <= r <= MAX_CHAIN
    ensures forall j :: i <= j < r ==> slots[At(home, j, |slots|)].Used? && slots[At(home, j, |slots|)].key != k
    ensures r < MAX_CHAIN ==> slots[At(home, r, |slots|)].Empty? || slots[At(home, r, |slots|)].key == k
    decreases MAX_CHAIN - i
  {
    if i == MAX_CHAIN then i
    else
      var s := slots[At(home, i, |slots|)];
      if s.Empty? || s.key == k then i else ProbeFrom(slots, k, home, i + 1)
  }

  /** First offset from `i` on whose slot holds `k`, holes skipped; MAX_CHAIN if there is none. */
  function FindFrom(slots: seq<Slot>, k: Key, home: nat, i: nat): (r: nat)
    requires home < |slots| && i <= MAX_CHAIN <= |slots|
    ensures i <= r <= MAX_CHAIN
    ensures forall j :: i <= j < r ==> slots[At(home, j, |slots|)].Empty? || slots[At(home, j, |slots|)].key != k
    ensures r < MAX_CHAIN ==> slots[At(home, r, |slots|)].Used? && slots[At(home, r, |slots|)].key == k
    decreases MAX_CHAIN - i
  {
    if i == MAX_CHAIN then i
    else
      var s := slots[At(home, i, |slots|)];
      if s.Used? && s.key == k then i else FindFrom(slots, k, home, i + 1)
  }

  predicate Loaded(t: Table) { t.size >= |t.slots| / 2 }

  function Probe(cfg: Config, t: Table, k: Key): (r: nat)
    requires Shape(t)
    ensures r <= MAX_CHAIN
  {
    if Loaded(t) then MAX_CHAIN else ProbeFrom(t.slots, k, Home(cfg, k, |t.slots|), 0)
  }

  function Find(cfg: Config, t: Table, k: Key): (r: nat)
    requires Shape(t)
    ensures r <= MAX_CHAIN
  {
    FindFrom(t.slots, k, Home(cfg, k, |t.slots|), 0)
  }

  function Store(cfg: Config, t: Table, k: Key, v: Data, i: nat): Table
    requires Shape(t) && i < MAX_CHAIN
  {
    var c := At(Home(cfg, k, |t.slots|), i, |t.slots|);
    t.(slots := t.slots[c := Used(k, v)], size := t.size + 1)
  }

  function Noted(t: Table): Table {
    if Loaded(t) then t else t.(overflows := t.overflows + 1)
  }

  /** Slots the allocator could still grant beyond `n`: what the recursion runs down. */
  ghost function Room(cfg: Config, n: nat): nat { if n <= cfg.cap then cfg.cap - n else 0 }

  function Put(cfg: Config, t: Table, k: Key, v: Data): (r: Outcome)
    requires Shape(t)
    ensures |r.table.slots| >= |t.slots| && r.status != MISSING
    decreases Room(cfg, |t.slots|), 2, 0
  {
    var i := Probe(cfg, t, k);
    if i < MAX_CHAIN then Outcome(Store(cfg, t, k, v, i), OK)
    else
      var r := Rehash(cfg, Noted(t));
      if r.status == OMEM then r else Put(cfg, r.table, k, v)
  }

  function Rehash(cfg: Config, t: Table): (r: Outcome)
    requires Shape(t)
    ensures |r.table.slots| >= |t.slots| && r.status != MISSING
    ensures r.status == OK ==> |r.table.slots| >= 2 * |t.slots| && 2 * |t.slots| <= cfg.cap
    decreases Room(cfg, |t.slots|), 1, 0
  {
    if !Granted(cfg, t.calls, 2 * |t.slots|) then Outcome(t.(calls := t.calls + 1), OMEM)
    else MoveAll(cfg, t.slots, Doubled(t), 0)
  }

  /** The fresh table a rehash of `t` starts to fill. */
  function Doubled(t: Table): Table {
    Table(EmptySlots(2 * |t.slots|), 0, t.calls + 1, t.overflows)
  }

  function MoveAll(cfg: Config, from: seq<Slot>, t: Table, i: nat): (r: Outcome)
    requires Shape(t) && i <= |from|
    ensures |r.table.slots| >= |t.slots| && r.status != MISSING
    decreases Room(cfg, |t.slots|), 3, |from| - i
  {
    if i == |from| then Outcome(t, OK)
    else if from[i].Empty? then MoveAll(cfg, from, t, i + 1)
    else
      var r := Put(cfg, t, from[i].key, from[i].data);
      if r.status != OK then r else MoveAll(cfg, from, r.table, i + 1)
  }

  datatype Reply = Reply(status: Status, arg: Data)

  function Get(cfg: Config, t: Table, k: Key): Reply
    requires Shape(t)
  {
    var i := Find(cfg, t, k);
    if i < MAX_CHAIN then Reply(OK, t.slots[At(Home(cfg, k, |t.slots|), i, |t.slots|)].data)
    else Reply(MISSING, NULL)
  }

  function Remove(cfg: Config, t: Table, k: Key): (r: Outcome)
    requires Shape(t)
    ensures |r.table.slots| == |t.slots|
  {
    var i := Find(cfg, t, k);
    if i < MAX_CHAIN then
      Outcome(t.(slots := t.slots[At(Home(cfg, k, |t.slots|), i, |t.slots|) := Empty], size := t.size - 1), OK)
    else Outcome(t, MISSING)
  }
}
