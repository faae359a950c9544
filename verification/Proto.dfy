/** The packed table of Internet protocols and its cursor. */
module Proto {

  /** A table record: a number, stored as one character, a name without NUL, and a NUL. */
  datatype Record = Record(number: char, name: string)

  predicate Named(r: Record) { '\0' !in r.name }

  function Packed(r: Record): string { [r.number] + r.name + ['\0'] }

  /** Where record `k` starts. */
  function Offset(rs: seq<Record>, k: nat): nat
    requires k <= |rs|
  {
    if k == 0 then 0 else Offset(rs, k - 1) + |rs[k - 1].name| + 2
  }

  /** The first `k` records of a table, packed. */
  function Encode(rs: seq<Record>, k: nat): (s: string)
    requires k <= |rs|
    ensures |s| == Offset(rs, k)
  {
    if k == 0 then [] else Encode(rs, k - 1) + Packed(rs[k - 1])
  }

  /** strlen at `i`, up to the end of the table. */
  function Strlen(bytes: string, i: nat): (n: nat)
    requires i <= |bytes|
    ensures i + n <= |bytes|
    decreases |bytes| - i
  {
    if i == |bytes| || bytes[i] == '\0' then 0 else 1 + Strlen(bytes, i + 1)
  }

  lemma {:induction false} StrlenAt(bytes: string, i: nat, n: nat)
    requires i + n < |bytes| && bytes[i + n] == '\0' && forall j :: i <= j < i + n ==> bytes[j] != '\0'
    ensures Strlen(bytes, i) == n
    decreases n
  {
    if n > 0 {
      StrlenAt(bytes, i + 1, n - 1);
    }
  }

  /** Record `r` is packed at offset `i`. */
  ghost predicate PackedAt(bytes: string, i: nat, r: Record) {
    && i + |r.name| + 2 <= |bytes|
    && bytes[i] == r.number && bytes[i + |r.name| + 1] == '\0'
    && bytes[i + 1..i + 1 + |r.name|] == r.name
  }

  lemma PackedAfter(s: string, r: Record)
    ensures PackedAt(s + Packed(r), |s|, r)
  {
  }

  lemma PackedBefore(s: string, more: string, i: nat, r: Record)
    requires PackedAt(s, i, r)
    ensures PackedAt(s + more, i, r)
  {
  }

  /** Record `k` sits between its two boundaries. */
  lemma {:induction false} RecordAt(rs: seq<Record>, k: nat, n: nat)
    requires k < n <= |rs|
    ensures PackedAt(Encode(rs, n), Offset(rs, k), rs[k])
    decreases n
  {
    if k == n - 1 {
      PackedAfter(Encode(rs, k), rs[k]);
    } else {
      RecordAt(rs, k, n - 1);
      PackedBefore(Encode(rs, n - 1), Packed(rs[n - 1]), Offset(rs, k), rs[k]);
    }
  }

  /** Where a record is packed, strlen finds the end of its name. */
  lemma LengthAt(bytes: string, i: nat, r: Record)
    requires Named(r) && PackedAt(bytes, i, r)
    ensures Strlen(bytes, i + 1) == |r.name|
  {
    var name := bytes[i + 1..i + 1 + |r.name|];
    forall j | i + 1 <= j < i + 1 + |r.name| ensures bytes[j] != '\0' {
      assert bytes[j] == name[j - i - 1];
    }
    StrlenAt(bytes, i + 1, |r.name|);
  }

  /** Reading at offset `i` gives record `r`. */
  ghost predicate ReadsAs(bytes: string, i: nat, r: Record) {
    && i + |r.name| + 2 <= |bytes|
    && bytes[i] == r.number && Strlen(bytes, i + 1) == |r.name| && bytes[i + 1..i + 1 + |r.name|] == r.name
  }

  lemma ReadAt(bytes: string, i: nat, r: Record)
    requires Named(r) && PackedAt(bytes, i, r)
    ensures ReadsAs(bytes, i, r)
  {
    LengthAt(bytes, i, r);
  }

  /** Record `k` is packed at the k-th boundary. */
  ghost predicate LaidAt(bytes: string, rs: seq<Record>, k: nat)
    requires k < |rs|
  {
    Named(rs[k]) && PackedAt(bytes, Offset(rs, k), rs[k])
  }

  /** `bytes` is the packed table of `rs`. */
  ghost predicate Laid(bytes: string, rs: seq<Record>) {
    |bytes| == Offset(rs, |rs|) && forall k :: 0 <= k < |rs| ==> LaidAt(bytes, rs, k)
  }

  /** Encoding lays out every record. */
  lemma EncodeLaid(rs: seq<Record>)
    requires forall k :: 0 <= k < |rs| ==> Named(rs[k])
    ensures Laid(Encode(rs, |rs|), rs)
  {
    forall k | 0 <= k < |rs| ensures LaidAt(Encode(rs, |rs|), rs, k) {
      RecordAt(rs, k, |rs|);
    }
  }

  /** The cursor is at the end of the table exactly when all records were passed. */
  lemma {:induction false} Boundary(rs: seq<Record>, k: nat)
    requires k <= |rs|
    ensures if k == |rs| then Offset(rs, k) == Offset(rs, |rs|) else Offset(rs, k) < Offset(rs, |rs|)
    decreases |rs| - k
  {
    if k < |rs| {
      Boundary(rs, k + 1);
    }
  }

  /** All records from offset `i` on, read as `getprotoent` reads them. */
  function Decode(bytes: string, i: nat): seq<Record>
    decreases |bytes| - i
  {
    if i >= |bytes| then []
    else
      var n := Strlen(bytes, i + 1);
      [Record(bytes[i], bytes[i + 1..i + 1 + n])] + Decode(bytes, i + n + 2)
  }

  lemma DecodeStep(bytes: string, i: nat, r: Record, next: nat)
    requires Named(r) && PackedAt(bytes, i, r) && next == i + |r.name| + 2
    ensures Decode(bytes, i) == [r] + Decode(bytes, next)
  {
    ReadAt(bytes, i, r);
  }

  lemma DecodeRecord(bytes: string, rs: seq<Record>, k: nat)
    requires k < |rs| && LaidAt(bytes, rs, k)
    ensures Decode(bytes, Offset(rs, k)) == [rs[k]] + Decode(bytes, Offset(rs, k + 1))
  {
    DecodeStep(bytes, Offset(rs, k), rs[k], Offset(rs, k + 1));
  }

  lemma Prepend<T>(d: seq<T>, rest: seq<T>, s: seq<T>, k: nat)
    requires k < |s| && d == [s[k]] + rest && rest == s[k + 1..]
    ensures d == s[k..]
  {
  }

  /** From every record boundary on, a well-formed table reads as the rest of its records. */
  lemma {:induction false} DecodeLaid(bytes: string, rs: seq<Record>, k: nat)
    requires k <= |rs| && Laid(bytes, rs)
    ensures Decode(bytes, Offset(rs, k)) == rs[k..]
    decreases |rs| - k
  {
    if k < |rs| {
      DecodeLaid(bytes, rs, k + 1);
      DecodeRecord(bytes, rs, k);
      Prepend(Decode(bytes, Offset(rs, k)), Decode(bytes, Offset(rs, k + 1)), rs, k);
    }
  }

  /** Decoding undoes encoding. */
  lemma DecodeEncode(rs: seq<Record>)
    requires forall k :: 0 <= k < |rs| ==> Named(rs[k])
    ensures Decode(Encode(rs, |rs|), 0) == rs
  {
    EncodeLaid(rs);
    DecodeLaid(Encode(rs, |rs|), rs, 0);
  }

  /** What `getprotoent` returns: NULL, or the static record filled in. */
  datatype Entry = Null | Entry(proto: int, name: string)

  function EntryOf(r: Record): Entry { Entry(r.number as int, r.name) }

  /** The first record from `k` on that satisfies `p`, or NULL, and where the cursor is then. */
  ghost predicate FirstMatch(rs: seq<Record>, p: Record -> bool, e: Entry, next: nat) {
    if e.Null? then next == |rs| && forall j :: 0 <= j < |rs| ==> !p(rs[j])
    else
      && 0 < next <= |rs| && p(rs[next - 1]) && e == EntryOf(rs[next - 1])
      && forall j :: 0 <= j < next - 1 ==> !p(rs[j])
  }

  class Protocols {
    const bytes: string
    ghost const records: seq<Record>
    var idx: nat
    ghost var next: nat  // the record the cursor stands before

    /** The table is well formed and the cursor is on a record boundary, or exactly at the end. */
    ghost predicate Valid()
      reads this
    {
      && Laid(bytes, records)
      && next <= |records| && idx == Offset(records, next)
    }

    constructor (bytes: string, ghost records: seq<Record>)
      requires bytes == Encode(records, |records|) && forall k :: 0 <= k < |records| ==> Named(records[k])
      ensures Valid() && this.records == records && next == 0
    {
      this.bytes, this.records, idx, next := bytes, records, 0, 0;
      EncodeLaid(records);
    }

    method EndProtoEnt()
      requires Valid()
      modifies this
      ensures Valid() && next == 0
    {
      idx, next := 0, 0;
    }

    /** The next record in order, then NULL for ever. */
    method GetProtoEnt() returns (p: Entry)
      requires Valid()
      modifies this
      ensures Valid()
      ensures if old(next) < |records|
              then p == Entry(records[old(next)].number as int, records[old(next)].name) && next == old(next) + 1
              else p == Null && next == old(next)
    {
      Boundary(records, next);
      if idx >= |bytes| {
        return Null;
      }
      assert LaidAt(bytes, records, next);
      ReadAt(bytes, idx, records[next]);
      var n := Strlen(bytes, idx + 1);
      p := Entry(bytes[idx] as int, bytes[idx + 1..idx + 1 + n]);
      idx, next := idx + n + 2, next + 1;
    }

    /** The first record with that name, whatever the cursor was before; iteration goes on after it. */
    method GetProtoByName(name: string) returns (p: Entry)
      requires Valid()
      modifies this
      ensures Valid() && FirstMatch(records, (r: Record) => r.name == name, p, next)
      ensures p == Null ==> forall j :: 0 <= j < |records| ==> records[j].name != name
      ensures p != Null ==>
        && 0 < next <= |records| && records[next - 1].name == name
        && p == Entry(records[next - 1].number as int, name)
        && forall j :: 0 <= j < next - 1 ==> records[j].name != name
    {
      EndProtoEnt();
      p := GetProtoEnt();
      while p != Null && p.name != name
        invariant Valid() && (p == Null ==> next == |records|)
        invariant p != Null ==> 0 < next && p == EntryOf(records[next - 1])
        invariant forall j :: 0 <= j < next - (if p == Null then 0 else 1) ==> records[j].name != name
        decreases |records| - next, p != Null
      {
        p := GetProtoEnt();
      }
    }

    /** The first record with that number. */
    method GetProtoByNumber(num: int) returns (p: Entry)
      requires Valid()
      modifies this
      ensures Valid() && FirstMatch(records, (r: Record) => r.number as int == num, p, next)
      ensures p == Null ==> forall j :: 0 <= j < |records| ==> records[j].number as int != num
      ensures p != Null ==>
        && 0 < next <= |records| && records[next - 1].number as int == num && p == Entry(num, records[next - 1].name)
        && forall j :: 0 <= j < next - 1 ==> records[j].number as int != num
    {
      EndProtoEnt();
      p := GetProtoEnt();
      while p != Null && p.proto != num
        invariant Valid() && (p == Null ==> next == |records|)
        invariant p != Null ==> 0 < next && p == EntryOf(records[next - 1])
        invariant forall j :: 0 <= j < next - (if p == Null then 0 else 1) ==> records[j].number as int != num
        decreases |records| - next, p != Null
      {
        p := GetProtoEnt();
      }
    }
  }

  /** The protocols the program knows. */
  const PROTOS: seq<Record> := [
    Record('\U{00}', "ip"), Record('\U{01}', "icmp"), Record('\U{02}', "igmp"),
    Record('\U{03}', "ggp"), Record('\U{04}', "ipencap"), Record('\U{05}', "st"),
    Record('\U{06}', "tcp"), Record('\U{08}', "egp"), Record('\U{0c}', "pup"),
    Record('\U{11}', "udp"), Record('\U{14}', "hmp"), Record('\U{16}', "xns-idp"),
    Record('\U{1b}', "rdp"), Record('\U{1d}', "iso-tp4"), Record('\U{24}', "xtp"),
    Record('\U{25}', "ddp"), Record('\U{26}', "idpr-cmtp"), Record('\U{29}', "ipv6"),
    Record('\U{2b}', "ipv6-route"), Record('\U{2c}', "ipv6-frag"), Record('\U{2d}', "idrp"),
    Record('\U{2e}', "rsvp"), Record('\U{2f}', "gre"), Record('\U{32}', "esp"),
    Record('\U{33}', "ah"), Record('\U{39}', "skip"), Record('\U{3a}', "ipv6-icmp"),
    Record('\U{3b}', "ipv6-nonxt"), Record('\U{3c}', "ipv6-opts"), Record('\U{49}', "rspf"),
    Record('\U{51}', "vmtp"), Record('\U{59}', "ospf"), Record('\U{5e}', "ipip"),
    Record('\U{62}', "encap"), Record('\U{67}', "pim"), Record('\U{ff}', "raw")
  ]

  /** The string literals the program's table is made of, in order; the compiler joins them and adds a NUL. */
  const LITERALS: seq<string> := [
    "\U{00}ip\0", "\U{01}icmp\0", "\U{02}igmp\0", "\U{03}ggp\0",
    "\U{04}ipencap\0", "\U{05}st\0", "\U{06}tcp\0", "\U{08}egp\0",
    "\U{0c}pup\0", "\U{11}udp\0", "\U{14}hmp\0", "\U{16}xns-idp\0",
    "\U{1b}rdp\0", "\U{1d}iso-tp4\0", "\U{24}xtp\0", "\U{25}ddp\0",
    "\U{26}idpr-cmtp\0", "\U{29}ipv6\0", "\U{2b}ipv6-route\0", "\U{2c}ipv6-frag\0",
    "\U{2d}idrp\0", "\U{2e}rsvp\0", "\U{2f}gre\0", "\U{32}esp\0",
    "\U{33}ah\0", "\U{39}skip\0", "\U{3a}ipv6-icmp\0", "\U{3b}ipv6-nonxt\0",
    "\U{3c}ipv6-opts\0", "\U{49}rspf\0", "\U{51}vmtp\0", "\U{59}ospf\0",
    "\U{5e}ipip\0", "\U{62}encap\0", "\U{67}pim\0", "\U{ff}raw"
  ]

  function Joined(k: nat): string
    requires k <= |LITERALS|
  {
    if k == 0 then [] else Joined(k - 1) + LITERALS[k - 1]
  }

  /** The program's own table, byte by byte. */
  function ProtosBytes(): string { Joined(|LITERALS|) + ['\0'] }

  /** Literal `k` is record `k`. */
  predicate LiteralIs(k: nat)
    requires k < |PROTOS| - 1
  {
    LITERALS[k] == Packed(PROTOS[k])
  }

  lemma Literals0(k: nat)
    requires 0 <= k < 7
    ensures LiteralIs(k)
  {
  }

  lemma Literals7(k: nat)
    requires 7 <= k < 14
    ensures LiteralIs(k)
  {
  }

  lemma Literals14(k: nat)
    requires 14 <= k < 21
    ensures LiteralIs(k)
  {
  }

  lemma Literals21(k: nat)
    requires 21 <= k < 28
    ensures LiteralIs(k)
  {
  }

  lemma Literals28(k: nat)
    requires 28 <= k < 35
    ensures LiteralIs(k)
  {
  }

  lemma LiteralsAre(k: nat)
    requires k < |PROTOS| - 1
    ensures LiteralIs(k)
  {
    if
    case 0 <= k < 7 => Literals0(k);
    case 7 <= k < 14 => Literals7(k);
    case 14 <= k < 21 => Literals14(k);
    case 21 <= k < 28 => Literals21(k);
    case 28 <= k < 35 => Literals28(k);
  }

  lemma Named0(k: nat)
    requires 0 <= k < 12
    ensures Named(PROTOS[k])
  {
  }

  lemma Named12(k: nat)
    requires 12 <= k < 24
    ensures Named(PROTOS[k])
  {
  }

  lemma Named24(k: nat)
    requires 24 <= k < 36
    ensures Named(PROTOS[k])
  {
  }

  lemma ProtosNamed(k: nat)
    requires k < |PROTOS|
    ensures Named(PROTOS[k])
  {
    if
    case 0 <= k < 12 => Named0(k);
    case 12 <= k < 24 => Named12(k);
    case 24 <= k < 36 => Named24(k);
  }

  lemma {:induction false} JoinedIs(k: nat)
    requires k < |PROTOS|
    ensures Joined(k) == Encode(PROTOS, k)
  {
    if k > 0 {
      JoinedIs(k - 1);
      LiteralsAre(k - 1);
    }
  }

  /** The last literal lacks its NUL; the one the compiler adds completes it. */
  lemma JoinedLast(n: nat)
    requires n + 1 == |PROTOS|
    ensures Joined(n + 1) + ['\0'] == Encode(PROTOS, n + 1)
  {
    JoinedIs(n);
    assert LITERALS[n] + ['\0'] == Packed(PROTOS[n]);
    assert Joined(n) + LITERALS[n] + ['\0'] == Joined(n) + (LITERALS[n] + ['\0']);
  }

  /** The program's own bytes are a well-formed table, so all of the above holds of it. */
  lemma ProtosLaid()
    ensures Laid(ProtosBytes(), PROTOS)
  {
    forall k | 0 <= k < |PROTOS| ensures Named(PROTOS[k]) {
      ProtosNamed(k);
    }
    EncodeLaid(PROTOS);
    JoinedLast(|PROTOS| - 1);
  }

  /** They read as these 36 records. */
  lemma ProtosDecode()
    ensures Decode(ProtosBytes(), 0) == PROTOS
  {
    ProtosLaid();
    DecodeLaid(ProtosBytes(), PROTOS, 0);
  }
}
