/** The network device driver under lwIP: copying a pbuf chain into one netbuf for transmission, and handing
    received netbufs up. Netbufs change hands exactly once. */
module NetDev {
  import opened Basics

  type Id = nat

  /** The two bytes lwIP keeps in front of an Ethernet header. */
  const ETH_PAD_SIZE: int := 2

  datatype Err = ERR_OK | ERR_MEM | ERR_IF | ERR_OTHER

  // ---- pbuf chains ----

  /** A segment: `len` bytes of `room` from `start` on. */
  class Pbuf {
    const room: seq<Byte>
    var start: nat
    var len: nat
    var totLen: nat
    var next: Pbuf?

    constructor (room: seq<Byte>, start: nat, len: nat, totLen: nat, next: Pbuf?)
      requires start + len <= |room|
      ensures this.room == room && this.start == start && this.len == len && this.totLen == totLen && this.next == next
    {
      this.room, this.start, this.len, this.totLen, this.next := room, start, len, totLen, next;
    }

    ghost predicate Sound()
      reads this
    {
      start + len <= |room|
    }

    ghost predicate Holds(bytes: seq<Byte>, successor: Pbuf?)
      reads this
    {
      Sound() && Payload() == bytes && next == successor
    }

    function Payload(): seq<Byte>
      requires Sound()
      reads this
    {
      room[start..start + len]
    }

    /** pbuf_header: moves the start of the payload by `delta` bytes towards the front of its room. */
    method Header(delta: int) returns (failed: bool)
      requires Sound() && totLen >= len
      modifies this`start, this`len, this`totLen
      ensures Sound()
      ensures failed <==> (if delta < 0 then -delta > old(len) else delta > old(start))
      ensures if failed then start == old(start) && len == old(len) && totLen == old(totLen)
              else start == old(start) - delta && len == old(len) + delta && totLen == old(totLen) + delta
    {
      if delta < 0 {
        if -delta > len {
          return true;
        }
      } else if delta > start {
        return true;
      }
      start, len, totLen := start - delta, len + delta, totLen + delta;
      return false;
    }
  }

  function Link(chain: seq<Pbuf>, k: nat): Pbuf? { if k < |chain| then chain[k] else null }

  /** `chain` lists the segments from `p` on, each once, to the end of the packet; `parts` their bytes. */
  ghost predicate IsChain(p: Pbuf?, chain: seq<Pbuf>, parts: seq<seq<Byte>>)
    reads chain
  {
    && p == Link(chain, 0) && |parts| == |chain|
    && (forall i :: 0 <= i < |chain| ==> chain[i].Holds(parts[i], Link(chain, i + 1)))
    && (forall i, j :: 0 <= i < j < |chain| ==> chain[i] != chain[j])
  }

  /** The bytes from segment `k` on. */
  function Flat(parts: seq<seq<Byte>>, k: nat): seq<Byte>
    requires k <= |parts|
    decreases |parts| - k
  {
    if k == |parts| then [] else parts[k] + Flat(parts, k + 1)
  }

  lemma {:induction false} FlatUpdate(parts: seq<seq<Byte>>, x: seq<Byte>, k: nat)
    requires 1 <= k <= |parts|
    ensures Flat(parts[0 := x], k) == Flat(parts, k)
    decreases |parts| - k
  {
    if k < |parts| {
      FlatUpdate(parts, x, k + 1);
    }
  }

  /** Where segment `k` starts in the packet: the lengths of those before it. */
  function StartOf(parts: seq<seq<Byte>>, k: nat): nat
    requires k <= |parts|
  {
    if k == 0 then 0 else StartOf(parts, k - 1) + |parts[k - 1]|
  }

  lemma {:induction false} FlatLength(parts: seq<seq<Byte>>, k: nat)
    requires k <= |parts|
    ensures StartOf(parts, k) + |Flat(parts, k)| == StartOf(parts, |parts|)
    decreases |parts| - k
  {
    if k < |parts| {
      FlatLength(parts, k + 1);
    }
  }

  lemma {:induction false} FlatFrom(parts: seq<seq<Byte>>, k: nat, m: nat, j: nat)
    requires k <= m < |parts| && j < |parts[m]|
    ensures 0 <= StartOf(parts, m) - StartOf(parts, k) + j < |Flat(parts, k)|
    ensures Flat(parts, k)[StartOf(parts, m) - StartOf(parts, k) + j] == parts[m][j]
    decreases m - k
  {
    if k < m {
      FlatFrom(parts, k + 1, m, j);
    }
  }

  /** Byte `j` of segment `k` of a packet is `j` bytes behind all segments before it, and there are no other bytes. */
  lemma FlatIs(parts: seq<seq<Byte>>, k: nat, j: nat)
    requires k < |parts| && j < |parts[k]|
    ensures |Flat(parts, 0)| == StartOf(parts, |parts|)
    ensures StartOf(parts, k) + j < |Flat(parts, 0)| && Flat(parts, 0)[StartOf(parts, k) + j] == parts[k][j]
  {
    FlatLength(parts, 0);
    FlatFrom(parts, 0, k, j);
  }

  /** `b` with `src` written at `at`. */
  function Spliced(b: seq<Byte>, at: nat, src: seq<Byte>): (r: seq<Byte>)
    requires at + |src| <= |b|
    ensures |r| == |b|
  {
    seq(|b|, i requires 0 <= i < |b| => if at <= i < at + |src| then src[i - at] else b[i])
  }

  lemma SplicedTwice(b: seq<Byte>, at: nat, done: seq<Byte>, src: seq<Byte>)
    requires at + |done| + |src| <= |b|
    ensures Spliced(Spliced(b, at, done), at + |done|, src) == Spliced(b, at, done + src)
  {
  }

  /** `b` with the segments from `k` on written at `at`, one after another. */
  function Written(b: seq<Byte>, at: nat, parts: seq<seq<Byte>>, k: nat): seq<Byte>
    requires k <= |parts| && at + |Flat(parts, k)| <= |b|
    decreases |parts| - k
  {
    if k == |parts| then b else Written(Spliced(b, at, parts[k]), at + |parts[k]|, parts, k + 1)
  }

  lemma WrittenStep(b: seq<Byte>, at: nat, parts: seq<seq<Byte>>, k: nat)
    requires k < |parts| && at + |Flat(parts, k)| <= |b|
    ensures at + |parts[k]| + |Flat(parts, k + 1)| <= |b|
    ensures Written(b, at, parts, k) == Written(Spliced(b, at, parts[k]), at + |parts[k]|, parts, k + 1)
  {
  }

  lemma {:induction false} WrittenIsSpliced(b: seq<Byte>, at: nat, parts: seq<seq<Byte>>, k: nat)
    requires k <= |parts| && at + |Flat(parts, k)| <= |b|
    ensures Written(b, at, parts, k) == Spliced(b, at, Flat(parts, k))
    decreases |parts| - k
  {
    if k < |parts| {
      WrittenIsSpliced(Spliced(b, at, parts[k]), at + |parts[k]|, parts, k + 1);
      SplicedTwice(b, at, parts[k], Flat(parts, k + 1));
    }
  }

  method Memcpy(buf: array<Byte>, at: nat, src: seq<Byte>)
    requires at + |src| <= buf.Length
    modifies buf
    ensures buf[..] == Spliced(old(buf[..]), at, src)
    ensures forall i :: at <= i < at + |src| ==> buf[i] == src[i - at]
    ensures forall i :: 0 <= i < buf.Length && !(at <= i < at + |src|) ==> buf[i] == old(buf[i])
  {
    forall k | 0 <= k < |src| {
      buf[at + k] := src[k];
    }
  }

  lemma SplicedMeans(b: seq<Byte>, at: nat, src: seq<Byte>)
    requires at + |src| <= |b|
    ensures var r := Spliced(b, at, src);
      r[at..at + |src|] == src && forall i :: 0 <= i < |b| && !(at <= i < at + |src|) ==> r[i] == b[i]
  {
  }

  /** What the loop needs of the segment it is at. */
  lemma ChainAt(p: Pbuf?, chain: seq<Pbuf>, parts: seq<seq<Byte>>, k: nat)
    requires IsChain(p, chain, parts) && k < |chain|
    ensures chain[k].Sound() && chain[k].Payload() == parts[k]
    ensures chain[k].len == |parts[k]| && chain[k].next == Link(chain, k + 1)
  {
    assert chain[k].Holds(parts[k], Link(chain, k + 1));
  }

  /** Copies the payloads one after another into `buf` from `wpos` on, and touches nothing else. */
  method CopyChain(p: Pbuf?, ghost chain: seq<Pbuf>, ghost parts: seq<seq<Byte>>, buf: array<Byte>, wpos: nat)
    requires IsChain(p, chain, parts) && wpos + |Flat(parts, 0)| <= buf.Length
    modifies buf
    ensures buf[..] == Spliced(old(buf[..]), wpos, Flat(parts, 0))
    ensures buf[wpos..wpos + |Flat(parts, 0)|] == Flat(parts, 0)
    ensures forall i :: 0 <= i < buf.Length && !(wpos <= i < wpos + |Flat(parts, 0)|) ==> buf[i] == old(buf[i])
  {
    WrittenIsSpliced(buf[..], wpos, parts, 0);
    var q: Pbuf?, at: nat := p, wpos;
    ghost var k, goal := 0, Written(buf[..], wpos, parts, 0);
    while q != null
      invariant IsChain(p, chain, parts) && k <= |chain| && q == Link(chain, k)
      invariant at + |Flat(parts, k)| <= buf.Length && Written(buf[..], at, parts, k) == goal
      decreases |chain| - k
    {
      ChainAt(p, chain, parts, k);
      WrittenStep(buf[..], at, parts, k);
      Memcpy(buf, at, q.Payload());
      at := at + q.len;
      q := q.next;
      k := k + 1;
    }
    SplicedMeans(old(buf[..]), wpos, Flat(parts, 0));
  }

  lemma FlatUnpadded(parts: seq<seq<Byte>>, n: nat)
    requires |parts| > 0 && n <= |parts[0]|
    ensures Flat(parts[0 := parts[0][n..]], 0) == Flat(parts, 0)[n..]
  {
    FlatUpdate(parts, parts[0][n..], 1);
  }

  lemma SplicedMiddle(b: seq<Byte>, at: nat, src: seq<Byte>)
    requires at + |src| <= |b|
    ensures Spliced(b, at, src)[at..at + |src|] == src
  {
  }

  /** Drops the pad, copies the chain, and reclaims the pad. */
  method CopyUnpadded(p: Pbuf, ghost chain: seq<Pbuf>, ghost parts: seq<seq<Byte>>, buf: array<Byte>, wpos: nat)
    returns (len: nat)
    requires IsChain(p, chain, parts) && p.totLen == |Flat(parts, 0)| && p.len >= ETH_PAD_SIZE
    requires wpos + |Flat(parts, 0)| - ETH_PAD_SIZE <= buf.Length
    modifies buf, p`start, p`len, p`totLen
    ensures IsChain(p, chain, parts) && p.start == old(p.start) && p.len == old(p.len) && p.totLen == old(p.totLen)
    ensures len == |Flat(parts, 0)| - ETH_PAD_SIZE && wpos + len <= buf.Length
    ensures buf[wpos..wpos + len] == Flat(parts, 0)[ETH_PAD_SIZE..]
  {
    assert p.Holds(parts[0], Link(chain, 1));
    ghost var unpadded := parts[0 := parts[0][ETH_PAD_SIZE..]];
    FlatUnpadded(parts, ETH_PAD_SIZE);
    var _ := p.Header(-ETH_PAD_SIZE);
    assert p.Holds(unpadded[0], Link(chain, 1));
    ghost var b := buf[..];
    CopyChain(p, chain, unpadded, buf, wpos);
    SplicedMiddle(b, wpos, Flat(unpadded, 0));
    len := p.totLen;
    assert buf[wpos..wpos + len] == buf[..][wpos..wpos + len];
    var _ := p.Header(ETH_PAD_SIZE);
    assert p.Holds(parts[0], Link(chain, 1));
  }

  // ---- Netbufs and who has them ----

  /** All netbufs ever allocated, those given back, and those the device took, with the bytes it was given. */
  class Device {
    var issued: set<Id>
    var freed: set<Id>
    var taken: map<Id, seq<Byte>>

    ghost predicate Valid()
      reads this
    {
      freed <= issued && taken.Keys <= issued && freed !! taken.Keys
    }

    /** Netbufs neither given back nor handed over. */
    ghost function Outstanding(): set<Id>
      reads this
    {
      issued - freed - taken.Keys
    }

    constructor ()
      ensures Valid() && Outstanding() == {}
    {
      issued, freed, taken := {}, {}, map[];
    }

    /** A netbuf the allocator never handed out before becomes the driver's. */
    method Issue(nb: Id)
      requires Valid() && nb !in issued
      modifies this`issued
      ensures Valid() && issued == old(issued) + {nb} && Outstanding() == old(Outstanding()) + {nb}
    {
      issued := issued + {nb};
    }

    /** uk_netbuf_free_single: only on a netbuf that was neither given back nor handed over. */
    method Free(nb: Id)
      requires Valid() && nb in Outstanding()
      modifies this`freed
      ensures Valid() && freed == old(freed) + {nb} && Outstanding() == old(Outstanding()) - {nb}
    {
      freed := freed + {nb};
    }

    /** uk_netdev_tx_one: only on such a netbuf; the device has it if and only if the answer is success. */
    method TxOne(nb: Id, bytes: seq<Byte>, answer: Answer)
      requires Valid() && nb in Outstanding()
      modifies this`taken
      ensures Valid()
      ensures taken == if answer == Sent then old(taken)[nb := bytes] else old(taken)
      ensures Outstanding() == if answer == Sent then old(Outstanding()) - {nb} else old(Outstanding())
    {
      if answer == Sent {
        taken := taken[nb := bytes];
      }
    }
  }

  datatype Answer = NotReady | Failed | Sent

  /** What uk_netdev_tx_one answers: so often not ready, then sent or an error. */
  datatype Tx = Tx(notReady: nat, error: bool)

  function AnswerAt(tx: Tx, i: nat): Answer {
    if i < tx.notReady then NotReady else if tx.error then Failed else Sent
  }

  /** The transmit loop: the same netbuf is offered again while the device is not ready. */
  method Transmit(dev: Device, nb: Id, bytes: seq<Byte>, tx: Tx) returns (ret: Answer)
    requires dev.Valid() && nb in dev.Outstanding()
    modifies dev`taken
    ensures dev.Valid() && ret == (if tx.error then Failed else Sent)
    ensures dev.taken == if ret == Sent then old(dev.taken)[nb := bytes] else old(dev.taken)
    ensures dev.Outstanding() == if ret == Sent then old(dev.Outstanding()) - {nb} else old(dev.Outstanding())
  {
    var i := 0;
    ret := AnswerAt(tx, i);
    dev.TxOne(nb, bytes, ret);
    while ret == NotReady
      invariant dev.Valid() && ret == AnswerAt(tx, i)
      invariant dev.taken == if ret == Sent then old(dev.taken)[nb := bytes] else old(dev.taken)
      invariant dev.Outstanding() == if ret == Sent then old(dev.Outstanding()) - {nb} else old(dev.Outstanding())
      decreases tx.notReady - i
    {
      i := i + 1;
      ret := AnswerAt(tx, i);
      dev.TxOne(nb, bytes, ret);
    }
  }

  /** Transmission of a filled netbuf: the device takes it, or it is given back. */
  method Send(dev: Device, nb: Id, bytes: seq<Byte>, tx: Tx) returns (err: Err)
    requires dev.Valid() && nb in dev.Outstanding()
    modifies dev`taken, dev`freed
    ensures dev.Valid() && dev.Outstanding() == old(dev.Outstanding()) - {nb}
    ensures err == if tx.error then ERR_IF else ERR_OK
    ensures dev.freed == if err == ERR_IF then old(dev.freed) + {nb} else old(dev.freed)
    ensures dev.taken == if err == ERR_OK then old(dev.taken)[nb := bytes] else old(dev.taken)
  {
    var ret := Transmit(dev, nb, bytes, tx);
    if ret == Failed {
      dev.Free(nb);
      return ERR_IF;
    }
    return ERR_OK;
  }

  /** `uknetdev_output`. `nb` is the netbuf the allocator provides, if it does; its data starts at `headroom`
      of `buflen` bytes. The pad is in the first segment, as lwIP lays frames out. */
  method Output(dev: Device, p: Pbuf, ghost chain: seq<Pbuf>, ghost parts: seq<seq<Byte>>, nb: Id,
                hasMemory: bool, buflen: nat, headroom: nat, tx: Tx)
    returns (err: Err)
    requires dev.Valid() && nb !in dev.issued && headroom <= buflen
    requires IsChain(p, chain, parts) && p.totLen == |Flat(parts, 0)| && p.len >= ETH_PAD_SIZE
    modifies dev, p`start, p`len, p`totLen
    ensures dev.Valid() && dev.Outstanding() == old(dev.Outstanding())
    ensures IsChain(p, chain, parts) && p.start == old(p.start) && p.len == old(p.len) && p.totLen == old(p.totLen)
    ensures err == if !hasMemory || p.totLen > buflen - headroom then ERR_MEM else if tx.error then ERR_IF else ERR_OK
    ensures dev.issued == if hasMemory then old(dev.issued) + {nb} else old(dev.issued)
    ensures dev.freed == if hasMemory && err != ERR_OK then old(dev.freed) + {nb} else old(dev.freed)
    ensures dev.taken == if err == ERR_OK then old(dev.taken)[nb := Flat(parts, 0)[2..]] else old(dev.taken)
  {
    if !hasMemory {
      return ERR_MEM;
    }
    dev.Issue(nb);
    var data := new Byte[buflen](_ => 0);
    if p.totLen > buflen - headroom {
      dev.Free(nb);
      return ERR_MEM;
    }
    var len := CopyUnpadded(p, chain, parts, data, headroom);
    err := Send(dev, nb, data[headroom..headroom + len], tx);
  }

  // ---- Receiving ----

  /** A received netbuf: its packet is `len` bytes from offset `data` on. */
  datatype RxBuf = RxBuf(id: Id, data: nat, len: nat)

  /** What uk_netdev_rx_one answers; with a packet, whether more wait, and what lwIP's input function answers to
      it and to a second try. */
  datatype Rx = RxError | RxNotReady | RxPacket(nb: RxBuf, more: bool, first: Err, second: Err)

  /** The embedded pbuf as lwIP gets it: the packet with the pad in front. */
  datatype UpPbuf = UpPbuf(of: Id, payload: nat, len: nat)

  function Up(nb: RxBuf): UpPbuf
    requires nb.data >= ETH_PAD_SIZE
  {
    UpPbuf(nb.id, nb.data - ETH_PAD_SIZE, nb.len + ETH_PAD_SIZE)
  }

  predicate HasHeadroom(answers: seq<Rx>) {
    forall i :: 0 <= i < |answers| && answers[i].RxPacket? ==> answers[i].nb.data >= ETH_PAD_SIZE
  }

  /** lwIP takes the packet at once, or, where the build retries, after a full queue drained. */
  predicate Accepts(a: Rx, retry: bool)
    requires a.RxPacket?
  {
    a.first == ERR_OK || (retry && a.first == ERR_MEM && a.second == ERR_OK)
  }

  /** What one poll does: the pbufs that go up and the netbufs given back, in order, and whether the device
      failed. It goes on while more packets wait. */
  datatype Outcome = Outcome(up: seq<UpPbuf>, freed: seq<Id>, failed: bool)

  function Poll(answers: seq<Rx>, retry: bool): Outcome
    requires HasHeadroom(answers)
  {
    if answers == [] || answers[0].RxNotReady? then Outcome([], [], false)
    else if answers[0].RxError? then Outcome([], [], true)
    else
      var a := answers[0];
      var rest := if a.more then Poll(answers[1..], retry) else Outcome([], [], false);
      if Accepts(a, retry) then rest.(up := [Up(a.nb)] + rest.up) else rest.(freed := [a.nb.id] + rest.freed)
  }

  /** The netbufs the driver receives in one poll. */
  function Received(answers: seq<Rx>): seq<Id> {
    if answers == [] || !answers[0].RxPacket? then []
    else [answers[0].nb.id] + if answers[0].more then Received(answers[1..]) else []
  }

  /** How often netbuf `x` occurs. */
  function TimesUp(us: seq<UpPbuf>, x: Id): nat {
    if us == [] then 0 else (if us[0].of == x then 1 else 0) + TimesUp(us[1..], x)
  }

  function Times(ids: seq<Id>, x: Id): nat {
    if ids == [] then 0 else (if ids[0] == x then 1 else 0) + Times(ids[1..], x)
  }

  /** Every received netbuf goes up or is given back, exactly as often as it came in. */
  lemma {:induction false} ReceivedOnce(answers: seq<Rx>, retry: bool, x: Id)
    requires HasHeadroom(answers)
    ensures TimesUp(Poll(answers, retry).up, x) + Times(Poll(answers, retry).freed, x) == Times(Received(answers), x)
  {
    if answers != [] && answers[0].RxPacket? {
      var a := answers[0];
      var rest := if a.more then Poll(answers[1..], retry) else Outcome([], [], false);
      var ids := if a.more then Received(answers[1..]) else [];
      if a.more {
        ReceivedOnce(answers[1..], retry, x);
      }
      assert ([Up(a.nb)] + rest.up)[1..] == rest.up;
      assert ([a.nb.id] + rest.freed)[1..] == rest.freed;
      assert ([a.nb.id] + ids)[1..] == ids;
    }
  }

  /** lwIP's last answer to the packet was ERR_OK: the second one if it was tried again, else the first. */
  predicate LastOk(a: Rx, retry: bool)
    requires a.RxPacket?
  {
    if a.first == ERR_MEM && retry then a.second == ERR_OK else a.first == ERR_OK
  }

  /** The loop takes the first `n` answers, all packets, and stops: there are no more answers, the last packet said that
      none wait, or the next answer is no packet. */
  ghost predicate Takes(answers: seq<Rx>, n: nat) {
    && n <= |answers| && (forall i :: 0 <= i < n ==> answers[i].RxPacket?)
    && (forall i :: 0 <= i < n - 1 ==> answers[i].more)
    && (n == |answers| || (n > 0 && !answers[n - 1].more) || !answers[n].RxPacket?)
  }

  /** How many of the first `i` packets lwIP took. */
  function TakenUp(answers: seq<Rx>, i: nat, retry: bool): (k: nat)
    requires i <= |answers| && forall j :: 0 <= j < i ==> answers[j].RxPacket?
    ensures k <= i
  {
    if i == 0 then 0 else TakenUp(answers, i - 1, retry) + if LastOk(answers[i - 1], retry) then 1 else 0
  }

  lemma {:induction false} TakenUpTail(answers: seq<Rx>, i: nat, retry: bool)
    requires 0 < i <= |answers| && forall j :: 0 <= j < i ==> answers[j].RxPacket?
    ensures TakenUp(answers, i, retry)
      == TakenUp(answers[1..], i - 1, retry) + if LastOk(answers[0], retry) then 1 else 0
  {
    if i > 1 {
      TakenUpTail(answers, i - 1, retry);
      assert answers[1..][i - 2] == answers[i - 1];
    }
  }

  /** Packet `i` of the poll is where it belongs: if lwIP took it, in order among those taken, two bytes longer at the
      front than the device's packet; else in order among those given back. */
  ghost predicate InPlace(answers: seq<Rx>, retry: bool, out: Outcome, i: nat)
    requires i < |answers| && forall j :: 0 <= j <= i ==> answers[j].RxPacket?
  {
    var nb, k := answers[i].nb, TakenUp(answers, i, retry);
    if LastOk(answers[i], retry) then
      k < |out.up| && out.up[k].of == nb.id && out.up[k].payload + 2 == nb.data && out.up[k].len == nb.len + 2
    else i - k < |out.freed| && out.freed[i - k] == nb.id
  }

  /** What a poll does, packet by packet. */
  ghost predicate Dispatches(answers: seq<Rx>, retry: bool, out: Outcome, n: nat) {
    && Takes(answers, n)
    && |out.up| == TakenUp(answers, n, retry) && |out.freed| == n - TakenUp(answers, n, retry)
    && (forall i :: 0 <= i < n ==> InPlace(answers, retry, out, i))
    && (out.failed <==> n < |answers| && (n > 0 ==> answers[n - 1].more) && answers[n].RxError?)
  }

  lemma TakesCons(answers: seq<Rx>, n: nat)
    requires answers != [] && answers[0].RxPacket? && answers[0].more && Takes(answers[1..], n)
    ensures Takes(answers, n + 1)
  {
    var rest := answers[1..];
    assert forall i :: 0 < i < |answers| ==> answers[i] == rest[i - 1];
  }

  lemma InPlaceCons(answers: seq<Rx>, retry: bool, out: Outcome, rest: Outcome, i: nat)
    requires 0 < i < |answers| && forall j :: 0 <= j <= i ==> answers[j].RxPacket?
    requires forall j :: 0 <= j <= i - 1 ==> answers[1..][j].RxPacket?
    requires HasHeadroom(answers) && InPlace(answers[1..], retry, rest, i - 1)
    requires if LastOk(answers[0], retry) then out.up == [Up(answers[0].nb)] + rest.up && out.freed == rest.freed
             else out.up == rest.up && out.freed == [answers[0].nb.id] + rest.freed
    ensures InPlace(answers, retry, out, i)
  {
    TakenUpTail(answers, i, retry);
    assert answers[1..][i - 1] == answers[i];
  }

  /** The packets of a poll up to the first stop go up or back as lwIP answered them, in order, and the poll fails if
      and only if it runs into an error. */
  lemma {:induction false} PollDispatches(answers: seq<Rx>, retry: bool) returns (n: nat)
    requires HasHeadroom(answers)
    ensures Dispatches(answers, retry, Poll(answers, retry), n)
    decreases |answers|
  {
    var out := Poll(answers, retry);
    if answers == [] || !answers[0].RxPacket? {
      n := 0;
    } else if !answers[0].more {
      n := 1;
      assert InPlace(answers, retry, out, 0);
    } else {
      var m := PollDispatches(answers[1..], retry);
      n := PollCons(answers, retry, m);
    }
  }

  lemma PollCons(answers: seq<Rx>, retry: bool, m: nat) returns (n: nat)
    requires HasHeadroom(answers) && answers != [] && answers[0].RxPacket? && answers[0].more
    requires HasHeadroom(answers[1..]) && Dispatches(answers[1..], retry, Poll(answers[1..], retry), m)
    ensures Dispatches(answers, retry, Poll(answers, retry), n)
  {
    n := m + 1;
    var out, rest := Poll(answers, retry), Poll(answers[1..], retry);
    TakesCons(answers, m);
    TakenUpTail(answers, n, retry);
    forall i | 0 <= i < n ensures InPlace(answers, retry, out, i) {
      if i > 0 {
        InPlaceCons(answers, retry, out, rest, i);
      }
    }
    assert m > 0 ==> answers[1..][m - 1] == answers[n - 1];
    assert m < |answers| - 1 ==> answers[1..][m] == answers[n];
  }

  class Stack {
    var queue: seq<UpPbuf>  // accepted by lwIP, in order
    var freed: seq<Id>      // given back by the driver, in order
    var isUp: bool

    constructor ()
      ensures queue == [] && freed == [] && isUp
    {
      queue, freed, isUp := [], [], true;
    }

    /** `uknetdev_input`. After the listed answers the device is not ready. */
    method Input(answers: seq<Rx>, retry: bool)
      requires HasHeadroom(answers)
      modifies this
      ensures queue == old(queue) + Poll(answers, retry).up
      ensures freed == old(freed) + Poll(answers, retry).freed
      ensures isUp == (old(isUp) && !Poll(answers, retry).failed)
    {
      var i, more := 0, true;
      ghost var all := Poll(answers, retry);
      while more
        invariant i <= |answers|
        invariant var left := if more then Poll(answers[i..], retry) else Outcome([], [], false);
          && queue + left.up == old(queue) + all.up
          && freed + left.freed == old(freed) + all.freed
          && (isUp && !left.failed) == (old(isUp) && !all.failed)
        decreases |answers| - i, more
      {
        if i == |answers| {
          return;
        }
        var a := answers[i];
        ghost var left := Poll(answers[i..], retry);
        assert answers[i..][1..] == answers[i + 1..];
        match a {
          case RxError =>
            isUp := false;
            more := false;
          case RxNotReady =>
            more := false;
          case RxPacket(nb, m, first, second) =>
            var err := first;
            if retry && err == ERR_MEM {
              err := second;
            }
            if err == ERR_OK {
              queue := queue + [UpPbuf(nb.id, nb.data - ETH_PAD_SIZE, nb.len + ETH_PAD_SIZE)];
            } else {
              freed := freed + [nb.id];
            }
            i, more := i + 1, m;
        }
      }
    }
  }
}
