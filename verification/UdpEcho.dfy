/** The raw UDP echo: a received frame is turned around in place by swapping addresses and ports, and sent
    back with its checksums untouched. */
module UdpEcho {
  import opened Basics

  /** Field offsets in the frame. The program's Ethernet header structure is 13 bytes long, so it reads one
      byte of the type field and steps over the other; it takes the UDP header to follow 20 bytes of IP. */
  const ETHER_DHOST := 0
  const ETHER_SHOST := 6
  const ETHER_TYPE := 12
  const IP := 14
  const IP_PROTOCOL := 23
  const IP_SADDR := 26
  const IP_DADDR := 30
  const UDP_SOURCE := 34
  const UDP_DEST := 36
  const TOUCHED := 38  // one past the last byte the program reads or writes

  predicate Accepted(f: seq<Byte>)
    requires |f| >= TOUCHED
  {
    f[ETHER_TYPE] == 8 && f[IP_PROTOCOL] == 0x11
  }

  /** The byte position that ends up at `i`. */
  function From(i: nat): (j: nat)
    ensures i < TOUCHED ==> j < TOUCHED
  {
    if i < 6 then i + 6 else if i < 12 then i - 6
    else if 26 <= i < 30 then i + 4 else if 30 <= i < 34 then i - 4
    else if 34 <= i < 36 then i + 2 else if 36 <= i < 38 then i - 2
    else i
  }

  /** The frame with MAC addresses, IP addresses and ports exchanged. */
  function TurnedAround(f: seq<Byte>): (g: seq<Byte>)
    requires |f| >= TOUCHED
    ensures |g| == |f|
  {
    seq(|f|, i requires 0 <= i < |f| => f[From(i)])
  }

  /** Field by field. */
  lemma TurnedAroundFields(f: seq<Byte>)
    requires |f| >= TOUCHED
    ensures var g := TurnedAround(f);
      && g[..6] == f[6..12] && g[6..12] == f[..6]
      && g[26..30] == f[30..34] && g[30..34] == f[26..30]
      && g[34..36] == f[36..38] && g[36..38] == f[34..36]
      && g[12..26] == f[12..26] && g[38..] == f[38..]
  {
  }

  // ---- In place ----

  function XorBits(a: nat, b: nat): nat
    decreases a + b
  {
    if a == 0 && b == 0 then 0 else 2 * XorBits(a / 2, b / 2) + (a + b) % 2
  }

  function Power(n: nat): nat { if n == 0 then 1 else 2 * Power(n - 1) }

  lemma {:induction false} XorBounded(a: nat, b: nat, n: nat)
    requires a < Power(n) && b < Power(n)
    ensures XorBits(a, b) < Power(n)
  {
    if n > 0 {
      XorBounded(a / 2, b / 2, n - 1);
    }
  }

  /** Bitwise exclusive or of two bytes. */
  function Xor(a: Byte, b: Byte): Byte {
    assert XorBits(a, b) < 256 by {
      assert Power(8) == 256;
      XorBounded(a, b, 8);
    }
    XorBits(a, b)
  }

  lemma XorHalf(a: nat, b: nat)
    ensures XorBits(a, b) / 2 == XorBits(a / 2, b / 2) && XorBits(a, b) % 2 == (a + b) % 2
  {
  }

  lemma {:induction false} XorCommutes(a: nat, b: nat)
    ensures XorBits(a, b) == XorBits(b, a)
    decreases a + b
  {
    if a != 0 || b != 0 {
      XorCommutes(a / 2, b / 2);
    }
  }

  lemma Parity(a: nat, b: nat, x: nat)
    requires x % 2 == (a + b) % 2
    ensures (b + x) % 2 == a % 2
  {
  }

  lemma Halves(x: nat, y: nat)
    requires x / 2 == y / 2 && x % 2 == y % 2
    ensures x == y
  {
  }

  lemma {:induction false} XorCancels(a: nat, b: nat, x: nat)
    requires x == XorBits(a, b)
    ensures XorBits(b, x) == a
    decreases a + b
  {
    if a != 0 || b != 0 {
      var y := XorBits(b, x);
      XorHalf(a, b);
      XorHalf(b, x);
      XorCancels(a / 2, b / 2, x / 2);
      Parity(a, b, x);
      Halves(y, a);
    }
  }

  lemma XorTwice(a: Byte, b: Byte)
    ensures Xor(b, Xor(a, b)) == a && Xor(Xor(a, b), a) == b
  {
    XorCancels(a, b, XorBits(a, b));
    XorCancels(b, a, XorBits(b, a));
    XorCommutes(a, b);
    XorCommutes(XorBits(a, b), a);
  }

  /** `*dst ^= *src` on fields of `n` bytes. */
  method XorField(frame: array<Byte>, dst: nat, src: nat, n: nat)
    requires dst + n <= frame.Length && src + n <= frame.Length && (dst + n <= src || src + n <= dst)
    modifies frame
    ensures forall i :: dst <= i < dst + n ==> frame[i] == Xor(old(frame[i]), old(frame[i - dst + src]))
    ensures forall i :: 0 <= i < frame.Length && !(dst <= i < dst + n) ==> frame[i] == old(frame[i])
  {
    for k := 0 to n
      invariant forall i :: dst <= i < dst + k ==> frame[i] == Xor(old(frame[i]), old(frame[i - dst + src]))
      invariant forall i :: 0 <= i < frame.Length && !(dst <= i < dst + k) ==> frame[i] == old(frame[i])
    {
      frame[dst + k] := Xor(frame[dst + k], frame[src + k]);
    }
  }

  /** The three exclusive-ors that exchange two fields. */
  method XorSwap(frame: array<Byte>, a: nat, b: nat, n: nat)
    requires a + n <= b && b + n <= frame.Length
    modifies frame
    ensures forall i :: a <= i < a + n ==> frame[i] == old(frame[i - a + b])
    ensures forall i :: b <= i < b + n ==> frame[i] == old(frame[i - b + a])
    ensures forall i :: 0 <= i < frame.Length && !(a <= i < a + n) && !(b <= i < b + n) ==> frame[i] == old(frame[i])
  {
    XorField(frame, a, b, n);
    XorField(frame, b, a, n);
    forall i | b <= i < b + n ensures frame[i] == old(frame[i - b + a]) {
      XorTwice(old(frame[i - b + a]), old(frame[i]));
    }
    XorField(frame, a, b, n);
    forall i | a <= i < a + n ensures frame[i] == old(frame[i - a + b]) {
      XorTwice(old(frame[i]), old(frame[i - a + b]));
    }
  }

  /** The copy through a temporary that exchanges the MAC addresses. */
  method SwapHosts(frame: array<Byte>)
    requires frame.Length >= TOUCHED
    modifies frame
    ensures forall i :: 0 <= i < 6 ==> frame[i] == old(frame[i + 6]) && frame[i + 6] == old(frame[i])
    ensures forall i :: 12 <= i < frame.Length ==> frame[i] == old(frame[i])
  {
    var tmp := frame[ETHER_DHOST..ETHER_DHOST + 6];
    for k := 0 to 6
      invariant forall i :: 0 <= i < k ==> frame[i] == old(frame[i + 6])
      invariant forall i :: k <= i < frame.Length ==> frame[i] == old(frame[i])
    {
      frame[ETHER_DHOST + k] := frame[ETHER_SHOST + k];
    }
    for k := 0 to 6
      invariant forall i :: 0 <= i < 6 ==> frame[i] == old(frame[i + 6])
      invariant forall i :: 6 <= i < 6 + k ==> frame[i] == tmp[i - 6]
      invariant forall i :: 6 + k <= i < frame.Length ==> frame[i] == old(frame[i])
    {
      frame[ETHER_SHOST + k] := tmp[k];
    }
  }

  /** The three exchanges. */
  method Rewrite(frame: array<Byte>)
    requires frame.Length >= TOUCHED
    modifies frame
    ensures frame[..] == TurnedAround(old(frame[..]))
  {
    SwapHosts(frame);
    XorSwap(frame, IP_SADDR, IP_DADDR, 4);
    XorSwap(frame, UDP_SOURCE, UDP_DEST, 2);
  }

  /** Rewrites an accepted frame and hands it to the device; leaves any other frame alone and unsent. */
  method Output(frame: array<Byte>) returns (send: bool)
    requires frame.Length >= TOUCHED
    modifies frame
    ensures send <==> old(frame[12]) == 8 && old(frame[23]) == 0x11
    ensures send == Accepted(old(frame[..]))
    ensures frame[..] == if send then TurnedAround(old(frame[..])) else old(frame[..])
    ensures send ==> var f, g := old(frame[..]), frame[..];
      && g[..6] == f[6..12] && g[6..12] == f[..6]
      && g[26..30] == f[30..34] && g[30..34] == f[26..30]
      && g[34..36] == f[36..38] && g[36..38] == f[34..36]
      && g[12..26] == f[12..26] && g[38..] == f[38..]
  {
    if frame[ETHER_TYPE] != 8 || frame[IP_PROTOCOL] != 0x11 {
      return false;
    }
    TurnedAroundFields(frame[..]);
    Rewrite(frame);
    return true;
  }

  // ---- What the rewrite means ----

  /** A rewritten frame is accepted again, and rewriting it restores the original. */
  lemma TurnedAroundTwice(f: seq<Byte>)
    requires |f| >= TOUCHED
    ensures Accepted(TurnedAround(f)) <==> Accepted(f)
    ensures TurnedAround(TurnedAround(f)) == f
  {
  }

  // ---- Checksums, as section 2 of RFC 1071 defines them ----

  /** One's-complement addition of 16-bit words: the carry is added back in. */
  function OnesAdd(a: nat, b: nat): (c: nat)
    requires a < 0x10000 && b < 0x10000
    ensures c < 0x10000
  {
    if a + b < 0x10000 then a + b else a + b - 0xffff
  }

  /** The big-endian word at `i` of a region ending at `end`; a last odd byte is padded with zero. */
  function WordAt(f: seq<Byte>, i: nat, end: nat): (w: nat)
    requires i < end <= |f|
    ensures w < 0x10000
  {
    var hi: nat, lo: nat := f[i], if i + 1 < end then f[i + 1] else 0;
    256 * hi + lo
  }

  /** The one's-complement sum of the words of a region, added to `acc`. */
  function OnesSum(f: seq<Byte>, start: nat, end: nat, acc: nat): (c: nat)
    requires end <= |f| && acc < 0x10000
    ensures c < 0x10000
    decreases end - start
  {
    if start >= end then acc else OnesSum(f, start + 2, end, OnesAdd(acc, WordAt(f, start, end)))
  }

  /** The same words added without carries brought back. */
  function PlainSum(f: seq<Byte>, start: nat, end: nat): nat
    requires end <= |f|
    decreases end - start
  {
    if start >= end then 0 else WordAt(f, start, end) + PlainSum(f, start + 2, end)
  }

  /** The one's-complement representative of a plain sum. */
  function Folded(n: nat): nat { if n == 0 then 0 else (n - 1) % 0xffff + 1 }

  lemma FoldedAdd(n: nat, w: nat)
    requires w < 0x10000
    ensures OnesAdd(Folded(n), w) == Folded(n + w)
  {
  }

  /** Carries may be brought back at the end: the sum only depends on the plain sum. */
  lemma {:induction false} OnesSumFolds(f: seq<Byte>, start: nat, end: nat, n: nat)
    requires end <= |f|
    ensures OnesSum(f, start, end, Folded(n)) == Folded(n + PlainSum(f, start, end))
    decreases end - start
  {
    if start < end {
      FoldedAdd(n, WordAt(f, start, end));
      OnesSumFolds(f, start + 2, end, n + WordAt(f, start, end));
    }
  }

  // ---- The checksummed parts of a frame ----

  /** The IP header length field, in 32-bit words. */
  function Ihl(f: seq<Byte>): nat
    requires |f| >= TOUCHED
  {
    f[IP] % 16
  }

  function UdpStart(f: seq<Byte>): nat
    requires |f| >= TOUCHED
  {
    IP + 4 * Ihl(f)
  }

  function UdpLength(f: seq<Byte>): nat
    requires |f| >= TOUCHED && UdpStart(f) + 8 <= |f|
  {
    WordAt(f, UdpStart(f) + 4, |f|)
  }

  /** Well-formed by section 3.1 of RFC 791 and by RFC 768: a header of at least five words, then a datagram
      of at least eight bytes, inside the frame. */
  predicate WellFormed(f: seq<Byte>) {
    && |f| >= TOUCHED && Ihl(f) >= 5
    && UdpStart(f) + 8 <= |f|
    && UdpLength(f) >= 8 && UdpStart(f) + UdpLength(f) <= |f|
  }

  /** The sum a receiver checks over the IP header; 0xffff is valid. */
  function IpSum(f: seq<Byte>): nat
    requires WellFormed(f)
  {
    OnesSum(f, IP, UdpStart(f), 0)
  }

  /** The sum over the pseudo header (addresses, protocol, length) and the datagram. */
  function UdpSum(f: seq<Byte>): nat
    requires WellFormed(f)
  {
    var pseudo := OnesAdd(OnesAdd(OnesSum(f, IP_SADDR, IP_DADDR + 4, 0), f[IP_PROTOCOL]), UdpLength(f));
    OnesSum(f, UdpStart(f), UdpStart(f) + UdpLength(f), pseudo)
  }

  lemma KeepsWellFormed(f: seq<Byte>)
    requires WellFormed(f)
    ensures var g := TurnedAround(f);
      WellFormed(g) && UdpStart(g) == UdpStart(f) && UdpLength(g) == UdpLength(f)
  {
  }

  lemma {:induction false} PlainSumSplit(f: seq<Byte>, start: nat, mid: nat, end: nat)
    requires start <= mid <= end <= |f| && (mid - start) % 2 == 0
    ensures PlainSum(f, start, end) == PlainSum(f, start, mid) + PlainSum(f, mid, end)
    decreases mid - start
  {
    if start < mid {
      PlainSumSplit(f, start + 2, mid, end);
    }
  }

  /** Regions in which no byte moves. */
  lemma {:induction false} PlainSumSame(f: seq<Byte>, start: nat, end: nat)
    requires TOUCHED <= |f| && end <= |f| && forall i :: start <= i < end ==> From(i) == i
    ensures PlainSum(TurnedAround(f), start, end) == PlainSum(f, start, end)
    decreases end - start
  {
    if start < end {
      var g := TurnedAround(f);
      assert From(start) == start && (start + 1 < end ==> From(start + 1) == start + 1);
      assert g[start] == f[start] && (start + 1 < end ==> g[start + 1] == f[start + 1]);
      PlainSumSame(f, start + 2, end);
    }
  }

  lemma AddressSum(f: seq<Byte>)
    requires |f| >= TOUCHED
    ensures PlainSum(TurnedAround(f), IP_SADDR, UDP_SOURCE) == PlainSum(f, IP_SADDR, UDP_SOURCE)
  {
  }

  /** The ports, or the option bytes in their place, and everything after them. */
  lemma PortSum(f: seq<Byte>, end: nat)
    requires TOUCHED <= end <= |f|
    ensures PlainSum(TurnedAround(f), UDP_SOURCE, end) == PlainSum(f, UDP_SOURCE, end)
  {
    var g := TurnedAround(f);
    assert WordAt(g, 34, end) == WordAt(f, 36, end) && WordAt(g, 36, end) == WordAt(f, 34, end);
    assert PlainSum(f, 34, end) == WordAt(f, 34, end) + WordAt(f, 36, end) + PlainSum(f, 38, end);
    assert PlainSum(g, 34, end) == WordAt(g, 34, end) + WordAt(g, 36, end) + PlainSum(g, 38, end);
    PlainSumSame(f, 38, end);
  }

  lemma HeaderParts(f: seq<Byte>, end: nat)
    requires UDP_SOURCE <= end <= |f|
    ensures PlainSum(f, IP, end)
      == PlainSum(f, IP, IP_SADDR) + PlainSum(f, IP_SADDR, UDP_SOURCE) + PlainSum(f, UDP_SOURCE, end)
  {
    PlainSumSplit(f, IP, IP_SADDR, end);
    PlainSumSplit(f, IP_SADDR, UDP_SOURCE, end);
  }

  lemma HeaderSum(f: seq<Byte>, end: nat)
    requires TOUCHED <= |f| && UDP_SOURCE <= end <= |f| && (end == UDP_SOURCE || end >= TOUCHED)
    ensures PlainSum(TurnedAround(f), IP, end) == PlainSum(f, IP, end)
  {
    HeaderParts(f, end);
    HeaderParts(TurnedAround(f), end);
    PlainSumSame(f, IP, IP_SADDR);
    AddressSum(f);
    if end >= TOUCHED {
      PortSum(f, end);
    }
  }

  /** The rewrite leaves the one's-complement sum of the IP header as it was, for every header of at least five
      words. */
  lemma IpSumKept(f: seq<Byte>)
    requires WellFormed(f)
    ensures WellFormed(TurnedAround(f)) && IpSum(TurnedAround(f)) == IpSum(f)
  {
    KeepsWellFormed(f);
    HeaderSum(f, UdpStart(f));
    HeaderFolds(f, UdpStart(f));
  }

  /** The program does not look at the header length. Over all frames the header sum is kept exactly when
      the header does not end between the two addresses, or the addresses have equal sums anyway. */
  lemma IpSumKeptIff(f: seq<Byte>)
    requires |f| >= TOUCHED && UdpStart(f) <= |f|
    ensures OnesSum(TurnedAround(f), IP, UdpStart(f), 0) == OnesSum(f, IP, UdpStart(f), 0)
      <==> (Ihl(f) != 4 || PlainSum(f, IP_SADDR, IP_DADDR) % 0xffff == PlainSum(f, IP_DADDR, UDP_SOURCE) % 0xffff)
  {
    if Ihl(f) == 4 {
      ShortHeader(f);
      FoldsIff(f, TurnedAround(f), IP, UdpStart(f),
               PlainSum(f, IP, IP_SADDR), PlainSum(f, IP_SADDR, IP_DADDR), PlainSum(f, IP_DADDR, UDP_SOURCE));
    } else if Ihl(f) >= 5 {
      HeaderSum(f, UdpStart(f));
      HeaderFolds(f, UdpStart(f));
    } else {
      PlainSumSame(f, IP, UdpStart(f));
      HeaderFolds(f, UdpStart(f));
    }
  }

  /** A frame the program accepts, with a header length of four words and nothing but 1 in its source address. */
  function ShortFrame(): seq<Byte> {
    seq(TOUCHED, i requires 0 <= i < TOUCHED =>
      if i == ETHER_TYPE then 8 else if i == IP then 0x44 else if i == IP_PROTOCOL then 0x11
      else if i == IP_SADDR then 1 else 0)
  }

  lemma OneInSource(f: seq<Byte>)
    requires |f| >= TOUCHED && f[26] == 1 && forall i :: 27 <= i < 34 ==> f[i] == 0
    ensures PlainSum(f, IP_SADDR, IP_DADDR) == 256 && PlainSum(f, IP_DADDR, UDP_SOURCE) == 0
  {
    assert PlainSum(f, 26, 30) == WordAt(f, 26, 30) + WordAt(f, 28, 30) + PlainSum(f, 30, 30);
    assert PlainSum(f, 30, 34) == WordAt(f, 30, 34) + WordAt(f, 32, 34) + PlainSum(f, 34, 34);
  }

  /** On it the claim that no checksum changes fails. */
  lemma ShortFrameSumChanges()
    ensures Accepted(ShortFrame()) && Ihl(ShortFrame()) == 4
    ensures OnesSum(TurnedAround(ShortFrame()), IP, UdpStart(ShortFrame()), 0)
      != OnesSum(ShortFrame(), IP, UdpStart(ShortFrame()), 0)
  {
    OneInSource(ShortFrame());
    IpSumKeptIff(ShortFrame());
  }

  lemma HeaderFolds(f: seq<Byte>, end: nat)
    requires TOUCHED <= |f| && end <= |f| && PlainSum(TurnedAround(f), IP, end) == PlainSum(f, IP, end)
    ensures OnesSum(TurnedAround(f), IP, end, 0) == OnesSum(f, IP, end, 0)
  {
    OnesSumFolds(f, IP, end, 0);
    OnesSumFolds(TurnedAround(f), IP, end, 0);
  }

  lemma FoldsIff(f: seq<Byte>, g: seq<Byte>, start: nat, end: nat, n: nat, a: nat, b: nat)
    requires end <= |f| == |g| && n > 0
    requires PlainSum(f, start, end) == n + a && PlainSum(g, start, end) == n + b
    ensures OnesSum(g, start, end, 0) == OnesSum(f, start, end, 0) <==> a % 0xffff == b % 0xffff
  {
    OnesSumFolds(f, start, end, 0);
    OnesSumFolds(g, start, end, 0);
    FoldedEqual(n, a, b);
  }

  lemma ShortHeader(f: seq<Byte>)
    requires |f| >= TOUCHED && Ihl(f) == 4
    ensures PlainSum(f, IP, IP_SADDR) > 0
    ensures PlainSum(f, IP, IP_DADDR) == PlainSum(f, IP, IP_SADDR) + PlainSum(f, IP_SADDR, IP_DADDR)
    ensures PlainSum(TurnedAround(f), IP, IP_DADDR) == PlainSum(f, IP, IP_SADDR) + PlainSum(f, IP_DADDR, UDP_SOURCE)
  {
    var g := TurnedAround(f);
    PlainSumSplit(f, IP, IP_SADDR, IP_DADDR);
    PlainSumSplit(g, IP, IP_SADDR, IP_DADDR);
    PlainSumSame(f, IP, IP_SADDR);
    assert WordAt(g, 26, 30) == WordAt(f, 30, 34) && WordAt(g, 28, 30) == WordAt(f, 32, 34);
    assert PlainSum(g, 26, 30) == WordAt(g, 26, 30) + WordAt(g, 28, 30) + PlainSum(g, 30, 30);
    assert PlainSum(f, 30, 34) == WordAt(f, 30, 34) + WordAt(f, 32, 34) + PlainSum(f, 34, 34);
  }

  lemma FoldedEqual(n: nat, a: nat, b: nat)
    requires n > 0
    ensures Folded(n + a) == Folded(n + b) <==> a % 0xffff == b % 0xffff
  {
  }

  lemma DatagramSum(f: seq<Byte>)
    requires WellFormed(f)
    ensures PlainSum(TurnedAround(f), UdpStart(f), UdpStart(f) + UdpLength(f))
      == PlainSum(f, UdpStart(f), UdpStart(f) + UdpLength(f))
  {
    if UdpStart(f) == UDP_SOURCE {
      PortSum(f, UdpStart(f) + UdpLength(f));
    } else {
      PlainSumSame(f, UdpStart(f), UdpStart(f) + UdpLength(f));
    }
  }

  lemma UdpSumFolds(f: seq<Byte>)
    requires WellFormed(f)
    ensures UdpSum(f) == Folded(PlainSum(f, IP_SADDR, UDP_SOURCE) + f[IP_PROTOCOL] + UdpLength(f)
                                + PlainSum(f, UdpStart(f), UdpStart(f) + UdpLength(f)))
  {
    var a, p, l := PlainSum(f, IP_SADDR, UDP_SOURCE), f[IP_PROTOCOL], UdpLength(f);
    OnesSumFolds(f, IP_SADDR, UDP_SOURCE, 0);
    FoldedAdd(a, p);
    FoldedAdd(a + p, l);
    OnesSumFolds(f, UdpStart(f), UdpStart(f) + l, a + p + l);
  }

  /** And that of the UDP pseudo header and datagram, so a checksum that was valid stays valid. */
  lemma UdpSumKept(f: seq<Byte>)
    requires WellFormed(f)
    ensures WellFormed(TurnedAround(f)) && UdpSum(TurnedAround(f)) == UdpSum(f)
  {
    KeepsWellFormed(f);
    AddressSum(f);
    DatagramSum(f);
    UdpSumFolds(f);
    UdpSumFolds(TurnedAround(f));
    assert TurnedAround(f)[IP_PROTOCOL] == f[IP_PROTOCOL];
  }
}
