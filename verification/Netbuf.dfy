/** Netbufs with an embedded pbuf: the two structures share one allocation and lead to each other. */
module Netbuf {
  import opened Basics

  /** The embedded pbuf with its back pointer, the contents of a netbuf's private area. */
  datatype Priv = Priv(isCustom: bool, payload: nat, ref: nat, netbuf: nat)

  /** An allocation: its size, and the netbuf fields and private area at its start. */
  datatype Block = Block(size: nat, data: nat, len: nat, priv: Priv)

  /** An allocation holds the netbuf structure, its private area and the buffer, in this order. */
  const NETBUF_SIZE: nat := 64
  const PRIV_SIZE: nat := 48
  const OVERHEAD: nat := NETBUF_SIZE + PRIV_SIZE

  /** The live allocations by address. */
  type Heap = map<nat, Block>

  /** Two stretches of memory have no byte in common, nor the same address. */
  predicate Apart(a: nat, size: nat, b: nat, size': nat) { a != b && (a + size <= b || b + size' <= a) }

  /** The netbuf at `b` has its private area inside the allocation, and that leads back to `b`. */
  predicate Embeds(k: Block, b: nat) {
    OVERHEAD <= k.size && k.priv.isCustom && k.priv.netbuf == b
  }

  /** Allocations do not overlap, and each one is a netbuf with its pbuf. */
  ghost predicate Sound(h: Heap) {
    && (forall b, c :: b in h && c in h && b != c ==> Apart(b, h[b].size, c, h[c].size))
    && (forall b :: b in h ==> Embeds(h[b], b))
  }

  /** No live allocation reaches into the stretch at `a`. */
  ghost predicate Clear(h: Heap, a: nat, size: nat) {
    forall c :: c in h ==> Apart(a, size, c, h[c].size)
  }

  /** `p` is the address of a private area. */
  predicate IsPbuf(h: Heap, p: nat) { p >= NETBUF_SIZE && p - NETBUF_SIZE in h }

  /** A netbuf in a clear stretch of memory disturbs no other. */
  lemma AddedSound(h: Heap, b: nat, k: Block)
    requires Sound(h) && Clear(h, b, k.size) && Embeds(k, b)
    ensures Sound(h[b := k]) && b !in h && h[b := k] - {b} == h
  {
  }

  class Memory {
    var h: Heap

    constructor ()
      ensures h == map[] && Sound(h)
    {
      h := map[];
    }

    /** uk_free on a live allocation. */
    method Release(b: nat)
      requires b in h
      modifies this
      ensures h == old(h) - {b}
    {
      h := h - {b};
    }

    /** `lwip_alloc_netbuf`; `a` is what uk_malloc answers, with uninitialised contents `raw`, clear of all live
        allocations. A failure, also that of uk_netbuf_prepare_buf, leaves everything as it was; otherwise the
        netbuf spans the buffer behind the headroom, and its pbuf is referenced once, marked as custom and starts
        where the netbuf's data starts. */
    method AllocNetbuf(a: Option<nat>, raw: Block, size: nat, headroom: nat) returns (b: Option<nat>)
      requires Sound(h) && (a.Some? ==> Clear(h, a.value, size))
      modifies this
      ensures Sound(h)
      ensures b == if a.Some? && OVERHEAD + headroom <= size then a else None
      ensures b.None? ==> h == old(h)
      ensures b.Some? ==> b.value !in old(h) && old(h) == h - {b.value} && b.value in h
      ensures b.Some? ==> var data := b.value + OVERHEAD + headroom;
        h[b.value] == Block(size, data, b.value + size - data, Priv(true, data, 1, b.value))
    {
      if a.None? {
        return None;
      }
      var m := a.value;
      h := h[m := raw.(size := size)];
      assert h - {m} == old(h);
      if OVERHEAD + headroom > size {
        Release(m);
        return None;
      }
      var data, buflen := m + OVERHEAD + headroom, size - OVERHEAD;
      h := h[m := h[m].(data := data, priv := Priv(true, data, 1, m))];
      h := h[m := h[m].(len := buflen - headroom)];
      assert h == old(h)[m := Block(size, data, buflen - headroom, Priv(true, data, 1, m))];
      AddedSound(old(h), m, h[m]);
      return a;
    }

    /** `lwip_netbuf_to_pbuf`: the embedded pbuf, which `lwip_pbuf_to_netbuf` leads back from. */
    method NetbufToPbuf(b: nat) returns (p: nat)
      requires Sound(h) && b in h
      ensures IsPbuf(h, p) && h[p - NETBUF_SIZE].priv.isCustom && h[p - NETBUF_SIZE].priv.netbuf == b
    {
      p := b + NETBUF_SIZE;
    }

    /** `lwip_pbuf_to_netbuf`: the netbuf around, which `lwip_netbuf_to_pbuf` leads back from. */
    method PbufToNetbuf(p: nat) returns (b: nat)
      requires Sound(h) && IsPbuf(h, p)
      ensures b in h && b + NETBUF_SIZE == p && h[b].priv.isCustom
    {
      b := h[p - NETBUF_SIZE].priv.netbuf;
      assert Embeds(h[p - NETBUF_SIZE], p - NETBUF_SIZE);
    }

    /** `_netbuf_free`, lwIP's way to give a packet back: exactly the allocation around the pbuf goes. */
    method NetbufFree(p: nat)
      requires Sound(h) && IsPbuf(h, p)
      modifies this
      ensures Sound(h) && h == old(h) - {p - NETBUF_SIZE}
    {
      var b := PbufToNetbuf(p);
      Release(b);
    }
  }
}
