/** `select` on sockets: the public descriptor sets are translated to lwIP's numbering and back. */
module Select {
  import opened Basics

  /** What a public descriptor stands for: a socket with its lwIP number, or some other open file. */
  datatype File = Socket(sock: nat) | Other

  datatype Errno = EINVAL | EBADF

  /** The descriptor table. Opening and closing happen elsewhere; lookups and releases count references. */
  class Vfs {
    const files: map<nat, File>
    var refs: map<nat, nat>

    ghost predicate Valid()
      reads this
    {
      refs.Keys == files.Keys
    }

    constructor (files: map<nat, File>, refs: map<nat, nat>)
      requires refs.Keys == files.Keys
      ensures Valid() && this.files == files && this.refs == refs
    {
      this.files := files;
      this.refs := refs;
    }

    /** `sock_net_file_get`: a found descriptor gains a reference, also one that is not a socket. */
    method FileGet(fd: nat) returns (err: Option<Errno>, sock: nat)
      requires Valid()
      modifies this
      ensures Valid()
      ensures fd !in files <==> err == Some(EINVAL)
      ensures fd in files && files[fd] == Other <==> err == Some(EBADF)
      ensures err == LookupError(files, fd)
      ensures err.None? ==> files[fd] == Socket(sock)
      ensures refs == if fd in files then old(refs)[fd := old(refs)[fd] + 1] else old(refs)
    {
      sock := 0;
      if fd !in files {
        return Some(EINVAL), sock;
      }
      refs := refs[fd := refs[fd] + 1];
      match files[fd]
      case Other => return Some(EBADF), sock;
      case Socket(s) => return None, s;
    }

    /** `vfscore_put_file` on a descriptor that holds a reference. */
    method PutFile(fd: nat)
      requires Valid() && fd in files && refs[fd] > 0
      modifies this
      ensures Valid() && refs == old(refs)[fd := old(refs)[fd] - 1]
    {
      refs := refs[fd := refs[fd] - 1];
    }
  }

  function LookupError(files: map<nat, File>, fd: nat): Option<Errno> {
    if fd !in files then Some(EINVAL) else if files[fd].Other? then Some(EBADF) else None
  }

  class FdSet {
    var bits: set<nat>

    constructor (bits: set<nat>)
      ensures this.bits == bits
    {
      this.bits := bits;
    }
  }

  /** The members of a descriptor set argument; a NULL pointer asks for none. */
  function BitsOf(s: FdSet?): set<nat>
    reads s
  {
    if s == null then {} else s.bits
  }

  function Only(s: FdSet?): set<FdSet> { if s == null then {} else {s} }

  /** The lwIP numbers of the members below `n`, none of which fails its lookup. */
  function Image(files: map<nat, File>, bits: set<nat>, n: nat): set<nat> {
    set i | i in bits && i < n && i in files && files[i].Socket? :: files[i].sock
  }

  /** The members that remain: those lwIP reports, and those at or above `n`, which select does not visit. */
  function Kept(files: map<nat, File>, bits: set<nat>, n: nat, ready: set<nat>): set<nat> {
    set i | i in bits && (i < n ==> i in files && files[i].Socket? && files[i].sock in ready)
  }

  /** The first descriptor below `n`, in numerical order, that is asked for and fails its lookup. */
  ghost predicate FirstBad(files: map<nat, File>, bits: set<nat>, n: nat, fd: nat) {
    && fd < n && fd in bits && LookupError(files, fd).Some?
    && forall i :: i in bits && i < fd ==> LookupError(files, i).None?
  }

  ghost predicate AllSockets(files: map<nat, File>, bits: set<nat>, n: nat) {
    forall i :: i in bits && i < n ==> LookupError(files, i).None?
  }

  /** lwip_select: bound and three sets in, result and three sets out. */
  datatype Ready = Ready(ret: int, rd: set<nat>, wr: set<nat>, xc: set<nat>)

  /** A bound one above the greatest member, or 1. */
  ghost predicate TightBound(all: set<nat>, bound: nat) {
    bound >= 1 && (forall x :: x in all ==> x < bound) && (bound == 1 || bound - 1 in all)
  }

  /** What one set adds at descriptor `i`, and to the greatest number seen. */
  function Added(files: map<nat, File>, bits: set<nat>, i: nat): set<nat> {
    if i in bits && i in files && files[i].Socket? then {files[i].sock} else {}
  }

  function Grown(files: map<nat, File>, bits: set<nat>, i: nat, m: nat): nat {
    if i in bits && i in files && files[i].Socket? && files[i].sock > m then files[i].sock else m
  }

  lemma TightGrows(files: map<nat, File>, bits: set<nat>, i: nat, all: set<nat>, m: nat)
    requires TightBound(all, m + 1)
    ensures TightBound(all + Added(files, bits, i), Grown(files, bits, i, m) + 1)
  {
  }

  lemma TightGrowsAll(files: map<nat, File>, br: set<nat>, bw: set<nat>, bx: set<nat>, i: nat,
                      rd: set<nat>, wr: set<nat>, xc: set<nat>, m: nat)
    requires TightBound(rd + wr + xc, m + 1)
    ensures TightBound((rd + Added(files, br, i)) + (wr + Added(files, bw, i)) + (xc + Added(files, bx, i)),
                       Grown(files, bx, i, Grown(files, bw, i, Grown(files, br, i, m))) + 1)
  {
    var all := rd + wr + xc;
    var ar, aw, ax := Added(files, br, i), Added(files, bw, i), Added(files, bx, i);
    var mr := Grown(files, br, i, m);
    TightGrows(files, br, i, all, m);
    TightGrows(files, bw, i, all + ar, mr);
    TightGrows(files, bx, i, all + ar + aw, Grown(files, bw, i, mr));
    assert (rd + ar) + (wr + aw) + (xc + ax) == all + ar + aw + ax;
  }

  /** First pass, one set at descriptor `i`. */
  method Collect(vfs: Vfs, i: nat, fds: FdSet?, acc: set<nat>, maxfd: nat)
    returns (err: Option<Errno>, acc': set<nat>, maxfd': nat)
    requires vfs.Valid()
    modifies vfs
    ensures vfs.Valid()
    ensures err == if i in BitsOf(fds) then LookupError(vfs.files, i) else None
    ensures vfs.refs == if err.None? then old(vfs.refs) else Leaked(vfs.files, old(vfs.refs), i)
    ensures err.None? ==>
      acc' == acc + Added(vfs.files, BitsOf(fds), i) && maxfd' == Grown(vfs.files, BitsOf(fds), i, maxfd)
  {
    err, acc', maxfd' := None, acc, maxfd;
    if fds != null && i in fds.bits {
      var sock;
      err, sock := vfs.FileGet(i);
      if err.Some? {
        return;
      }
      if maxfd < sock {
        maxfd' := sock;
      }
      acc' := acc + {sock};
      vfs.PutFile(i);
    }
  }

  /** First pass, all three sets at descriptor `i`. */
  method CollectAll(vfs: Vfs, i: nat, r: FdSet?, w: FdSet?, x: FdSet?, rd: set<nat>, wr: set<nat>, xc: set<nat>,
                    maxfd: nat)
    returns (err: Option<Errno>, rd': set<nat>, wr': set<nat>, xc': set<nat>, maxfd': nat)
    requires vfs.Valid() && TightBound(rd + wr + xc, maxfd + 1)
    modifies vfs
    ensures vfs.Valid()
    ensures err == if i in BitsOf(r) + BitsOf(w) + BitsOf(x) then LookupError(vfs.files, i) else None
    ensures vfs.refs == if err.None? then old(vfs.refs) else Leaked(vfs.files, old(vfs.refs), i)
    ensures err.None? ==>
      && rd' == rd + Added(vfs.files, BitsOf(r), i) && wr' == wr + Added(vfs.files, BitsOf(w), i)
      && xc' == xc + Added(vfs.files, BitsOf(x), i)
      && TightBound(rd' + wr' + xc', maxfd' + 1)
  {
    rd', wr', xc', maxfd' := rd, wr, xc, maxfd;
    err, rd', maxfd' := Collect(vfs, i, r, rd, maxfd);
    if err.Some? {
      return;
    }
    err, wr', maxfd' := Collect(vfs, i, w, wr, maxfd');
    if err.Some? {
      return;
    }
    err, xc', maxfd' := Collect(vfs, i, x, xc, maxfd');
    if err.Some? {
      return;
    }
    TightGrowsAll(vfs.files, BitsOf(r), BitsOf(w), BitsOf(x), i, rd, wr, xc, maxfd);
  }

  /** Second pass, one set at descriptor `i`. */
  method Filter(vfs: Vfs, i: nat, fds: FdSet?, ready: set<nat>)
    requires vfs.Valid() && (i in BitsOf(fds) ==> LookupError(vfs.files, i).None?)
    modifies vfs, Only(fds)
    ensures vfs.Valid() && vfs.refs == old(vfs.refs)
    ensures BitsOf(fds) == old(BitsOf(fds))
      - (if i in vfs.files && vfs.files[i].Socket? && vfs.files[i].sock !in ready then {i} else {})
  {
    if fds != null && i in fds.bits {
      var err, sock := vfs.FileGet(i);
      if sock !in ready {
        fds.bits := fds.bits - {i};
      }
      vfs.PutFile(i);
    }
  }

  lemma ImageStep(files: map<nat, File>, bits: set<nat>, n: nat)
    requires n in bits ==> LookupError(files, n).None?
    ensures Image(files, bits, n + 1) == Image(files, bits, n) + Added(files, bits, n)
  {
  }

  /** One more descriptor translated in all three sets. */
  lemma ImagesStep(files: map<nat, File>, br: set<nat>, bw: set<nat>, bx: set<nat>, n: nat)
    requires AllSockets(files, br + bw + bx, n) && (n in br + bw + bx ==> LookupError(files, n).None?)
    ensures AllSockets(files, br + bw + bx, n + 1)
    ensures Image(files, br, n + 1) == Image(files, br, n) + Added(files, br, n)
    ensures Image(files, bw, n + 1) == Image(files, bw, n) + Added(files, bw, n)
    ensures Image(files, bx, n + 1) == Image(files, bx, n) + Added(files, bx, n)
  {
    ImageStep(files, br, n);
    ImageStep(files, bw, n);
    ImageStep(files, bx, n);
  }

  /** References after a failed lookup of `bad`: a descriptor that is not a socket keeps the one it gained. */
  function Leaked(files: map<nat, File>, refs: map<nat, nat>, bad: nat): map<nat, nat>
    requires refs.Keys == files.Keys
  {
    if bad in files then refs[bad := refs[bad] + 1] else refs
  }

  /** First pass over all descriptors below `n`. */
  method Translate(vfs: Vfs, n: nat, r: FdSet?, w: FdSet?, x: FdSet?)
    returns (err: Option<Errno>, ghost bad: nat, rd: set<nat>, wr: set<nat>, xc: set<nat>, maxfd: nat)
    requires vfs.Valid()
    modifies vfs
    ensures vfs.Valid()
    ensures err.None? ==>
      && AllSockets(vfs.files, BitsOf(r) + BitsOf(w) + BitsOf(x), n)
      && rd == Image(vfs.files, BitsOf(r), n) && wr == Image(vfs.files, BitsOf(w), n)
      && xc == Image(vfs.files, BitsOf(x), n)
      && TightBound(rd + wr + xc, maxfd + 1)
      && vfs.refs == old(vfs.refs)
    ensures err.Some? ==>
      && FirstBad(vfs.files, BitsOf(r) + BitsOf(w) + BitsOf(x), n, bad)
      && err == LookupError(vfs.files, bad)
      && vfs.refs == Leaked(vfs.files, old(vfs.refs), bad)
  {
    rd, wr, xc, maxfd, bad, err := {}, {}, {}, 0, 0, None;
    ghost var files, br, bw, bx := vfs.files, BitsOf(r), BitsOf(w), BitsOf(x);
    for i := 0 to n
      invariant vfs.Valid() && vfs.refs == old(vfs.refs) && err.None?
      invariant AllSockets(files, br + bw + bx, i)
      invariant rd == Image(files, br, i) && wr == Image(files, bw, i) && xc == Image(files, bx, i)
      invariant TightBound(rd + wr + xc, maxfd + 1)
    {
      bad := i;
      err, rd, wr, xc, maxfd := CollectAll(vfs, i, r, w, x, rd, wr, xc, maxfd);
      if err.Some? {
        return;
      }
      ImagesStep(files, br, bw, bx, i);
    }
  }

  lemma KeptStep(files: map<nat, File>, bits: set<nat>, n: nat, ready: set<nat>)
    requires n in bits ==> LookupError(files, n).None?
    ensures Kept(files, bits, n + 1, ready)
      == Kept(files, bits, n, ready) - (if n in files && files[n].Socket? && files[n].sock !in ready then {n} else {})
  {
  }

  /** Second pass over all descriptors below `n`. */
  method TranslateBack(vfs: Vfs, n: nat, r: FdSet?, w: FdSet?, x: FdSet?, q: Ready)
    requires vfs.Valid() && AllSockets(vfs.files, BitsOf(r) + BitsOf(w) + BitsOf(x), n)
    requires (r != null ==> r != w && r != x) && (w != null ==> w != x)
    modifies vfs, Only(r) + Only(w) + Only(x)
    ensures vfs.Valid() && vfs.refs == old(vfs.refs)
    ensures BitsOf(r) == Kept(vfs.files, old(BitsOf(r)), n, q.rd)
    ensures BitsOf(w) == Kept(vfs.files, old(BitsOf(w)), n, q.wr)
    ensures BitsOf(x) == Kept(vfs.files, old(BitsOf(x)), n, q.xc)
  {
    ghost var files, br, bw, bx := vfs.files, BitsOf(r), BitsOf(w), BitsOf(x);
    for i := 0 to n
      invariant vfs.Valid() && vfs.refs == old(vfs.refs)
      invariant BitsOf(r) == Kept(files, br, i, q.rd)
      invariant BitsOf(w) == Kept(files, bw, i, q.wr)
      invariant BitsOf(x) == Kept(files, bx, i, q.xc)
    {
      Filter(vfs, i, r, q.rd);
      Filter(vfs, i, w, q.wr);
      Filter(vfs, i, x, q.xc);
      KeptStep(files, br, i, q.rd);
      KeptStep(files, bw, i, q.wr);
      KeptStep(files, bx, i, q.xc);
    }
  }

  /** `select` from the translation on, over the descriptors below `n`. `asked` is what lwIP is given. */
  method SelectBelow(vfs: Vfs, n: nat, r: FdSet?, w: FdSet?, x: FdSet?,
                     lwip: (nat, set<nat>, set<nat>, set<nat>) -> Ready)
    returns (ret: int, errno: Option<Errno>, ghost bad: nat, ghost asked: Question)
    requires vfs.Valid()
    requires (r != null ==> r != w && r != x) && (w != null ==> w != x)
    modifies vfs, Only(r) + Only(w) + Only(x)
    ensures vfs.Valid()
    ensures errno.Some? ==>
      && ret == -1
      && FirstBad(vfs.files, old(BitsOf(r) + BitsOf(w) + BitsOf(x)), n, bad)
      && errno == LookupError(vfs.files, bad)
      && vfs.refs == Leaked(vfs.files, old(vfs.refs), bad)
    ensures errno.None? ==>
      && AllSockets(vfs.files, old(BitsOf(r) + BitsOf(w) + BitsOf(x)), n)
      && vfs.refs == old(vfs.refs)
      && asked.rd == Image(vfs.files, old(BitsOf(r)), n) && asked.wr == Image(vfs.files, old(BitsOf(w)), n)
      && asked.xc == Image(vfs.files, old(BitsOf(x)), n)
      && TightBound(asked.rd + asked.wr + asked.xc, asked.bound)
      && ret == lwip(asked.bound, asked.rd, asked.wr, asked.xc).ret
    ensures errno.Some? || ret < 0 ==>
      BitsOf(r) == old(BitsOf(r)) && BitsOf(w) == old(BitsOf(w)) && BitsOf(x) == old(BitsOf(x))
    ensures errno.None? && ret >= 0 ==>
      var q := lwip(asked.bound, asked.rd, asked.wr, asked.xc);
      && BitsOf(r) == Kept(vfs.files, old(BitsOf(r)), n, q.rd)
      && BitsOf(w) == Kept(vfs.files, old(BitsOf(w)), n, q.wr)
      && BitsOf(x) == Kept(vfs.files, old(BitsOf(x)), n, q.xc)
  {
    var rd, wr, xc, maxfd;
    errno, bad, rd, wr, xc, maxfd := Translate(vfs, n, r, w, x);
    asked := Question(maxfd + 1, rd, wr, xc);
    if errno.Some? {
      return -1, errno, bad, asked;
    }
    var q := lwip(maxfd + 1, rd, wr, xc);
    if q.ret >= 0 {
      TranslateBack(vfs, n, r, w, x, q);
    }
    return q.ret, None, bad, asked;
  }

  /** The image and what is kept of one set, descriptor by descriptor. */
  lemma SetMeans(files: map<nat, File>, bits: set<nat>, nfds: int, n: nat, ready: set<nat>)
    requires AllSockets(files, bits, n) && n == if nfds > 0 then nfds else 0
    ensures forall i :: i in bits && i < nfds ==> i in files && files[i].Socket?
    ensures forall k :: k in Image(files, bits, n) <==> exists i :: i in bits && i < nfds && files[i] == Socket(k)
    ensures forall i :: i in Kept(files, bits, n, ready) <==> i in bits && (i < nfds ==> files[i].sock in ready)
  {
    forall i | i in bits && i < n ensures i in files && files[i].Socket? {
      assert LookupError(files, i).None?;
    }
  }

  /** What lwIP is given. */
  datatype Question = Question(bound: nat, rd: set<nat>, wr: set<nat>, xc: set<nat>)

  /** `select`, in the build without generic descriptors, spelled out descriptor by descriptor. */
  method Select(vfs: Vfs, nfds: int, r: FdSet?, w: FdSet?, x: FdSet?, hasTimeout: bool,
                lwip: (nat, set<nat>, set<nat>, set<nat>) -> Ready)
    returns (ret: int, errno: Option<Errno>, ghost bad: nat, ghost asked: Question)
    requires vfs.Valid()
    requires (r != null ==> r != w && r != x) && (w != null ==> w != x)
    modifies vfs, Only(r) + Only(w) + Only(x)
    ensures vfs.Valid()
    // only a sleep
    ensures nfds == 0 && hasTimeout ==> ret == 0 && errno.None? && vfs.refs == old(vfs.refs)
    // the first bad descriptor decides, and no set changes
    ensures errno.Some? ==>
      && ret == -1
      && bad in old(BitsOf(r) + BitsOf(w) + BitsOf(x)) && bad < nfds
      && (if bad !in vfs.files then errno == Some(EINVAL) && vfs.refs == old(vfs.refs)
          else vfs.files[bad] == Other && errno == Some(EBADF)
               && vfs.refs == old(vfs.refs)[bad := old(vfs.refs)[bad] + 1])
      && forall i :: i in old(BitsOf(r) + BitsOf(w) + BitsOf(x)) && i < bad ==> i in vfs.files && vfs.files[i].Socket?
    ensures errno.None? ==>
      && vfs.refs == old(vfs.refs)
      && forall i :: i in old(BitsOf(r) + BitsOf(w) + BitsOf(x)) && i < nfds ==>
           i in vfs.files && vfs.files[i].Socket?
    ensures errno.Some? || (nfds == 0 && hasTimeout) || ret < 0 ==>
      BitsOf(r) == old(BitsOf(r)) && BitsOf(w) == old(BitsOf(w)) && BitsOf(x) == old(BitsOf(x))
    // what lwIP is asked
    ensures errno.None? && !(nfds == 0 && hasTimeout) ==>
      && ret == lwip(asked.bound, asked.rd, asked.wr, asked.xc).ret
      && (forall k :: k in asked.rd <==> exists i :: i in old(BitsOf(r)) && i < nfds && vfs.files[i] == Socket(k))
      && (forall k :: k in asked.wr <==> exists i :: i in old(BitsOf(w)) && i < nfds && vfs.files[i] == Socket(k))
      && (forall k :: k in asked.xc <==> exists i :: i in old(BitsOf(x)) && i < nfds && vfs.files[i] == Socket(k))
      && asked.bound >= 1 && (forall k :: k in asked.rd + asked.wr + asked.xc ==> k < asked.bound)
      && (asked.bound == 1 || asked.bound - 1 in asked.rd + asked.wr + asked.xc)
    // what remains of each set
    ensures errno.None? && !(nfds == 0 && hasTimeout) && ret >= 0 ==>
      var q := lwip(asked.bound, asked.rd, asked.wr, asked.xc);
      && (forall i :: i in BitsOf(r) <==> i in old(BitsOf(r)) && (i < nfds ==> vfs.files[i].sock in q.rd))
      && (forall i :: i in BitsOf(w) <==> i in old(BitsOf(w)) && (i < nfds ==> vfs.files[i].sock in q.wr))
      && (forall i :: i in BitsOf(x) <==> i in old(BitsOf(x)) && (i < nfds ==> vfs.files[i].sock in q.xc))
  {
    if nfds == 0 && hasTimeout {
      return 0, None, 0, Question(0, {}, {}, {});
    }
    var n: nat := if nfds > 0 then nfds else 0;
    ret, errno, bad, asked := SelectBelow(vfs, n, r, w, x, lwip);
    if errno.None? {
      ghost var q := lwip(asked.bound, asked.rd, asked.wr, asked.xc);
      SetMeans(vfs.files, old(BitsOf(r)), nfds, n, q.rd);
      SetMeans(vfs.files, old(BitsOf(w)), nfds, n, q.wr);
      SetMeans(vfs.files, old(BitsOf(x)), nfds, n, q.xc);
    }
  }

  /** There and back: the sockets of the returned set are exactly the asked-for sockets that are ready. */
  lemma KeptImage(files: map<nat, File>, bits: set<nat>, n: nat, ready: set<nat>)
    ensures Image(files, Kept(files, bits, n, ready), n) == Image(files, bits, n) * ready
  {
  }

  /** If everything asked for is ready, the set comes back as it was given, and never with a new member. */
  lemma KeptAll(files: map<nat, File>, bits: set<nat>, n: nat, ready: set<nat>)
    requires AllSockets(files, bits, n)
    ensures Kept(files, bits, n, ready) <= bits
    ensures Kept(files, bits, n, ready) == bits <==> Image(files, bits, n) <= ready
  {
  }
}
