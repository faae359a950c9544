/** Creating and closing socket descriptors: up to six resources are acquired, and unwound when a step fails. */
module SocketAlloc {

  type Id = nat

  /** `sock_net_file`, `vfscore_file` and `vnode`. Identifiers stand for pointers. */
  datatype SockFile = SockFile(vfs: Id, sock: nat)
  datatype VfsFile = VfsFile(fd: nat, count: nat, data: Id, dentry: Id)
  datatype Vnode = Vnode(refs: nat, data: Id)

  /** The live resources: reserved descriptor numbers, what is installed under them, socket files, vfs files,
      vnodes by inode number, dentries with the inode they refer to, and lwIP sockets. */
  datatype World = World(
    fds: set<nat>,
    installed: map<nat, Id>,
    sockFiles: map<Id, SockFile>,
    vfsFiles: map<Id, VfsFile>,
    vnodes: map<nat, Vnode>,
    dentries: map<Id, nat>,
    lwip: set<nat>)

  /** The socket file, vfs file, dentry and inode of one descriptor. */
  datatype Parts = Parts(file: Id, vfs: Id, dentry: Id, ino: nat)

  function PartsOf(w: World, v: Id): Parts
    requires v in w.vfsFiles && w.vfsFiles[v].dentry in w.dentries
  {
    Parts(w.vfsFiles[v].data, v, w.vfsFiles[v].dentry, w.dentries[w.vfsFiles[v].dentry])
  }

  /** From a descriptor down to its vnode, which only its dentry holds. */
  ghost predicate LinksDown(w: World) {
    && w.installed.Keys <= w.fds
    && (forall fd :: fd in w.installed ==> w.installed[fd] in w.vfsFiles && w.vfsFiles[w.installed[fd]].fd == fd)
    && (forall v :: v in w.vfsFiles ==>
          && w.vfsFiles[v].fd in w.installed && w.installed[w.vfsFiles[v].fd] == v
          && w.vfsFiles[v].count == 1
          && w.vfsFiles[v].data in w.sockFiles && w.sockFiles[w.vfsFiles[v].data].vfs == v
          && w.vfsFiles[v].dentry in w.dentries
          && w.dentries[w.vfsFiles[v].dentry] in w.vnodes
          && w.vnodes[w.dentries[w.vfsFiles[v].dentry]] == Vnode(1, w.vfsFiles[v].data))
  }

  /** From a socket file back up: none is orphaned, and no two have one lwIP socket. */
  ghost predicate FilesUp(w: World) {
    && (forall f :: f in w.sockFiles ==>
          && w.sockFiles[f].vfs in w.vfsFiles && w.vfsFiles[w.sockFiles[f].vfs].data == f
          && w.sockFiles[f].sock in w.lwip)
    && (forall f, g :: f in w.sockFiles && g in w.sockFiles && w.sockFiles[f].sock == w.sockFiles[g].sock ==> f == g)
  }

  /** From every vnode and dentry back up. */
  ghost predicate NodesUp(w: World)
    requires LinksDown(w) && FilesUp(w)
  {
    && (forall i :: i in w.vnodes ==>
          && w.vnodes[i].data in w.sockFiles
          && w.dentries[w.vfsFiles[w.sockFiles[w.vnodes[i].data].vfs].dentry] == i)
    && (forall d :: d in w.dentries ==>
          && w.dentries[d] in w.vnodes
          && w.vfsFiles[w.sockFiles[w.vnodes[w.dentries[d]].data].vfs].dentry == d)
  }

  /** Everything belongs to exactly one installed descriptor. */
  ghost predicate Linked(w: World) { LinksDown(w) && FilesUp(w) && NodesUp(w) }

  /** Nothing of `p` or `fd` is in use. */
  ghost predicate Unused(w: World, fd: nat, p: Parts) {
    fd !in w.fds && p.file !in w.sockFiles && p.vfs !in w.vfsFiles && p.dentry !in w.dentries && p.ino !in w.vnodes
  }

  /** One descriptor more: one of each resource, the vnode held once. */
  function Opened(w: World, fd: nat, p: Parts, sock: nat): World {
    World(w.fds + {fd}, w.installed[fd := p.vfs],
          w.sockFiles[p.file := SockFile(p.vfs, sock)],
          w.vfsFiles[p.vfs := VfsFile(fd, 1, p.file, p.dentry)],
          w.vnodes[p.ino := Vnode(1, p.file)], w.dentries[p.dentry := p.ino], w.lwip)
  }

  /** `fd` is made of the parts `p`, and its vnode is held once. */
  ghost predicate Mounted(w: World, fd: nat, p: Parts) {
    && fd in w.installed && w.installed[fd] == p.vfs && p.vfs in w.vfsFiles
    && w.vfsFiles[p.vfs].data == p.file && w.vfsFiles[p.vfs].dentry == p.dentry
    && p.file in w.sockFiles && p.dentry in w.dentries && w.dentries[p.dentry] == p.ino
    && p.ino in w.vnodes && w.vnodes[p.ino] == Vnode(1, p.file)
    && fd in w.fds && w.sockFiles[p.file].sock in w.lwip
  }

  /** One descriptor less. */
  function Closed(w: World, fd: nat): World
    requires fd in w.installed && w.installed[fd] in w.vfsFiles
    requires w.vfsFiles[w.installed[fd]].dentry in w.dentries && w.vfsFiles[w.installed[fd]].data in w.sockFiles
  {
    var v := w.installed[fd];
    var p := PartsOf(w, v);
    World(w.fds - {fd}, w.installed - {fd}, w.sockFiles - {p.file}, w.vfsFiles - {v},
          w.vnodes - {p.ino}, w.dentries - {p.dentry}, w.lwip - {w.sockFiles[p.file].sock})
  }

  lemma OpenedDown(w: World, fd: nat, p: Parts, sock: nat)
    requires Linked(w) && Unused(w, fd, p)
    ensures LinksDown(Opened(w, fd, p, sock))
  {
  }

  lemma OpenedFilesUp(w: World, fd: nat, p: Parts, sock: nat)
    requires LinksDown(w) && Unused(w, fd, p)
    requires FilesUp(w) && sock in w.lwip && forall f :: f in w.sockFiles ==> w.sockFiles[f].sock != sock
    ensures FilesUp(Opened(w, fd, p, sock))
  {
  }

  lemma OpenedNodesUp(w: World, fd: nat, p: Parts, sock: nat)
    requires Linked(w) && Unused(w, fd, p)
    requires LinksDown(Opened(w, fd, p, sock)) && FilesUp(Opened(w, fd, p, sock))
    ensures NodesUp(Opened(w, fd, p, sock))
  {
  }

  /** Opening keeps everything linked. */
  lemma OpenedLinked(w: World, fd: nat, p: Parts, sock: nat)
    requires Linked(w) && Unused(w, fd, p) && sock !in w.lwip
    ensures Linked(Opened(w.(lwip := w.lwip + {sock}), fd, p, sock))
  {
    var u := w.(lwip := w.lwip + {sock});
    OpenedDown(u, fd, p, sock);
    OpenedFilesUp(u, fd, p, sock);
    OpenedNodesUp(u, fd, p, sock);
  }

  /** The lwIP socket a descriptor leads to. */
  function SockOf(w: World, fd: nat): nat
    requires LinksDown(w) && fd in w.installed
  {
    w.sockFiles[w.vfsFiles[w.installed[fd]].data].sock
  }

  /** The new descriptor leads to its lwIP socket, and all others lead where they did. */
  lemma OpenedLeadsTo(w: World, fd: nat, p: Parts, sock: nat, g: nat)
    requires Linked(w) && Unused(w, fd, p) && sock !in w.lwip
    ensures var u := Opened(w.(lwip := w.lwip + {sock}), fd, p, sock);
      && LinksDown(u) && u.installed.Keys == w.installed.Keys + {fd} && SockOf(u, fd) == sock
      && (g in w.installed ==> SockOf(u, g) == SockOf(w, g))
  {
    OpenedDown(w.(lwip := w.lwip + {sock}), fd, p, sock);
  }

  lemma OneMore<X, Y>(m: map<X, Y>, x: X, y: Y)
    requires x !in m
    ensures |m[x := y]| == |m| + 1
  {
    assert m[x := y].Keys == m.Keys + {x};
  }

  /** There is one of each part more. */
  lemma OpenedCounts(w: World, fd: nat, p: Parts, sock: nat)
    requires Unused(w, fd, p) && sock !in w.lwip
    ensures var u := Opened(w.(lwip := w.lwip + {sock}), fd, p, sock);
      && u.lwip == w.lwip + {sock} && u.fds == w.fds + {fd}
      && |u.sockFiles| == |w.sockFiles| + 1 && |u.vfsFiles| == |w.vfsFiles| + 1
      && |u.vnodes| == |w.vnodes| + 1 && |u.dentries| == |w.dentries| + 1
  {
    OneMore(w.sockFiles, p.file, SockFile(p.vfs, sock));
    OneMore(w.vfsFiles, p.vfs, VfsFile(fd, 1, p.file, p.dentry));
    OneMore(w.vnodes, p.ino, Vnode(1, p.file));
    OneMore(w.dentries, p.dentry, p.ino);
  }

  lemma ClosedDown(w: World, fd: nat)
    requires Linked(w) && fd in w.installed
    ensures LinksDown(Closed(w, fd))
  {
  }

  /** Closing keeps everything linked: it orphans nothing. */
  lemma ClosedLinked(w: World, fd: nat)
    requires Linked(w) && fd in w.installed
    ensures Linked(Closed(w, fd))
  {
    ClosedDown(w, fd);
  }

  /** The closed descriptor and its lwIP socket are gone, and all other descriptors lead where they did. */
  lemma ClosedLeadsTo(w: World, fd: nat)
    requires Linked(w) && fd in w.installed
    ensures var u := Closed(w, fd);
      && LinksDown(u) && u.installed.Keys == w.installed.Keys - {fd} && u.lwip == w.lwip - {SockOf(w, fd)}
      && fd !in u.fds
      && forall g :: g in u.installed ==> SockOf(u, g) == SockOf(w, g)
  {
    ClosedLinked(w, fd);
  }

  /** Closing what was just opened restores every resource. */
  lemma CloseUndoesOpen(w: World, fd: nat, p: Parts, sock: nat)
    requires Linked(w) && Unused(w, fd, p) && sock !in w.lwip
    ensures Closed(Opened(w.(lwip := w.lwip + {sock}), fd, p, sock), fd) == w
  {
    assert w.fds + {fd} - {fd} == w.fds && w.lwip + {sock} - {sock} == w.lwip;
    assert w.installed[fd := p.vfs] - {fd} == w.installed;
    assert w.sockFiles[p.file := SockFile(p.vfs, sock)] - {p.file} == w.sockFiles;
    assert w.vfsFiles[p.vfs := VfsFile(fd, 1, p.file, p.dentry)] - {p.vfs} == w.vfsFiles;
    assert w.vnodes[p.ino := Vnode(1, p.file)] - {p.ino} == w.vnodes;
    assert w.dentries[p.dentry := p.ino] - {p.dentry} == w.dentries;
  }

  /** A file's reference count changed by `d`. */
  function Recounted(w: World, v: Id, d: int): World
    requires v in w.vfsFiles && w.vfsFiles[v].count + d >= 0
  {
    w.(vfsFiles := w.vfsFiles[v := w.vfsFiles[v].(count := w.vfsFiles[v].count + d)])
  }

  /** Counting a file up and down, also around the opening of another, leaves no trace. */
  lemma CountRestored(w: World, v: Id, fd: nat, p: Parts, sock: nat, lwip: set<nat>)
    requires v in w.vfsFiles && p.vfs != v
    ensures Recounted(Recounted(w, v, 1), v, -1) == w
    ensures Recounted(Opened(Recounted(w, v, 1).(lwip := lwip), fd, p, sock), v, -1)
      == Opened(w.(lwip := lwip), fd, p, sock)
  {
  }

  // ---- In place ----

  /** errno values, negated as the code returns them. */
  const ENFILE: int := -23
  const ENOMEM: int := -12
  const EINVAL: int := -22

  /** What the environment answers during one descriptor allocation: a free number or a negative value from
      vfscore_alloc_fd, whether each allocation succeeds, and the result of vfscore_install_fd. */
  datatype Env = Env(fd: int, file: bool, vfs: bool, vnode: bool, dentry: bool, install: int)

  /** The labels an allocation can jump to when a step fails, by what is held there: the number, the socket
      file, the vfs file, the vnode, the dentry. */
  const ERR_MALLOC_FILE: nat := 1
  const ERR_MALLOC_VFS_FILE: nat := 2
  const ERR_ALLOC_VNODE: nat := 3
  const ERR_ALLOC_DENTRY: nat := 4
  const ERR_VFS_INSTALL: nat := 5

  /** What is held on top of `w` at the label `at`. */
  function Held(w: World, at: nat, fd: nat, p: Parts, sock: nat): World {
    match at
    case 0 => w
    case 1 => w.(fds := w.fds + {fd})
    case 2 => w.(fds := w.fds + {fd}, sockFiles := w.sockFiles[p.file := SockFile(0, 0)])
    case 3 => w.(fds := w.fds + {fd}, sockFiles := w.sockFiles[p.file := SockFile(0, 0)],
                 vfsFiles := w.vfsFiles[p.vfs := VfsFile(0, 0, 0, 0)])
    case 4 => w.(fds := w.fds + {fd}, sockFiles := w.sockFiles[p.file := SockFile(0, 0)],
                 vfsFiles := w.vfsFiles[p.vfs := VfsFile(0, 0, 0, 0)], vnodes := w.vnodes[p.ino := Vnode(1, 0)])
    case _ => w.(fds := w.fds + {fd}, sockFiles := w.sockFiles[p.file := SockFile(p.vfs, sock)],
                 vfsFiles := w.vfsFiles[p.vfs := VfsFile(fd, 1, p.file, p.dentry)],
                 vnodes := w.vnodes[p.ino := Vnode(2, p.file)], dentries := w.dentries[p.dentry := p.ino])
  }

  /** The vnode is live with the references held at the label `at`, and so is the dentry. */
  ghost predicate NodesLive(w: World, at: nat, p: Parts) {
    && (at >= ERR_ALLOC_DENTRY ==> p.ino in w.vnodes && w.vnodes[p.ino].refs == if at >= ERR_VFS_INSTALL then 2 else 1)
    && (at >= ERR_VFS_INSTALL ==> p.dentry in w.dentries && w.dentries[p.dentry] == p.ino)
  }

  /** So are the files and the number. */
  ghost predicate FilesLive(w: World, at: nat, fd: nat, p: Parts) {
    && (at >= ERR_ALLOC_VNODE ==> p.vfs in w.vfsFiles)
    && (at >= ERR_MALLOC_VFS_FILE ==> p.file in w.sockFiles)
    && (at >= ERR_MALLOC_FILE ==> fd in w.fds)
  }

  /** What the error labels from `at` on leave. */
  function Released(w: World, at: nat, fd: nat, p: Parts): World {
    World(
      if at >= ERR_MALLOC_FILE then w.fds - {fd} else w.fds,
      w.installed,
      if at >= ERR_MALLOC_VFS_FILE then w.sockFiles - {p.file} else w.sockFiles,
      if at >= ERR_ALLOC_VNODE then w.vfsFiles - {p.vfs} else w.vfsFiles,
      if at >= ERR_ALLOC_DENTRY then w.vnodes - {p.ino} else w.vnodes,
      if at >= ERR_VFS_INSTALL then w.dentries - {p.dentry} else w.dentries,
      w.lwip)
  }

  lemma Overwritten<X, Y>(m: map<X, Y>, x: X, y: Y, z: Y)
    ensures m[x := y][x := z] == m[x := z]
  {
  }

  lemma Dropped<X, Y>(m: map<X, Y>, x: X, y: Y)
    requires x !in m
    ensures m[x := y] - {x} == m
  {
  }

  /** At every label, releasing what is held there gives back the world before. */
  lemma HeldReleased(w: World, at: nat, fd: nat, p: Parts, sock: nat)
    requires at <= ERR_VFS_INSTALL && Unused(w, fd, p)
    ensures Released(Held(w, at, fd, p, sock), at, fd, p) == w
  {
    assert w.fds + {fd} - {fd} == w.fds;
    Dropped(w.sockFiles, p.file, SockFile(0, 0));
    Dropped(w.sockFiles, p.file, SockFile(p.vfs, sock));
    Dropped(w.vfsFiles, p.vfs, VfsFile(0, 0, 0, 0));
    Dropped(w.vfsFiles, p.vfs, VfsFile(fd, 1, p.file, p.dentry));
    Dropped(w.vnodes, p.ino, Vnode(1, 0));
    Dropped(w.vnodes, p.ino, Vnode(2, p.file));
    Dropped(w.dentries, p.dentry, p.ino);
  }

  /** The result the environment's answers lead to. */
  function Verdict(e: Env): int {
    if e.fd < 0 then ENFILE
    else if !e.file || !e.vfs || !e.vnode || !e.dentry then ENOMEM
    else if e.install != 0 then e.install
    else e.fd
  }

  /** One reference less on a vnode; the last one frees it. */
  function Unreferenced(vnodes: map<nat, Vnode>, ino: nat): map<nat, Vnode>
    requires ino in vnodes && vnodes[ino].refs > 0
  {
    if vnodes[ino].refs == 1 then vnodes - {ino} else vnodes[ino := Vnode(vnodes[ino].refs - 1, vnodes[ino].data)]
  }

  class Sockets {
    var w: World
    var sInode: nat
    var nextId: Id
    ghost var inodes: seq<nat>  // every inode number handed out, oldest first

    /** Linked up, with all identifiers and inode numbers in use below the counters, and no inode number ever
        handed out twice. */
    ghost predicate Valid()
      reads this
    {
      Linked(w) && Numbered()
    }

    ghost predicate Numbered()
      reads this
    {
      && (forall i :: i in w.sockFiles || i in w.vfsFiles || i in w.dentries ==> i < nextId)
      && (forall i :: i in w.vnodes ==> i < sInode)
      && (forall i :: 0 <= i < |inodes| ==> inodes[i] < sInode)
      && (forall i, j :: 0 <= i < j < |inodes| ==> inodes[i] < inodes[j])
    }

    constructor ()
      ensures Valid() && w == World({}, map[], map[], map[], map[], map[], {}) && sInode == 0 && inodes == []
    {
      w := World({}, map[], map[], map[], map[], map[], {});
      sInode := 0;
      nextId := 0;
      inodes := [];
    }

    // Each acquisition needs the resource to be free and each release needs it to be live, so neither can happen
    // twice in a row.

    /** vfscore_alloc_fd: reserves a number. */
    method AllocFd(fd: nat)
      requires fd !in w.fds
      modifies this`w
      ensures w == old(w).(fds := old(w.fds) + {fd})
    {
      w := w.(fds := w.fds + {fd});
    }

    /** uk_calloc of a socket file. */
    method AllocFile(file: Id)
      requires file !in w.sockFiles
      modifies this`w
      ensures w == old(w).(sockFiles := old(w.sockFiles)[file := SockFile(0, 0)])
    {
      w := w.(sockFiles := w.sockFiles[file := SockFile(0, 0)]);
    }

    /** uk_calloc of a vfs file. */
    method AllocVfsFile(vfs: Id)
      requires vfs !in w.vfsFiles
      modifies this`w
      ensures w == old(w).(vfsFiles := old(w.vfsFiles)[vfs := VfsFile(0, 0, 0, 0)])
    {
      w := w.(vfsFiles := w.vfsFiles[vfs := VfsFile(0, 0, 0, 0)]);
    }

    /** vfscore_vget of an inode that is not in the cache, as the program asserts; `ok` tells whether there is memory
        for it. The number is used up either way. */
    method Vget(ok: bool)
      requires sInode !in w.vnodes
      modifies this`w, this`sInode, this`inodes
      ensures w == if ok then old(w).(vnodes := old(w.vnodes)[old(sInode) := Vnode(1, 0)]) else old(w)
      ensures sInode == old(sInode) + 1 && inodes == old(inodes) + [old(sInode)]
    {
      if ok {
        w := w.(vnodes := w.vnodes[sInode := Vnode(1, 0)]);
      }
      inodes := inodes + [sInode];
      sInode := sInode + 1;
    }

    /** dentry_alloc: the dentry takes a reference on its vnode. */
    method DentryAlloc(dentry: Id, ino: nat)
      requires dentry !in w.dentries && ino in w.vnodes
      modifies this`w
      ensures w == old(w).(dentries := old(w.dentries)[dentry := ino],
                           vnodes := old(w.vnodes)[ino := Vnode(old(w.vnodes[ino].refs) + 1, old(w.vnodes[ino].data))])
    {
      var n := w.vnodes[ino];
      w := w.(dentries := w.dentries[dentry := ino], vnodes := w.vnodes[ino := n.(refs := n.refs + 1)]);
    }

    /** vrele: drops a reference; the last one frees the vnode. */
    method Vrele(ino: nat)
      requires ino in w.vnodes && w.vnodes[ino].refs > 0
      modifies this`w
      ensures w == old(w).(vnodes := Unreferenced(old(w.vnodes), ino))
    {
      var n := w.vnodes[ino];
      if n.refs == 1 {
        w := w.(vnodes := w.vnodes - {ino});
      } else {
        w := w.(vnodes := w.vnodes[ino := n.(refs := n.refs - 1)]);
      }
    }

    /** drele: frees the dentry, which drops its reference on the vnode. */
    method Drele(dentry: Id)
      requires dentry in w.dentries && w.dentries[dentry] in w.vnodes && w.vnodes[w.dentries[dentry]].refs > 0
      modifies this`w
      ensures var ino := old(w.dentries[dentry]);
        w == old(w).(dentries := old(w.dentries) - {dentry}, vnodes := Unreferenced(old(w.vnodes), ino))
    {
      var ino := w.dentries[dentry];
      w := w.(dentries := w.dentries - {dentry});
      Vrele(ino);
    }

    /** uk_free of a socket file. */
    method FreeFile(file: Id)
      requires file in w.sockFiles
      modifies this`w
      ensures w == old(w).(sockFiles := old(w.sockFiles) - {file})
    {
      w := w.(sockFiles := w.sockFiles - {file});
    }

    /** uk_free of a vfs file. */
    method FreeVfsFile(vfs: Id)
      requires vfs in w.vfsFiles
      modifies this`w
      ensures w == old(w).(vfsFiles := old(w.vfsFiles) - {vfs})
    {
      w := w.(vfsFiles := w.vfsFiles - {vfs});
    }

    /** vfscore_put_fd of a reserved number. */
    method PutFd(fd: nat)
      requires fd in w.fds
      modifies this`w
      ensures w == old(w).(fds := old(w.fds) - {fd})
    {
      w := w.(fds := w.fds - {fd});
    }

    /** What is installed under a number is forgotten. */
    method Uninstall(fd: nat)
      requires fd in w.installed
      modifies this`w
      ensures w == old(w).(installed := old(w.installed) - {fd})
    {
      w := w.(installed := w.installed - {fd});
    }

    /** lwip_close of an open lwIP socket. */
    method LwipClose(sock: nat)
      requires sock in w.lwip
      modifies this`w
      ensures w == old(w).(lwip := old(w.lwip) - {sock})
    {
      w := w.(lwip := w.lwip - {sock});
    }

    /** The labels that give up the dentry, which holds one reference on the vnode, and our own reference. */
    method UnwindVnode(at: nat, p: Parts)
      requires NodesLive(w, at, p)
      modifies this`w
      ensures w == old(w).(dentries := if at >= ERR_VFS_INSTALL then old(w.dentries) - {p.dentry} else old(w.dentries),
                           vnodes := if at >= ERR_ALLOC_DENTRY then old(w.vnodes) - {p.ino} else old(w.vnodes))
    {
      if at >= ERR_VFS_INSTALL {
        Drele(p.dentry);
      }
      if at >= ERR_ALLOC_DENTRY {
        Vrele(p.ino);
        assert w.vnodes == old(w.vnodes) - {p.ino};
      }
    }

    /** The error labels of `sock_fd_alloc`, falling through in reverse order of acquisition. */
    method Unwind(at: nat, fd: nat, p: Parts)
      requires NodesLive(w, at, p) && FilesLive(w, at, fd, p)
      modifies this`w
      ensures w == Released(old(w), at, fd, p)
    {
      UnwindVnode(at, p);
      if at >= ERR_ALLOC_VNODE {
        FreeVfsFile(p.vfs);
      }
      if at >= ERR_MALLOC_VFS_FILE {
        FreeFile(p.file);
      }
      if at >= ERR_MALLOC_FILE {
        PutFd(fd);
      }
    }

    /** The acquiring part of `sock_fd_alloc`, up to the install; it stops at the first failure. */
    method Acquire(sock: nat, e: Env, p: Parts) returns (at: nat, ret: int)
      requires e.fd >= 0 && e.install <= 0 && p.ino == sInode && Unused(w, e.fd, p)
      modifies this`w, this`sInode, this`inodes
      ensures 1 <= at <= ERR_VFS_INSTALL && ret == (if at < ERR_VFS_INSTALL then ENOMEM else e.install)
      ensures ret == 0 <==> Verdict(e) == e.fd
      ensures ret != 0 ==> ret == Verdict(e) < 0
      ensures w == Held(old(w), at, e.fd, p, sock)
      ensures if at < ERR_ALLOC_VNODE then sInode == old(sInode) && inodes == old(inodes)
              else sInode == old(sInode) + 1 && inodes == old(inodes) + [old(sInode)]
    {
      AllocFd(e.fd);
      if !e.file {
        return ERR_MALLOC_FILE, ENOMEM;
      }
      AllocFile(p.file);
      if !e.vfs {
        return ERR_MALLOC_VFS_FILE, ENOMEM;
      }
      AllocVfsFile(p.vfs);
      Vget(e.vnode);
      if !e.vnode {
        return ERR_ALLOC_VNODE, ENOMEM;
      }
      if !e.dentry {
        return ERR_ALLOC_DENTRY, ENOMEM;
      }
      DentryAlloc(p.dentry, p.ino);
      w := w.(vfsFiles := w.vfsFiles[p.vfs := VfsFile(e.fd, 1, p.file, p.dentry)],
              vnodes := w.vnodes[p.ino := Vnode(2, p.file)],
              sockFiles := w.sockFiles[p.file := SockFile(p.vfs, sock)]);
      Overwritten(old(w.vnodes), p.ino, Vnode(1, 0), Vnode(2, 0));
      Overwritten(old(w.vnodes), p.ino, Vnode(2, 0), Vnode(2, p.file));
      Overwritten(old(w.vfsFiles), p.vfs, VfsFile(0, 0, 0, 0), VfsFile(e.fd, 1, p.file, p.dentry));
      Overwritten(old(w.sockFiles), p.file, SockFile(0, 0), SockFile(p.vfs, sock));
      return ERR_VFS_INSTALL, e.install;
    }

    /** `sock_fd_alloc`: whichever step fails, everything acquired is released; otherwise there is exactly one
        of each resource more, and the vnode is held once. */
    method FdAlloc(sock: nat, e: Env) returns (ret: int, ghost p: Parts)
      requires Numbered()
      requires e.fd >= 0 ==> e.fd !in w.fds
      requires e.install <= 0
      modifies this
      ensures ret == Verdict(e)
      ensures e.fd < 0 ==> ret == -23
      ensures e.fd >= 0 && !(e.file && e.vfs && e.vnode && e.dentry) ==> ret == -12
      ensures e.fd >= 0 && e.file && e.vfs && e.vnode && e.dentry ==> ret == if e.install != 0 then e.install else e.fd
      ensures ret < 0 ==> w == old(w)
      ensures ret >= 0 ==> Unused(old(w), ret, p) && w == Opened(old(w), ret, p, sock)
      ensures Numbered() && sInode >= old(sInode)
      ensures inodes == old(inodes) || inodes == old(inodes) + [old(sInode)]
      ensures ret >= 0 ==> p.ino == old(sInode) && inodes == old(inodes) + [p.ino]
    {
      var parts := Parts(nextId, nextId + 1, nextId + 2, sInode);
      p := parts;
      if e.fd < 0 {
        return ENFILE, p;
      }
      nextId := nextId + 3;
      var at;
      at, ret := Acquire(sock, e, parts);
      if ret != 0 {
        HeldReleased(old(w), at, e.fd, p, sock);
        Unwind(at, e.fd, parts);
        return ret, p;
      }
      w := w.(installed := w.installed[e.fd := parts.vfs]);
      Vrele(parts.ino);
      return e.fd, p;
    }

    /** The tail `socket` and `accept` share: a descriptor for the new lwIP socket `lw`, or its closing. */
    method AllocOrClose(lw: nat, e: Env) returns (ret: int, errno: int, ghost p: Parts)
      requires Numbered() && lw !in w.lwip
      requires (e.fd >= 0 ==> e.fd !in w.fds) && e.install <= 0
      modifies this
      ensures Numbered() && old(inodes) <= inodes
      ensures ret == if Verdict(e) < 0 then -1 else e.fd
      ensures ret < 0 ==> w == old(w) && errno == -Verdict(e)
      ensures ret >= 0 ==> Unused(old(w), ret, p) && w == Opened(old(w).(lwip := old(w.lwip) + {lw}), ret, p, lw)
    {
      errno := 0;
      w := w.(lwip := w.lwip + {lw});
      ret, p := FdAlloc(lw, e);
      if ret < 0 {
        LwipClose(lw);
        assert w == old(w);
        return -1, -ret, p;
      }
    }

    /** `socket`: `lw` is what lwip_socket answers. */
    method Socket(lw: int, e: Env) returns (ret: int, errno: int, ghost p: Parts)
      requires Valid() && (lw >= 0 ==> lw !in w.lwip)
      requires (e.fd >= 0 ==> e.fd !in w.fds) && e.install <= 0
      modifies this
      ensures Valid() && old(inodes) <= inodes
      ensures ret == if lw < 0 || Verdict(e) < 0 then -1 else e.fd
      ensures lw >= 0 && ret < 0 ==> errno == -Verdict(e)
      ensures ret < 0 ==> w == old(w)
      ensures ret >= 0 ==>
        lw >= 0 && Unused(old(w), ret, p) && w == Opened(old(w).(lwip := old(w.lwip) + {lw}), ret, p, lw)
    {
      if lw < 0 {
        return -1, 0, Parts(0, 0, 0, 0);
      }
      ret, errno, p := AllocOrClose(lw, e);
      if ret >= 0 {
        OpenedLinked(old(w), ret, p, lw);
      }
    }

    /** `accept` on the public descriptor `s`: `lw` is what lwip_accept answers. The listening socket's file is
        held while lwIP and the allocation run. */
    method Accept(s: nat, lw: int, e: Env) returns (ret: int, errno: int, ghost p: Parts)
      requires Valid() && (lw >= 0 ==> lw !in w.lwip)
      requires (e.fd >= 0 ==> e.fd !in w.fds) && e.install <= 0
      modifies this
      ensures Valid() && old(inodes) <= inodes
      ensures ret == if s !in old(w.installed) || lw < 0 || Verdict(e) < 0 then -1 else e.fd
      ensures s !in old(w.installed) ==> errno == 22
      ensures s in old(w.installed) && lw >= 0 && ret < 0 ==> errno == -Verdict(e)
      ensures ret < 0 ==> w == old(w)
      ensures ret >= 0 ==>
        lw >= 0 && Unused(old(w), ret, p) && w == Opened(old(w).(lwip := old(w.lwip) + {lw}), ret, p, lw)
    {
      ret, errno, p := -1, 0, Parts(0, 0, 0, 0);
      if s !in w.installed {
        errno := -EINVAL;
        return;
      }
      var v := w.installed[s];
      if lw < 0 {
        w := Recounted(w, v, 1);
        w := Recounted(w, v, -1);
        CountRestored(old(w), v, 0, Parts(0, v + 1, 0, 0), 0, {});
        return;
      }
      ret, errno, p := AcceptHeld(v, lw, e);
      if ret >= 0 {
        OpenedLinked(old(w), ret, p, lw);
      }
    }

    /** The part of `accept` after lwIP accepted, with the listening socket's file `v` held meanwhile. */
    method AcceptHeld(v: Id, lw: nat, e: Env) returns (ret: int, errno: int, ghost p: Parts)
      requires Numbered() && lw !in w.lwip && v in w.vfsFiles
      requires (e.fd >= 0 ==> e.fd !in w.fds) && e.install <= 0
      modifies this
      ensures Numbered() && old(inodes) <= inodes
      ensures ret == if Verdict(e) < 0 then -1 else e.fd
      ensures ret < 0 ==> w == old(w) && errno == -Verdict(e)
      ensures ret >= 0 ==> Unused(old(w), ret, p) && w == Opened(old(w).(lwip := old(w.lwip) + {lw}), ret, p, lw)
    {
      w := Recounted(w, v, 1);
      ret, errno, p := AllocOrClose(lw, e);
      w := Recounted(w, v, -1);
      ghost var fd, q := if ret >= 0 then ret else 0, if ret >= 0 then p else Parts(0, v + 1, 0, 0);
      CountRestored(old(w), v, fd, q, lw, old(w.lwip) + {lw});
    }

    /** `sock_net_close` for the vnode `ino`, and vfscore giving up the rest of the descriptor's parts `p`. Both
        assertions of the program hold: the file's dentry leads to this vnode, and nobody else holds it. */
    method CloseParts(fd: nat, p: Parts)
      requires Mounted(w, fd, p)
      modifies this`w
      ensures w == Closed(old(w), fd)
    {
      var file := w.vnodes[p.ino].data;
      assert w.dentries[w.vfsFiles[p.vfs].dentry] == p.ino;
      assert w.vnodes[p.ino].refs == 1;
      LwipClose(w.sockFiles[file].sock);
      FreeFile(file);
      Drele(p.dentry);
      FreeVfsFile(p.vfs);
      Uninstall(fd);
      PutFd(fd);
    }

    /** Closing the last reference to a descriptor. lwIP may report an error; the resources are gone all the
        same. */
    method Close(fd: nat, lwipError: int) returns (ret: int)
      requires Valid() && fd in w.installed && lwipError >= 0
      modifies this
      ensures Valid() && inodes == old(inodes) && sInode == old(sInode)
      ensures w == Closed(old(w), fd) && ret == lwipError
    {
      ClosedLinked(w, fd);
      var p := PartsOf(w, w.installed[fd]);
      CloseParts(fd, p);
      return lwipError;
    }
  }
}
