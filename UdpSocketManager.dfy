/** The UDP socket manager of the test channel transport: up to eight worker managers,
    sockets handed out to them two at a time in turn, and each worker's pending add and
    remove lists folded into its socket map by `UpdateSocketMap`. A socket is a value
    carrying its descriptor; the worker threads, `select` and the socket objects'
    deletion are not part of this model. */
module UdpSocketManager {
  import opened Common

  const MaxNumberOfSocketManagers: nat := 8
  /** `FD_SETSIZE` of Winsock. */
  const FdSetSize: nat := 64
  /** `INVALID_SOCKET`: `~0` as a 64-bit `SOCKET`. */
  const InvalidSocket: int := SizeTModulus - 1

  /** A `UdpSocketWinUWP`, identified by its descriptor. */
  datatype Socket = Socket(fd: nat)

  /** `RemoveSocket` compares and queues descriptors as `unsigned int`. */
  function Fd32(s: Socket): (r: int)
    ensures 0 <= r < UInt32Modulus
    ensures s.fd < UInt32Modulus ==> r == s.fd
  {
    ToUInt32(s.fd)
  }

  /** The add list with the first socket whose descriptor is `fd` taken out. */
  function RemoveFirstFd(adds: seq<Socket>, fd: int): (r: seq<Socket>)
    ensures (exists j :: 0 <= j < |adds| && adds[j].fd == fd) ==> |r| == |adds| - 1
    ensures (forall j :: 0 <= j < |adds| ==> adds[j].fd != fd) ==> r == adds
    ensures forall s :: s in r ==> s in adds
    decreases |adds|
  {
    if adds == [] then []
    else if adds[0].fd == fd then adds[1..]
    else [adds[0]] + RemoveFirstFd(adds[1..], fd)
  }

  /** The removal half of `UpdateSocketMap`: each queued descriptor, in order, takes the
      first matching socket out of the add list and its entry out of the map. */
  function ApplyRemovals(adds: seq<Socket>, sockets: map<int, Socket>, removes: seq<int>): (r: (seq<Socket>, map<int, Socket>))
    ensures forall fd :: fd in removes ==> fd !in r.1
    ensures r.1.Keys <= sockets.Keys
    ensures forall fd :: fd in r.1 ==> r.1[fd] == sockets[fd]
    ensures forall s :: s in r.0 ==> s in adds
    decreases |removes|
  {
    if removes == [] then (adds, sockets)
    else
      var front := ApplyRemovals(adds, sockets, removes[..|removes| - 1]);
      var fd := removes[|removes| - 1];
      assert forall x :: x in removes ==> x in removes[..|removes| - 1] || x == fd;
      (RemoveFirstFd(front.0, fd), front.1 - {fd})
  }

  /** One more queued descriptor, as the first loop of `UpdateSocketMap` takes it. */
  lemma ApplyRemovalsStep(adds: seq<Socket>, sockets: map<int, Socket>, removes: seq<int>, i: nat, m: nat)
    requires i < |removes| && m == i + 1
    ensures ApplyRemovals(adds, sockets, removes[..m])
      == (RemoveFirstFd(ApplyRemovals(adds, sockets, removes[..i]).0, removes[i]),
          ApplyRemovals(adds, sockets, removes[..i]).1 - {removes[i]})
  {
    assert removes[..m][..i] == removes[..i];
  }

  /** The addition half of `UpdateSocketMap`: each socket of the add list, in order, is
      stored under its descriptor. */
  function ApplyAdditions(sockets: map<int, Socket>, adds: seq<Socket>): (r: map<int, Socket>)
    ensures r.Keys == sockets.Keys + set s | s in adds :: s.fd
    decreases |adds|
  {
    if adds == [] then sockets
    else
      var front := ApplyAdditions(sockets, adds[..|adds| - 1]);
      assert forall s :: s in adds ==> s in adds[..|adds| - 1] || s == adds[|adds| - 1];
      front[adds[|adds| - 1].fd := adds[|adds| - 1]]
  }

  /** Later additions win: a socket is stored unless a later one in the list has the same
      descriptor. */
  lemma {:induction false} ApplyAdditionsStoresLast(sockets: map<int, Socket>, adds: seq<Socket>, k: nat)
    requires k < |adds|
    requires forall j :: k < j < |adds| ==> adds[j].fd != adds[k].fd
    ensures ApplyAdditions(sockets, adds)[adds[k].fd] == adds[k]
    decreases |adds|
  {
    if k < |adds| - 1 {
      ApplyAdditionsStoresLast(sockets, adds[..|adds| - 1], k);
    }
  }

  /** A worker manager, `UdpSocketManagerWinUWPImpl`. */
  class SocketManagerImpl {
    var sockets: map<int, Socket>
    var addList: seq<Socket>
    var removeList: seq<int>

    constructor()
      ensures sockets == map[] && addList == [] && removeList == []
    {
      sockets := map[];
      addList := [];
      removeList := [];
    }

    /** Whether a remove request for `s` is accepted here: its descriptor (as compared in
        `RemoveSocket`) is in the add list, or it is a key of the map. */
    predicate Tracks(s: Socket)
      reads this
    {
      Pending(s) || s.fd in sockets
    }

    /** Whether the add list holds a socket whose descriptor compares equal to `s`'s. */
    predicate Pending(s: Socket)
      reads this
    {
      exists j :: 0 <= j < |addList| && Fd32(addList[j]) == Fd32(s)
    }

    /** `AddSocket`: an invalid descriptor or a full map is refused; otherwise the socket
        waits in the add list. */
    method AddSocket(s: Socket) returns (ok: bool)
      modifies this
      ensures ok <==> s.fd != InvalidSocket && |old(sockets)| < FdSetSize
      ensures ok ==> addList == old(addList) + [s]
      ensures !ok ==> addList == old(addList)
      ensures sockets == old(sockets) && removeList == old(removeList)
    {
      if s.fd == InvalidSocket || |sockets| >= FdSetSize {
        return false;
      }
      addList := addList + [s];
      ok := true;
    }

    /** `RemoveSocket`: the descriptor is queued for removal when this worker tracks the
        socket; otherwise nothing changes and the answer is false. */
    method RemoveSocket(s: Socket) returns (ok: bool)
      modifies this
      ensures ok <==> old(Tracks(s))
      ensures old(Pending(s)) ==> removeList == old(removeList) + [Fd32(s)]
      ensures !old(Pending(s)) && ok ==> removeList == old(removeList) + [s.fd]
      ensures !ok ==> removeList == old(removeList)
      ensures sockets == old(sockets) && addList == old(addList)
    {
      var i := 0;
      while i < |addList|
        invariant 0 <= i <= |addList|
        invariant forall j :: 0 <= j < i ==> Fd32(addList[j]) != Fd32(s)
      {
        if Fd32(addList[i]) == Fd32(s) {
          assert Pending(s);
          removeList := removeList + [Fd32(s)];
          return true;
        }
        i := i + 1;
      }
      if s.fd in sockets {
        removeList := removeList + [s.fd];
        return true;
      }
      ok := false;
    }

    /** `UpdateSocketMap`: removals first, then additions; both lists end empty. */
    method UpdateSocketMap()
      modifies this
      ensures sockets == ApplyAdditions(ApplyRemovals(old(addList), old(sockets), old(removeList)).1,
                                        ApplyRemovals(old(addList), old(sockets), old(removeList)).0)
      ensures addList == [] && removeList == []
    {
      ProcessRemoveList();
      ProcessAddList();
    }

    /** The first loop of `UpdateSocketMap`. */
    method ProcessRemoveList()
      modifies this`addList, this`sockets, this`removeList
      ensures (addList, sockets) == ApplyRemovals(old(addList), old(sockets), old(removeList))
      ensures removeList == []
    {
      var i := 0;
      while i < |removeList|
        invariant 0 <= i <= |removeList|
        invariant removeList == old(removeList)
        invariant (addList, sockets) == ApplyRemovals(old(addList), old(sockets), removeList[..i])
      {
        var removeFd := removeList[i];
        var j := FindFd(addList, removeFd);
        RemoveFirstFdAt(addList, removeFd, j);
        ApplyRemovalsStep(old(addList), old(sockets), removeList, i, i + 1);
        if j < |addList| {
          addList := addList[..j] + addList[j + 1..];
        }
        // The map entry, if any, is erased.
        sockets := sockets - {removeFd};
        i := i + 1;
      }
      assert removeList[..i] == removeList;
      removeList := [];
    }

    /** The second loop of `UpdateSocketMap`. */
    method ProcessAddList()
      modifies this
      ensures sockets == ApplyAdditions(old(sockets), old(addList))
      ensures addList == [] && removeList == old(removeList)
    {
      var k := 0;
      while k < |addList|
        invariant 0 <= k <= |addList|
        invariant addList == old(addList) && removeList == old(removeList)
        invariant sockets == ApplyAdditions(old(sockets), addList[..k])
      {
        sockets := sockets[addList[k].fd := addList[k]];
        assert addList[..k + 1][..k] == addList[..k];
        k := k + 1;
      }
      assert addList[..k] == addList;
      addList := [];
    }
  }

  /** The workers `Init` creates, all new and empty. */
  method CreateWorkers(n: nat) returns (created: seq<SocketManagerImpl>)
    ensures |created| == n
    ensures forall k :: 0 <= k < n ==> fresh(created[k])
    ensures forall k :: 0 <= k < n ==>
      created[k].sockets == map[] && created[k].addList == [] && created[k].removeList == []
    ensures forall k, l :: 0 <= k < l < n ==> created[k] != created[l]
  {
    created := [];
    for i := 0 to n
      invariant |created| == i
      invariant forall k :: 0 <= k < i ==> fresh(created[k])
      invariant forall k :: 0 <= k < i ==>
        created[k].sockets == map[] && created[k].addList == [] && created[k].removeList == []
      invariant forall k, l :: 0 <= k < l < i ==> created[k] != created[l]
    {
      var w := new SocketManagerImpl();
      created := created + [w];
    }
  }

  /** The inner search of the first loop: the first index of a socket with the
      descriptor, or the length. */
  method FindFd(adds: seq<Socket>, fd: int) returns (j: nat)
    ensures j <= |adds|
    ensures forall k :: 0 <= k < j ==> adds[k].fd != fd
    ensures j < |adds| ==> adds[j].fd == fd
  {
    j := 0;
    while j < |adds|
      invariant j <= |adds|
      invariant forall k :: 0 <= k < j ==> adds[k].fd != fd
    {
      if adds[j].fd == fd {
        return;
      }
      j := j + 1;
    }
  }

  /** Taking out the first match by position: `j` is the first index with the descriptor, or
      the length when there is none. */
  lemma {:induction false} RemoveFirstFdAt(adds: seq<Socket>, fd: int, j: nat)
    requires j <= |adds|
    requires forall k :: 0 <= k < j ==> adds[k].fd != fd
    requires j < |adds| ==> adds[j].fd == fd
    ensures RemoveFirstFd(adds, fd) == if j < |adds| then adds[..j] + adds[j + 1..] else adds
    decreases |adds|
  {
    if adds != [] && j > 0 {
      RemoveFirstFdAt(adds[1..], fd, j - 1);
      if j < |adds| {
        assert [adds[0]] + (adds[1..][..j - 1] + adds[1..][j..]) == adds[..j] + adds[j + 1..];
      }
    }
  }

  /** A descriptor queued for removal is not in the map afterwards unless a socket with
      that descriptor is still waiting to be added. */
  lemma RemovedStayRemoved(adds: seq<Socket>, sockets: map<int, Socket>, removes: seq<int>, fd: int)
    requires fd in removes
    requires forall s :: s in adds ==> s.fd != fd
    ensures fd !in ApplyAdditions(ApplyRemovals(adds, sockets, removes).1, ApplyRemovals(adds, sockets, removes).0)
  {
  }

  /** The round-robin position after `added` sockets: two sockets per worker in turn. */
  function AssignedWorker(added: nat, count: nat): (r: nat)
    requires count > 0
    ensures r < count
  {
    (added / 2) % count
  }

  /** The next worker advances exactly after every second socket, wrapping to the first. */
  lemma AssignedWorkerStep(added: nat, count: nat)
    requires count > 0
    ensures added % 2 == 0 ==> AssignedWorker(added + 1, count) == AssignedWorker(added, count)
    ensures added % 2 == 1 ==>
      AssignedWorker(added + 1, count)
      == if AssignedWorker(added, count) + 1 >= count then 0 else AssignedWorker(added, count) + 1
  {
    var q := added / 2;
    if added % 2 == 1 {
      assert (added + 1) / 2 == q + 1;
      ModSucc(q, count);
    } else {
      assert (added + 1) / 2 == q;
    }
  }

  /** The counters `AddSocket` keeps, one socket on. */
  lemma TurnStep(added: nat, count: nat, inc: int, next: int)
    requires count > 0 && inc == added % 2 && next == AssignedWorker(added, count)
    ensures inc == 0 ==> inc + 1 == (added + 1) % 2 && next == AssignedWorker(added + 1, count)
    ensures inc != 0 ==> 0 == (added + 1) % 2
    ensures inc != 0 ==> (if next + 1 >= count then 0 else next + 1) == AssignedWorker(added + 1, count)
  {
    AssignedWorkerStep(added, count);
  }

  lemma ModSucc(q: nat, count: nat)
    requires count > 0
    ensures (q + 1) % count == if q % count + 1 >= count then 0 else q % count + 1
  {
    var d := q / count;
    var r := q % count;
    assert q == d * count + r;
    if r + 1 >= count {
      assert q + 1 == (d + 1) * count + 0;
      ModUnique(q + 1, count, d + 1, 0);
    } else {
      ModUnique(q + 1, count, d, r + 1);
    }
  }

  /** `UdpSocketManagerWinUWP`. */
  class SocketManager {
    var id: int
    var numOfWorkThreads: int
    var numberOfSocketMgr: int
    var incSocketMgrNextTime: int
    var nextSocketMgrToAssign: int
    var workers: seq<SocketManagerImpl>
    /** The sockets handed out since `Init`, and whether `Init` has created the workers. */
    ghost var added: nat
    ghost var inited: bool

    /** The manager before `Init`: no id, the worker count at `(uint8_t)-1`, no workers. */
    constructor()
      ensures id == -1 && numOfWorkThreads == 0 && numberOfSocketMgr == 255
      ensures incSocketMgrNextTime == 0 && nextSocketMgrToAssign == 0 && workers == []
      ensures Valid() && !inited
    {
      id := -1;
      numOfWorkThreads := 0;
      numberOfSocketMgr := 255;
      incSocketMgrNextTime := 0;
      nextSocketMgrToAssign := 0;
      workers := [];
      added := 0;
      inited := false;
    }

    ghost predicate Valid()
      reads this, workers
    {
      && (inited ==> |workers| == numberOfSocketMgr == Min(numOfWorkThreads, MaxNumberOfSocketManagers))
      && (!inited ==> workers == [])
      && (forall i, j :: 0 <= i < j < |workers| ==> workers[i] != workers[j])
      && incSocketMgrNextTime == added % 2
      && (inited && numberOfSocketMgr > 0 ==> nextSocketMgrToAssign == AssignedWorker(added, numberOfSocketMgr))
      && (!inited || numberOfSocketMgr == 0 ==> nextSocketMgrToAssign == 0 && added == 0)
    }

    /** `Init`: refused once an id or a thread count is set; otherwise one worker per
        thread, at most eight. */
    method Init(newId: int, threads: nat) returns (ok: bool)
      requires Valid()
      requires threads < 256
      modifies this
      ensures ok <==> old(id) == -1 && old(numOfWorkThreads) == 0
      ensures !ok ==> id == old(id) && numOfWorkThreads == old(numOfWorkThreads)
      ensures !ok ==> workers == old(workers) && numberOfSocketMgr == old(numberOfSocketMgr)
      ensures ok ==> id == newId && numOfWorkThreads == threads
      ensures Valid() && (ok ==> inited)
      ensures ok ==> numberOfSocketMgr == Min(threads, MaxNumberOfSocketManagers) && added == 0
      ensures ok ==> forall i :: 0 <= i < |workers| ==> fresh(workers[i])
      ensures ok ==> forall i :: 0 <= i < |workers| ==>
        workers[i].sockets == map[] && workers[i].addList == [] && workers[i].removeList == []
    {
      if id != -1 || numOfWorkThreads != 0 {
        return false;
      }
      id := newId;
      numberOfSocketMgr := threads;
      numOfWorkThreads := threads;
      if MaxNumberOfSocketManagers < numberOfSocketMgr {
        numberOfSocketMgr := MaxNumberOfSocketManagers;
      }
      var created := CreateWorkers(numberOfSocketMgr);
      workers := created;
      inited := true;
      ok := true;
    }

    /** `AddSocket`: the socket goes to the worker whose turn it is; every second socket
        moves the turn on, wrapping after the last worker. The result is the worker's. */
    method AddSocket(s: Socket) returns (ok: bool, worker: nat)
      requires Valid() && inited && numberOfSocketMgr > 0
      modifies this, workers[nextSocketMgrToAssign]
      ensures Valid() && inited && added == old(added) + 1
      ensures worker == AssignedWorker(old(added), numberOfSocketMgr)
      ensures workers == old(workers) && numberOfSocketMgr == old(numberOfSocketMgr)
      ensures ok <==> s.fd != InvalidSocket && |old(workers[worker].sockets)| < FdSetSize
      ensures ok ==> workers[worker].addList == old(workers[worker].addList) + [s]
      ensures !ok ==> workers[worker].addList == old(workers[worker].addList)
      ensures workers[worker].sockets == old(workers[worker].sockets)
      ensures workers[worker].removeList == old(workers[worker].removeList)
    {
      worker := nextSocketMgrToAssign;
      var w := workers[worker];
      ok := w.AddSocket(s);
      AdvanceTurn();
    }

    /** The turn-keeping half of `AddSocket`: one more socket handed out. */
    method AdvanceTurn()
      requires Valid() && inited && numberOfSocketMgr > 0
      modifies this`incSocketMgrNextTime, this`nextSocketMgrToAssign, this`added
      ensures Valid() && added == old(added) + 1
      ensures nextSocketMgrToAssign == AssignedWorker(added, numberOfSocketMgr)
    {
      TurnStep(added, numberOfSocketMgr, incSocketMgrNextTime, nextSocketMgrToAssign);
      if incSocketMgrNextTime == 0 {
        incSocketMgrNextTime := incSocketMgrNextTime + 1;
      } else {
        incSocketMgrNextTime := 0;
        nextSocketMgrToAssign := nextSocketMgrToAssign + 1;
        if nextSocketMgrToAssign >= numberOfSocketMgr {
          nextSocketMgrToAssign := 0;
        }
      }
      added := added + 1;
    }
  }
}
