/** The access hooks on kernel objects: ticket rings and inode labels change in place, and the
    outcome is the one the state machine computes. */
module Hooks {
  import opened Bytes
  import opened Tickets
  import opened TicketRing
  import opened TicketCache
  import opened Options
  import opened SearchTree
  import opened Labels
  import M = Monitor
  import ShmPool

  ghost function TaskValue(t: TaskData): M.Task
    reads t
  {
    M.Task(t.inRealm, t.pty, t.Tickets(), t.identifier)
  }

  ghost function FileValue(n: Inode): M.File
    reads n
  {
    M.File(n.fs, n.isDir, n.ino, Some(n.data), n.disk)
  }

  lemma NothingScanned(id: Id, op: bv16)
    ensures !Scan([], id, op)
  {
  }

  /** can_access, with its two identifier loops and the ring scan. */
  method CanAccess(task: TaskData, inode: Inode, op: bv16, isDaemon: bool) returns (allowed: bool)
    requires Holds(task, task.head, task.ring)
    modifies task`inRealm
    ensures var v := M.CanAccess(old(TaskValue(task)), FileValue(inode), inode.data, op, isDaemon);
      && (allowed <==> v != M.Denied)
      && TaskValue(task) == M.Tainted(old(TaskValue(task)), inode.data, v)
    ensures allowed <==>
      || inode.ino < 2 || !(inode.data.inRealm || old(task.inRealm)) || inode.isDir
      || inode.fs == SockFs || inode.fs == SysFs || inode.fs == SecurityFs || inode.fs == TmpFs
      || (inode.fs == PipeFs && inode.data.id == task.identifier) || inode.data.id == M.PUBLIC || isDaemon
      || (inode.fs == DevPts && task.pty) || (!inode.data.anonymous && Scan(task.Tickets(), inode.data.id, op))
  {
    hide Holds, Ring, Scan, FreedUpTo, OwnedBy;
    NothingScanned(inode.data.id, op);
    HoldsHead(task, task.head, task.ring);
    if inode.ino < 2 {
      return true;
    }
    if !inode.data.inRealm && !task.inRealm {
      return true;
    }
    if inode.isDir || M.AlwaysOpen(inode.fs) {
      return true;
    }
    if inode.fs == PipeFs {
      var own := SameId(inode.data.id, task.identifier);
      if own {
        return true;
      }
    }
    var public := SameId(inode.data.id, M.PUBLIC);
    if public || isDaemon || (inode.fs == DevPts && task.pty) {
      return true;
    }
    if task.head == null || inode.data.anonymous {
      return false;
    }
    HoldsParts(task, task.head, task.ring);
    var found := ScanRing(task.head, task.ring, inode.data.id, op);
    if found && inode.data.inRealm {
      task.inRealm := true;
    }
    return found;
  }

  /** task_housekeeping. */
  method TaskHousekeeping(cache: Cache, pid: Int32, task: TaskData, now: int)
    requires cache.Valid() && task in cache.tasks
    modifies cache`waiting, task`pty, task`head, task`ring, cache.all, cache.nodes
    ensures cache.Valid() && Holds(task, task.head, task.ring)
    ensures cache.waiting == if pid > 1 then Claimed(old(cache.waiting), pid) else old(cache.waiting)
    ensures TaskValue(task) ==
      if pid > 1 then M.Claiming(old(TaskValue(task)), PendingFor(old(cache.waiting), pid), now)
      else old(TaskValue(task))
  {
    hide Cache.Valid, Holds, Values, Expire, Freed, FreedUpTo, Increasing;
    if pid > 1 {
      var _ := cache.CheckTicketCache(pid, task, now);
    }
    TaskHolds(cache, task);
  }

  lemma TaskHolds(cache: Cache, task: TaskData)
    requires cache.Valid() && task in cache.tasks
    ensures Holds(task, task.head, task.ring)
  {
  }

  /** Label housekeeping and the decision. */
  method DecideOpen(task: TaskData, inode: Inode, isDaemon: bool, w: Writes) returns (allowed: bool)
    requires Holds(task, task.head, task.ring)
    modifies task`inRealm, inode
    ensures var (t, f, v) := M.OpenFile(old(TaskValue(task)), old(FileValue(inode)), isDaemon, w);
      TaskValue(task) == t && FileValue(inode) == f && (allowed <==> v != M.Denied)
  {
    hide Holds, Housekeep, M.CanAccess;
    inode.DentryHousekeeping(task.inRealm, task.identifier, w);
    if inode.data.inRealm || task.inRealm {
      allowed := CanAccess(task, inode, OP_OPEN, isDaemon);
    } else {
      allowed := true;
    }
  }

  /** trm_file_open and trm_file_permission. */
  method FileOpen(cache: Cache, pid: Int32, task: TaskData, inode: Inode, now: int, isDaemon: bool, w: Writes)
    returns (allowed: bool)
    requires cache.Valid() && task in cache.tasks
    modifies cache`waiting, task, cache.all, cache.nodes, inode
    ensures cache.Valid()
    ensures cache.waiting == if pid > 1 then Claimed(old(cache.waiting), pid) else old(cache.waiting)
    ensures
      var t := if pid > 1 then M.Claiming(old(TaskValue(task)), PendingFor(old(cache.waiting), pid), now)
               else old(TaskValue(task));
      var (t', f', v) := M.OpenFile(t, old(FileValue(inode)), isDaemon, w);
      TaskValue(task) == t' && FileValue(inode) == f' && (allowed <==> v != M.Denied)
  {
    hide Holds, Rings, Sound, Shown, M.OpenFile, M.Claiming;
    TaskHousekeeping(cache, pid, task, now);
    allowed := DecideOpen(task, inode, isDaemon, w);
  }

  /** The decision on the label as it is in memory. */
  method DecidePermission(task: TaskData, inode: Inode, isDaemon: bool) returns (allowed: bool)
    requires Holds(task, task.head, task.ring)
    modifies task`inRealm, inode`data
    ensures var (t, f, v) := M.PermissionFile(old(TaskValue(task)), old(FileValue(inode)), isDaemon);
      TaskValue(task) == t && FileValue(inode) == f && (allowed <==> v != M.Denied)
  {
    hide Holds, M.CanAccess;
    inode.InodeHousekeeping(task.inRealm, task.identifier);
    if inode.data.inRealm || task.inRealm {
      allowed := CanAccess(task, inode, OP_OPEN, isDaemon);
    } else {
      allowed := true;
    }
  }

  /** trm_inode_permission. */
  method InodePermission(cache: Cache, pid: Int32, task: TaskData, inode: Inode, now: int, isDaemon: bool)
    returns (allowed: bool)
    requires cache.Valid() && task in cache.tasks
    modifies cache`waiting, task, cache.all, cache.nodes, inode`data
    ensures cache.Valid()
    ensures cache.waiting == if pid > 1 then Claimed(old(cache.waiting), pid) else old(cache.waiting)
    ensures
      var t := if pid > 1 then M.Claiming(old(TaskValue(task)), PendingFor(old(cache.waiting), pid), now)
               else old(TaskValue(task));
      var (t', f', v) := M.PermissionFile(t, old(FileValue(inode)), isDaemon);
      TaskValue(task) == t' && FileValue(inode) == f' && (allowed <==> v != M.Denied)
  {
    hide Holds, Rings, Sound, Shown, M.PermissionFile, M.Claiming;
    TaskHousekeeping(cache, pid, task, now);
    allowed := DecidePermission(task, inode, isDaemon);
  }

  /** The security blob of a shared-memory segment; a new segment is named by its key. */
  class IpcData {
    const key: bv32
    const id: Id
    var inRealm: bool

    constructor (key: bv32)
      ensures this.key == key && id == SegmentId(key) && !inRealm
    {
      this.key, id, inRealm := key, SegmentId(key), false;
    }
  }

  /** trm_ipc_alloc_security: the key, then zeros. */
  function SegmentId(key: bv32): (id: Id)
    ensures FromLe32(id[..4]) == key && id[4..] == Zeros(12)
  {
    Le32RoundTrip(key);
    assert (Le32(key) + Zeros(ID_LENGTH - 4))[..4] == Le32(key);
    Le32(key) + Zeros(ID_LENGTH - 4)
  }

  ghost function SegmentValue(s: IpcData): M.Segment
    reads s
  {
    M.Segment(s.inRealm, s.id)
  }

  /** shm_can_access up to the entry in the pool. The scan starts from the ring's head without a
      check that there is one: `faulted` is where the code follows a null pointer. */
  method ShmDecide(task: TaskData, seg: IpcData, isDaemon: bool) returns (allowed: bool, faulted: bool)
    requires Holds(task, task.head, task.ring)
    modifies task`inRealm, seg`inRealm
    ensures var (t, s, v) := M.ShmOutcome(old(TaskValue(task)), old(SegmentValue(seg)), isDaemon);
      && TaskValue(task) == t && SegmentValue(seg) == s
      && (faulted <==> v == M.Faulted) && (allowed <==> v == M.Exempt || v == M.ByTicket)
  {
    if (!task.inRealm && !seg.inRealm) || isDaemon {
      return true, false;
    }
    if task.head == null {
      return false, true;
    }
    var found := ScanRing(task.head, task.ring, seg.id, OP_SHM);
    if found {
      if seg.inRealm {
        task.inRealm := true;
      }
      if task.inRealm {
        seg.inRealm := true;
      }
    }
    return found, false;
  }

  /** shm_can_access with allow_shm_access: an admitted process with an ID above one is entered in
      the pool, and only an entry that fails turns admission into an error. */
  method ShmAccess(pool: ShmPool.Pool, task: TaskData, seg: IpcData, pid: bv32, isDaemon: bool, mem: ShmPool.Memory)
    returns (ok: bool, faulted: bool)
    requires Holds(task, task.head, task.ring)
    requires pool.Valid()
    modifies task`inRealm, seg`inRealm, pool, pool.all, pool.entries
    ensures pool.Valid()
    ensures
      var (t, s, v) := M.ShmOutcome(old(TaskValue(task)), old(SegmentValue(seg)), isDaemon);
      && TaskValue(task) == t && SegmentValue(seg) == s && (faulted <==> v == M.Faulted)
      && (if v == M.Denied || v == M.Faulted then !ok && pool.listing == old(pool.listing)
          else if Signed(pid) < 2 then ok && pool.listing == old(pool.listing)
          else
            && ok == ShmPool.Granted(old(pool.listing), Signed(seg.key), pid, mem).1
            && (Orderable(ShmPool.ShmidsIn(old(pool.all)) + {Signed(seg.key)}) ==>
              pool.listing == ShmPool.Granted(old(pool.listing), Signed(seg.key), pid, mem).0))
  {
    hide Holds, M.ShmOutcome, ShmPool.Pool.Valid, ShmPool.Granted, ShmPool.ListIn, ShmPool.PidsOf, Orderable;
    ok, faulted := ShmDecide(task, seg, isDaemon);
    if ok && Signed(pid) >= 2 {
      ghost var node;
      ok, node := pool.AddToShmid(Signed(seg.key), pid, mem);
    }
  }
}
