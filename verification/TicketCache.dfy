/** The kernel's ticket cache in place: one search tree of reservations, one ring for each
    reservation and each task. */
module TicketCache {
  import opened Bytes
  import opened Tickets
  import opened TicketRing
  import opened Options
  import opened SearchTree

  /** A node of the reservation tree. */
  class Reservation {
    const pid: Int32
    var head: Node?
    var pty: bool
    ghost var ring: seq<Node>

    constructor (pid: Int32)
      ensures this.pid == pid && head == null && !pty && ring == []
    {
      this.pid, head, pty, ring := pid, null, false, [];
    }

    ghost function Value(): Pending
      reads this`ring, this`pty
    {
      Pending(Values(ring), pty)
    }

    /** The new ticket goes to the end of the ring. */
    method Add(t: Ticket) returns (node: Node)
      requires Holds(this, head, ring)
      modifies this`head, this`ring, ring
      ensures fresh(node)
      ensures ring == old(ring) + [node] && Holds(this, head, ring)
      ensures Values(ring) == old(Values(ring)) + [t]
    {
      hide Holds, Linked, Distinct, OwnedBy, FreedUpTo;
      node := new Node(t);
      ghost var s := ring;
      HoldsParts(this, head, s);
      DistinctMore(s, node);
      LinkedPrefix(s, [node]);
      ValuesAppend(s, [node]);
      head := Append(head, node, s + [node]);
      node.owner := this;
      ring := s + [node];
      HoldsMore(this, head, s, node);
    }
  }

  predicate AnyFreed(s: seq<Node>)
    reads s`freed
  {
    exists i :: 0 <= i < |s| && s[i].freed
  }

  /** Two rings of different owners can be joined. */
  lemma TwoRings(a: object, head: Node?, s: seq<Node>, b: object, pending: Node?, p: seq<Node>)
    requires Holds(a, head, s) && Holds(b, pending, p) && a != b
    ensures Ring(s) && Ring(p) && Distinct(s + p) && !AnyFreed(s + p)
    ensures (head == null <==> s == []) && (s != [] ==> head == s[0])
    ensures (pending == null <==> p == []) && (p != [] ==> pending == p[0])
  {
    OwnersDistinct(a, s, b, p);
  }

  ghost method AdoptRing(owner: object, head: Node, q: seq<Node>)
    requires Ring(q) && !AnyFreed(q) && q != [] && head == q[0]
    modifies q`owner
    ensures Holds(owner, head, q)
  {
    hide Linked, Distinct;
    Adopt(owner, q);
  }

  /** The whole pending ring, counted, goes to the end of the owner's ring. */
  method JoinRings(ghost owner: object, head: Node?, ghost s: seq<Node>, ghost other: object, pending: Node, ghost p: seq<Node>)
    returns (head': Node)
    requires Holds(owner, head, s) && Holds(other, pending, p) && owner != other
    modifies s`next, s`prev, s`owner, p`next, p`prev, p`owner
    ensures Holds(owner, head', s + p)
  {
    hide Holds, Ring, Distinct, AnyFreed;
    TwoRings(owner, head, s, other, pending, p);
    var count := CountTickets(pending, p);
    head' := Concatenate(head, s, pending, p);
    AdoptRing(owner, head', s + p);
  }

  lemma NoValues(s: seq<Node>)
    ensures Values(s) == [] <==> s == []
  {
  }

  lemma NothingExpires(now: int)
    ensures Expire([], now) == [] && Freed([], now) == 0 && Values([]) == [] && FreedUpTo([], 0)
  {
  }

  /** The security blob of a process's credential. */
  class TaskData {
    var inRealm: bool
    var pty: bool
    var head: Node?
    ghost var ring: seq<Node>
    const identifier: Id

    ghost function Tickets(): seq<Ticket>
      reads this
    {
      Values(ring)
    }

    /** init_task_trm: a new credential has no tickets of its own. */
    constructor (id: Id, previous: TaskData?)
      ensures identifier == id && head == null && ring == []
      ensures inRealm == (previous != null && previous.inRealm)
      ensures pty == (previous != null && previous.pty)
    {
      identifier, head, ring := id, null, [];
      inRealm := previous != null && previous.inRealm;
      pty := previous != null && previous.pty;
    }

    /** Claiming what is pending: the terminal right, and the whole pending ring, which goes to the
        end of the task's. */
    method Claim(r: Reservation)
      requires Holds(this, head, ring) && Holds(r, r.head, r.ring)
      modifies this`pty, this`head, this`ring, r, ring, r.ring
      ensures Holds(this, head, ring) && ring == old(ring) + old(r.ring)
      ensures pty == (old(pty) || old(r.pty))
      ensures Holds(r, r.head, r.ring) && r.Value() == Pending([], false)
    {
      hide Holds;
      HoldsHead(r, r.head, r.ring);
      if r.pty {
        r.pty := false;
        pty := true;
      }
      if r.head != null {
        TakeRing(r);
        EmptyRing(r);
      }
    }

    method TakeRing(r: Reservation)
      requires Holds(this, head, ring) && Holds(r, r.head, r.ring) && r.head != null
      modifies this`head, this`ring, r`head, r`ring, ring, r.ring
      ensures Holds(this, head, ring) && ring == old(ring) + old(r.ring)
      ensures r.head == null && r.ring == []
    {
      hide Holds;
      HoldsHead(r, r.head, r.ring);
      ghost var q := ring + r.ring;
      head := JoinRings(this, head, ring, r, r.head, r.ring);
      ring, r.head, r.ring := q, null, [];
    }

    /** Dropping and freeing expired tickets. */
    method DropExpired(now: int)
      requires Holds(this, head, ring)
      modifies this`head, this`ring, ring
      ensures Holds(this, head, ring) && Values(ring) == Expire(old(Values(ring)), now)
      ensures ring == [] || ring == old(ring)[Freed(old(Values(ring)), now)..]
      ensures FreedUpTo(old(ring), Freed(old(Values(ring)), now))
    {
      hide Holds, Ring, Expire, Freed, Values, FreedUpTo, OwnedBy;
      NothingExpires(now);
      HoldsHead(this, head, ring);
      if head != null {
        ghost var s := ring;
        HoldsParts(this, head, s);
        head, ring := RemoveExpired(head, now, s);
        HoldsRest(this, head, s, ring, Freed(Values(s), now));
      }
    }
  }

  function PidOf(r: Reservation): (pid: Int32) {
    r.pid
  }

  function PidsIn(all: set<Reservation>): (keys: set<Int32>) {
    KeysIn(all, PidOf)
  }

  /** The tree holds the reservations `all`, and the search finds those of `table`. */
  ghost predicate Sound(root: Tree<Reservation>, table: map<Int32, Reservation>, all: set<Reservation>) {
    Stands(root, table, all, PidOf)
  }

  lemma SoundTable(root: Tree<Reservation>, table: map<Int32, Reservation>, all: set<Reservation>)
    requires Sound(root, table, all)
    ensures forall k :: k in table ==> table[k] in all && table[k].pid == k
  {
    hide Stands;
    StandsFound(root, table, all, PidOf);
  }

  /** Every ring is well formed, and no node is in two rings: its owner says which one it is in. */
  ghost predicate Rings(all: set<Reservation>, tasks: set<TaskData>, nodes: set<Node>)
    reads nodes, all`head, all`ring, tasks`head, tasks`ring
  {
    && (forall r :: r in all ==>
      && (forall i :: 0 <= i < |r.ring| ==> r.ring[i] in nodes)
      && Holds(r, r.head, r.ring))
    && (forall t :: t in tasks ==>
      && (forall i :: 0 <= i < |t.ring| ==> t.ring[i] in nodes)
      && Holds(t, t.head, t.ring))
  }

  /** `waiting` shows what the search finds, but for reservation `stale`. */
  ghost predicate Shown(waiting: Reservations, table: map<Int32, Reservation>, stale: Reservation?)
    reads table.Values`ring, table.Values`pty
  {
    && (forall k :: k in waiting <==> k in table)
    && (forall k :: k in table && table[k] != stale ==> waiting[k] == table[k].Value())
  }

  ghost function ValuesOf(table: map<Int32, Reservation>): (m: Reservations)
    reads table.Values`ring, table.Values`pty
  {
    map k | k in table :: table[k].Value()
  }

  lemma ShownAgain(waiting: Reservations, table: map<Int32, Reservation>, r: Reservation)
    requires Shown(waiting, table, r) && forall k :: k in table ==> table[k].pid == k
    ensures Shown(if r.pid in table && table[r.pid] == r then waiting[r.pid := r.Value()] else waiting, table, null)
  {
    hide Values;
  }

  lemma ValuesShown(table: map<Int32, Reservation>, stale: Reservation?)
    ensures Shown(ValuesOf(table), table, stale)
  {
  }

  lemma ShownGrows(waiting: Reservations, table: map<Int32, Reservation>, r: Reservation)
    requires Shown(waiting, table, null)
    ensures ValuesOf(table[r.pid := r]) == waiting[r.pid := r.Value()]
  {
    hide Values;
  }

  lemma RingsGrow(all: set<Reservation>, tasks: set<TaskData>, nodes: set<Node>, r: Reservation)
    requires Rings(all, tasks, nodes) && r.ring == [] && Holds(r, r.head, r.ring)
    ensures Rings(all + {r}, tasks, nodes)
  {
    hide Holds;
  }

  /** insert_reservation, then rebalancing: any choice of a tree with the same entries. */
  method InsertReservation(root: Tree<Reservation>, r: Reservation, ghost table: map<Int32, Reservation>,
                           ghost all: set<Reservation>)
    returns (root': Tree<Reservation>)
    requires Sound(root, table, all) && r.pid !in table
    ensures Sound(root', Visible(root'), all + {r})
    ensures Orderable(PidsIn(all) + {r.pid}) ==> Visible(root') == table[r.pid := r]
  {
    hide Stands, Orderable, Visible;
    var linked := Link(root, r.pid, r);
    var balanced: Tree<Reservation> :| Entries(balanced) == Entries(linked);
    LinkStands(root, table, all, PidOf, r, balanced);
    root' := balanced;
  }

  /** The tickets of each reservation. */
  type Holdings = map<Reservation, seq<Ticket>>

  /** At most ticket `t` of process `pid` is new. */
  predicate OneMore(m: Holdings, m': Holdings, pid: Int32, t: Ticket) {
    forall r, x :: r in m' && x in m'[r] ==> (r in m && x in m[r]) || (r.pid == pid && x == t)
  }

  lemma UpdatedTwice(m: Reservations, pid: Int32, p: Pending, q: Pending)
    ensures m[pid := p][pid := q] == m[pid := q]
  {
  }

  lemma NoneMore(m: Holdings, pid: Int32, t: Ticket)
    ensures OneMore(m, m, pid, t)
  {
  }

  lemma OnlyOneMore(m: Holdings, r: Reservation, before: seq<Ticket>, after: seq<Ticket>, t: Ticket)
    requires r in m ==> m[r] == before
    requires r !in m ==> before == []
    requires forall x :: x in after ==> x == t || x in before
    ensures OneMore(m, m[r := before][r := after], r.pid, t)
  {
  }

  class Cache {
    var root: Tree<Reservation>
    ghost var all: set<Reservation>           // every reservation in the tree
    ghost var table: map<Int32, Reservation>  // those that the search finds
    ghost var waiting: Reservations           // their pending tickets and terminal grants, as values
    ghost var tasks: set<TaskData>
    ghost var nodes: set<Node>                // every node of every ring

    ghost predicate Valid()
      reads this, tasks`head, tasks`ring, all, table.Values, nodes
    {
      Sound(root, table, all) && Rings(all, tasks, nodes) && Shown(waiting, table, null)
    }

    /** Reservation `r` is being changed. */
    ghost predicate Open(r: Reservation)
      reads this, tasks`head, tasks`ring, all, table.Values, nodes
    {
      Sound(root, table, all) && Rings(all, tasks, nodes) && Shown(waiting, table, r) && r in all
    }

    ghost function Held(): (m: Holdings)
      reads this`all, all`ring, all`pty
    {
      map r | r in all :: r.Value().tickets
    }

    /** The search finds reservation `r`. */
    ghost predicate Finds(r: Reservation)
      reads this
    {
      r.pid in table && table[r.pid] == r
    }

    ghost method Refresh(r: Reservation)
      requires Open(r)
      modifies this`waiting
      ensures Valid() && waiting == if Finds(r) then old(waiting)[r.pid := r.Value()] else old(waiting)
    {
      hide Holds, Rings, Values, Sound, Shown;
      SoundTable(root, table, all);
      ShownAgain(waiting, table, r);
      if Finds(r) {
        waiting := waiting[r.pid := r.Value()];
      }
    }

    constructor ()
      ensures Valid() && tasks == {} && waiting == map[]
    {
      root, all, table, waiting, tasks, nodes := Leaf, {}, map[], map[], {}, {};
    }

    lemma SearchFinds(pid: Int32)
      requires Valid()
      ensures Find(root, pid) == if pid in table then Some(table[pid]) else None
      ensures (pid in waiting <==> pid in table) && (pid in table ==> table[pid].pid == pid)
    {
      hide Rings, Find, Visible, Ordered, Orderable, Entries;
      VisibleFind(root, pid);
      SoundTable(root, table, all);
    }

    lemma FoundOpen(r: Reservation)
      requires Valid() && Finds(r)
      ensures Open(r) && (forall i :: 0 <= i < |r.ring| ==> r.ring[i] in nodes)
      ensures waiting == waiting[r.pid := r.Value()] && PendingFor(waiting, r.pid) == r.Value() && all == all + {r}
      ensures r in Held() && Held()[r] == r.Value().tickets && Held() == Held()[r := r.Value().tickets]
    {
      hide Holds, Sound, Values;
      SoundTable(root, table, all);
    }

    /** The reservation of a process, created on demand. */
    method Reserve(pid: Int32, mem: Memory) returns (r: Reservation?)
      requires Valid()
      modifies this`root, this`all, this`table, this`waiting
      ensures r == null ==> Valid() && pid !in waiting && !mem.node && waiting == old(waiting) && all == old(all)
      ensures r != null ==>
        && Open(r) && r.pid == pid && all == old(all) + {r} && r.Value() == PendingFor(old(waiting), pid)
        && (r !in old(all) ==> r.Value() == Pending([], false))
        && (if pid in old(table) then r == old(table)[pid] && r in old(all) else fresh(r) && mem.node)
      ensures r != null ==> forall i :: 0 <= i < |r.ring| ==> r.ring[i] in nodes
      ensures r != null && Orderable(PidsIn(old(all)) + {pid}) ==>
        Finds(r) && waiting == old(waiting)[pid := PendingFor(old(waiting), pid)]
      ensures pid in old(waiting) <==> pid in old(table)
      ensures Held() == if r == null then old(Held()) else old(Held())[r := r.Value().tickets]
      ensures r != null ==> if r in old(Held()) then old(Held())[r] == r.Value().tickets else r.Value().tickets == []
    {
      hide Valid, Open, Orderable, Held, Values;
      SearchFinds(pid);
      var found := Search(root, pid);
      if found.Some? {
        FoundOpen(found.value);
        return found.value;
      }
      if !mem.node {
        return null;
      }
      r := CreateReservation(pid);
    }

    method CreateReservation(pid: Int32) returns (r: Reservation)
      requires Valid() && pid !in table
      modifies this`root, this`all, this`table, this`waiting
      ensures Open(r) && fresh(r) && r.pid == pid && r.ring == [] && all == old(all) + {r}
      ensures r.Value() == Pending([], false) && r !in old(Held()) && Held() == old(Held())[r := []]
      ensures Orderable(PidsIn(old(all)) + {pid}) ==> Finds(r) && waiting == old(waiting)[pid := Pending([], false)]
    {
      hide Rings, Sound, Shown, Orderable, Visible, Values, Held;
      r := new Reservation(pid);
      NoValues(r.ring);
      root := InsertReservation(root, r, table, all);
      Enter(r);
    }

    /** A new reservation is in the tree, and what the search finds may have changed. */
    ghost method Enter(r: Reservation)
      requires Sound(root, Visible(root), all + {r}) && Rings(all, tasks, nodes) && Shown(waiting, table, null)
      requires r !in all && r.head == null && r.ring == []
      modifies this`all, this`table, this`waiting
      ensures Open(r) && all == old(all) + {r} && table == Visible(root)
      ensures table == old(table)[r.pid := r] ==> waiting == old(waiting)[r.pid := r.Value()]
      ensures r !in old(Held()) && Held() == old(Held())[r := r.Value().tickets]
    {
      hide Holds, Rings, Sound, Shown, ValuesOf, Visible, Values, Held;
      EmptyRing(r);
      RingsGrow(all, tasks, nodes, r);
      ShownGrows(waiting, table, r);
      all := all + {r};
      table := Visible(root);
      waiting := ValuesOf(table);
      ValuesShown(table, r);
      HeldMore(r);
    }

    /** insert_ticket. The record goes to the reservation that the search finds for the process, or to a new
        one; no other reservation changes. If the comparison can order the process IDs, this is an update
        of the table. */
    method InsertTicket(record: Record, now: int, mem: Memory) returns (ok: bool, ghost r: Reservation?)
      requires Valid()
      modifies this, all, nodes
      ensures Valid() && tasks == old(tasks) && fresh(nodes - old(nodes)) && fresh(all - old(all))
      ensures r == null ==>
        !ok && !mem.node && record.pid !in old(waiting) && waiting == old(waiting) && all == old(all)
      ensures r != null ==>
        && r.pid == record.pid && all == old(all) + {r}
        && (if record.pid in old(waiting) then r in old(all) && old(Finds(r)) else r !in old(all) && mem.node)
        && (r.Value(), ok) == StoreIn(PendingFor(old(waiting), record.pid), record, now, mem)
        && (Shares(record.op, OP_PTY) ==> r.pty)
      ensures forall other :: other in old(all) && other != r ==> other.Value() == old(other.Value())
      ensures OneMore(old(Held()), Held(), record.pid, Ticket(record.id, record.op, now))
      ensures ok == InsertRecord(old(waiting), record, now, mem).1
      ensures Orderable(PidsIn(old(all)) + {record.pid}) ==>
        waiting == InsertRecord(old(waiting), record, now, mem).0
    {
      hide Valid, Open, Orderable, StoreIn, OneMore, Values, Held, PidsIn;
      ghost var held := Held();
      var target := Reserve(record.pid, mem);
      r := target;
      if target == null {
        NoneMore(held, record.pid, Ticket(record.id, record.op, now));
        return false, null;
      }
      ghost var before := target.Value();
      ok := Fill(target, record, now, mem);
      StoredOnly(before, record, now, mem);
      OnlyOneMore(held, target, before.tickets, target.Value().tickets, Ticket(record.id, record.op, now));
      UpdatedTwice(old(waiting), record.pid, PendingFor(old(waiting), record.pid), target.Value());
    }

    method Fill(r: Reservation, record: Record, now: int, mem: Memory) returns (ok: bool)
      requires Open(r) && r.pid == record.pid
      modifies this`waiting, this`nodes, r, r.ring
      ensures Valid() && fresh(nodes - old(nodes))
      ensures (r.Value(), ok) == StoreIn(old(r.Value()), record, now, mem)
      ensures Shares(record.op, OP_PTY) ==> r.pty
      ensures waiting == if Finds(r) then old(waiting)[r.pid := r.Value()] else old(waiting)
      ensures Held() == old(Held())[r := r.Value().tickets]
    {
      hide Open, Valid, Held;
      OpenIn(r);
      ok := true;
      if Shares(record.op, OP_PTY) {
        GrantPty(r);
      }
      if !OnlyPty(record.op) {
        if mem.ticket {
          AddTicket(r, Ticket(record.id, record.op, now));
        } else {
          ok := false;
        }
      }
      Refresh(r);
      HeldKept(r);
    }

    lemma OpenIn(r: Reservation)
      requires Open(r)
      ensures r in all
    {
    }

    method GrantPty(r: Reservation)
      requires Open(r)
      modifies r`pty
      ensures Open(r) && r.pty
    {
      r.pty := true;
    }

    method AddTicket(r: Reservation, t: Ticket)
      requires Open(r)
      modifies this`nodes, r`head, r`ring, r.ring
      ensures Open(r) && fresh(nodes - old(nodes))
      ensures Values(r.ring) == old(Values(r.ring)) + [t]
    {
      hide Holds, Shown, Values, Sound;
      HoldsOwner(r, r.head, r.ring);
      var node := r.Add(t);
      nodes := nodes + {node};
      RingsKept({r});
      ShownKept(r);
    }

    /** cred_prepare: the new credential joins with an empty ring; nothing else changes. */
    method PrepareCred(id: Id, previous: TaskData?) returns (t: TaskData)
      requires Valid() && (previous == null || previous in tasks)
      modifies this`tasks
      ensures Valid() && fresh(t) && tasks == old(tasks) + {t}
      ensures t.identifier == id && t.Tickets() == []
      ensures t.inRealm == (previous != null && previous.inRealm) && t.pty == (previous != null && previous.pty)
    {
      hide Holds, Sound, Shown;
      t := new TaskData(id, previous);
      EmptyRing(t);
      tasks := tasks + {t};
    }

    /** check_ticket_cache, for the current process: what was pending goes to the end of its ring,
        what has expired is dropped and freed. `all` lists every node concerned. */
    method CheckTicketCache(pid: Int32, task: TaskData, now: int) returns (ghost all: seq<Node>)
      requires Valid() && task in tasks
      modifies this`waiting, task`pty, task`head, task`ring, all, nodes
      ensures Valid() && waiting == Claimed(old(waiting), pid)
      ensures task.pty == (old(task.pty) || PendingFor(old(waiting), pid).pty)
      ensures Values(all) == old(task.Tickets()) + PendingFor(old(waiting), pid).tickets
      ensures task.Tickets() == Expire(Values(all), now)
      ensures FreedUpTo(all, Freed(Values(all), now))
      ensures Increasing(Values(all)) ==> task.ring == all[Freed(Values(all), now)..]
    {
      hide Valid, Values, Expire, Freed, FreedUpTo, Increasing;
      FindPending(pid, task);
      all := task.ring;
      ExpireTask(task, now);
      NoValues(task.ring);
      if Increasing(Values(all)) {
        ExpiryOrdered(Values(all), now);
      }
    }

    /** The reservation of the process, if it has one, is claimed. */
    method FindPending(pid: Int32, task: TaskData)
      requires Valid() && task in tasks
      modifies this`waiting, task`pty, task`head, task`ring, all, nodes
      ensures Valid() && waiting == Claimed(old(waiting), pid)
      ensures task.pty == (old(task.pty) || PendingFor(old(waiting), pid).pty)
      ensures task.Tickets() == old(task.Tickets()) + PendingFor(old(waiting), pid).tickets
    {
      hide Valid, Values;
      SearchFinds(pid);
      var found := Search(root, pid);
      if found.Some? {
        FoundOpen(found.value);
        ClaimPending(task, found.value);
      }
    }

    method ClaimPending(task: TaskData, r: Reservation)
      requires Valid() && task in tasks && Finds(r)
      modifies this`waiting, task`pty, task`head, task`ring, r, nodes
      ensures Valid() && waiting == Claimed(old(waiting), r.pid)
      ensures task.pty == (old(task.pty) || old(r.pty))
      ensures task.Tickets() == old(task.Tickets()) + old(r.Value().tickets)
    {
      hide Valid, Open, Values;
      MoveRing(task, r);
      ValuesAppend(old(task.ring), old(r.ring));
      Refresh(r);
    }

    method MoveRing(task: TaskData, r: Reservation)
      requires Valid() && task in tasks && Finds(r)
      modifies task`pty, task`head, task`ring, r, nodes
      ensures Open(r) && r.pid in waiting && r.Value() == Pending([], false)
      ensures task.pty == (old(task.pty) || old(r.pty)) && task.ring == old(task.ring) + old(r.ring)
    {
      hide Holds, Values, Sound;
      SoundTable(root, table, all);
      HoldsOwner(task, task.head, task.ring);
      HoldsOwner(r, r.head, r.ring);
      task.Claim(r);
      RingsKept({r, task});
    }

    method ExpireTask(task: TaskData, now: int)
      requires Valid() && task in tasks
      modifies task`head, task`ring, nodes
      ensures Valid()
      ensures task.Tickets() == Expire(old(task.Tickets()), now)
      ensures task.ring == [] || task.ring == old(task.ring)[Freed(old(task.Tickets()), now)..]
      ensures FreedUpTo(old(task.ring), Freed(old(task.Tickets()), now))
    {
      hide Holds, Expire, Freed, Sound, FreedUpTo;
      HoldsOwner(task, task.head, task.ring);
      task.DropExpired(now);
      RingsKept({task});
    }

    /** Changing one reservation changes what that one holds. */
    twostate lemma HeldKept(r: Reservation)
      requires all == old(all) && r in all
      requires forall o :: o in all && o != r ==> o.ring == old(o.ring)
      ensures Held() == old(Held())[r := r.Value().tickets]
    {
      hide Values;
    }

    /** Adding one adds what it holds. */
    twostate lemma HeldMore(new r: Reservation)
      requires all == old(all) + {r} && r !in old(all)
      requires forall o :: o in old(all) ==> o.ring == old(o.ring)
      ensures r !in old(Held())
      ensures Held() == old(Held())[r := r.Value().tickets]
    {
      hide Values;
    }

    twostate lemma ShownKept(r: Reservation)
      requires old(Shown(waiting, table, r)) && table == old(table) && waiting == old(waiting)
      requires forall k :: k in table && table[k] != r ==>
        table[k].ring == old(table[k].ring) && table[k].pty == old(table[k].pty)
      ensures Shown(waiting, table, r)
    {
    }

    /** Changing some rings leaves the others well formed. */
    twostate lemma RingsKept(changed: set<object>)
      requires old(Rings(all, tasks, nodes)) && old(nodes) <= nodes && all == old(all) && tasks == old(tasks)
      requires forall r :: r in all && r !in changed ==> r.head == old(r.head) && r.ring == old(r.ring)
      requires forall t :: t in tasks && t !in changed ==> t.head == old(t.head) && t.ring == old(t.ring)
      requires forall n :: n in old(nodes) && old(n.owner) !in changed ==> unchanged(n)
      requires forall r :: r in all && r in changed ==>
        && (forall i :: 0 <= i < |r.ring| ==> r.ring[i] in nodes)
        && Holds(r, r.head, r.ring)
      requires forall t :: t in tasks && t in changed ==>
        && (forall i :: 0 <= i < |t.ring| ==> t.ring[i] in nodes)
        && Holds(t, t.head, t.ring)
      ensures Rings(all, tasks, nodes)
    {
      forall r | r in all && r !in changed
        ensures Holds(r, r.head, r.ring)
      {
        assert forall i :: 0 <= i < |r.ring| ==> unchanged(r.ring[i]);
      }
      forall t | t in tasks && t !in changed
        ensures Holds(t, t.head, t.ring)
      {
        assert forall i :: 0 <= i < |t.ring| ==> unchanged(t.ring[i]);
      }
    }
  }
}
