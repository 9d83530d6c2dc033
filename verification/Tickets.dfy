/** Tickets as values: what the kernel's ring walks compute on a list of tickets, for any
    timestamps at all, and when that is what the ticket cache is meant to do. */
module Tickets {
  import opened Bytes

  const SECOND: int := 1_000_000_000
  const EXPIRY: int := 15 * SECOND

  const OP_NOP: bv16 := 0x0001
  const OP_PTY: bv16 := 0x0002
  const OP_REGISTER: bv16 := 0x0004
  const OP_CLAIM: bv16 := 0x0010
  const OP_OPEN: bv16 := 0x0040
  const OP_SOCKET: bv16 := 0x0300
  const OP_SHM: bv16 := 0x0400
  const OP_DECLASSIFY: bv16 := 0x0800

  datatype Ticket = Ticket(id: Id, op: bv16, stamp: int)

  /** Two operation masks have a bit in common. */
  predicate Shares(a: bv16, b: bv16) {
    a & b != 0
  }

  /** The ticket allows (some part of) operation `op` on object `id`. */
  predicate Matches(t: Ticket, id: Id, op: bv16) {
    t.id == id && Shares(t.op, op)
  }

  ghost predicate Grants(s: seq<Ticket>, id: Id, op: bv16) {
    exists t :: t in s && Matches(t, id, op)
  }

  predicate Expired(t: Ticket, now: int) {
    t.stamp <= now - EXPIRY
  }

  predicate Increasing(s: seq<Ticket>) {
    forall i, j :: 0 <= i < j < |s| ==> s[i].stamp < s[j].stamp
  }

  predicate NonDecreasing(s: seq<Ticket>) {
    forall i, j :: 0 <= i < j < |s| ==> s[i].stamp <= s[j].stamp
  }

  /** The tickets less than fifteen seconds old, in order: what expiry is meant to keep. */
  function Live(s: seq<Ticket>, now: int): (r: seq<Ticket>)
    ensures forall t :: t in r <==> t in s && !Expired(t, now)
  {
    if s == [] then []
    else if Expired(s[0], now) then Live(s[1..], now)
    else [s[0]] + Live(s[1..], now)
  }

  // ----- the walks, on a ring that starts with s[0] and returns to it

  /** Where a walk that follows `next` while the timestamp grows comes to rest. */
  function Ascent(s: seq<Ticket>, i: nat): (k: nat)
    requires i < |s|
    ensures i <= k < |s|
    ensures forall j :: i <= j < k ==> s[j].stamp < s[j + 1].stamp
    ensures k + 1 < |s| ==> s[k + 1].stamp <= s[k].stamp
    decreases |s| - i
  {
    if i + 1 < |s| && s[i].stamp < s[i + 1].stamp then Ascent(s, i + 1) else i
  }

  /** The number of tickets a decision scan looks at when none of them matches. */
  function Reach(s: seq<Ticket>): (n: nat)
    ensures n <= |s|
  {
    if s == [] || s[0].stamp <= 0 then 0 else Ascent(s, 0) + 1
  }

  /** The outcome of a decision scan. */
  predicate Scan(s: seq<Ticket>, id: Id, op: bv16) {
    exists i :: 0 <= i < Reach(s) && Matches(s[i], id, op)
  }

  /** Where the expiry walk comes to rest. */
  function ExpiryStop(s: seq<Ticket>, i: nat, now: int): (k: nat)
    requires i < |s|
    ensures i <= k < |s|
    ensures forall j :: i <= j < k ==> Expired(s[j], now) && s[j].stamp < s[j + 1].stamp
    ensures Expired(s[k], now) && k + 1 < |s| ==> s[k + 1].stamp <= s[k].stamp
    decreases |s| - i
  {
    if Expired(s[i], now) && i + 1 < |s| && s[i].stamp < s[i + 1].stamp
    then ExpiryStop(s, i + 1, now)
    else i
  }

  /** The tickets the task keeps after the expiry walk. */
  function Expire(s: seq<Ticket>, now: int): (r: seq<Ticket>) {
    if s == [] then []
    else
      var k := ExpiryStop(s, 0, now);
      if Expired(s[k], now) then [] else s[k..]
  }

  /** How many tickets, counted from the head, the expiry walk frees. */
  function Freed(s: seq<Ticket>, now: int): (n: nat)
    ensures n <= |s|
  {
    if s == [] then 0
    else
      var k := ExpiryStop(s, 0, now);
      if Expired(s[k], now) then k + 1 else k
  }

  // ----- what the walks achieve

  lemma ReachAll(s: seq<Ticket>)
    ensures Reach(s) == |s| <==> s == [] || (s[0].stamp > 0 && Increasing(s))
  {
    if s != [] && s[0].stamp > 0 {
      if Ascent(s, 0) == |s| - 1 {
        StepsIncrease(s);
      } else {
        var k := Ascent(s, 0);
        assert s[k + 1].stamp <= s[k].stamp;
      }
    }
  }

  /** Along an ascent stamps only grow. */
  lemma {:induction false} AscentGrows(s: seq<Ticket>, i: nat)
    requires s != [] && i <= Ascent(s, 0)
    ensures s[0].stamp <= s[i].stamp
  {
    if i > 0 {
      AscentGrows(s, i - 1);
    }
  }

  /** Whatever the stamps of a ring, after expiry the scan finds only live tickets: it starts at one and
      goes no further than stamps grow. */
  lemma ScanSound(s: seq<Ticket>, now: int, id: Id, op: bv16) returns (t: Ticket)
    requires Scan(Expire(s, now), id, op)
    ensures t in s && Matches(t, id, op) && !Expired(t, now)
  {
    var r := Expire(s, now);
    var i :| 0 <= i < Reach(r) && Matches(r[i], id, op);
    AscentGrows(r, i);
    t := r[i];
  }

  /** A walk that has visited `i` growing timestamps is still within reach, and at its end when
      the next timestamp does not grow. */
  lemma WalkReach(s: seq<Ticket>, i: nat)
    requires 0 < i <= |s| && s[0].stamp > 0
    requires forall j :: 0 <= j < i - 1 ==> s[j].stamp < s[j + 1].stamp
    ensures i <= Reach(s)
    ensures (i < |s| ==> s[i].stamp <= s[i - 1].stamp) ==> i == Reach(s)
  {
  }

  lemma {:induction false} StepsIncrease(s: seq<Ticket>)
    requires forall j :: 0 <= j < |s| - 1 ==> s[j].stamp < s[j + 1].stamp
    ensures Increasing(s)
  {
    forall i, j | 0 <= i < j < |s|
      ensures s[i].stamp < s[j].stamp
    {
      var m := i + 1;
      while m < j
        invariant i < m <= j
        invariant s[i].stamp < s[m].stamp
      {
        m := m + 1;
      }
    }
  }

  /** On a time-ordered ring the scan succeeds exactly when some ticket allows the operation. */
  lemma ScanOrdered(s: seq<Ticket>, id: Id, op: bv16)
    requires s != [] ==> s[0].stamp > 0
    requires Increasing(s)
    ensures Scan(s, id, op) <==> Grants(s, id, op)
  {
    ReachAll(s);
    if Scan(s, id, op) {
      var i :| 0 <= i < Reach(s) && Matches(s[i], id, op);
      assert s[i] in s;
    }
    if Grants(s, id, op) {
      var t :| t in s && Matches(t, id, op);
      var i :| 0 <= i < |s| && s[i] == t;
    }
  }

  /** The timestamp order is not only sufficient: when every ticket names another object and allows
      something, the scan is right for all requests exactly when the ring starts after time zero
      and is strictly increasing. */
  lemma ScanExact(s: seq<Ticket>)
    requires forall i, j :: 0 <= i < j < |s| ==> s[i].id != s[j].id
    requires forall i :: 0 <= i < |s| ==> s[i].op != 0
    ensures (forall id: Id, op: bv16 :: Scan(s, id, op) <==> Grants(s, id, op))
       <==> (s == [] || (s[0].stamp > 0 && Increasing(s)))
  {
    if s == [] || (s[0].stamp > 0 && Increasing(s)) {
      forall id: Id, op: bv16
        ensures Scan(s, id, op) <==> Grants(s, id, op)
      {
        ScanOrdered(s, id, op);
      }
    } else {
      ReachAll(s);
      var missed := s[Reach(s)];
      assert missed in s && Matches(missed, missed.id, missed.op);
      assert Grants(s, missed.id, missed.op);
      assert !Scan(s, missed.id, missed.op);
    }
  }

  lemma {:induction false} LiveSuffix(s: seq<Ticket>, k: nat, now: int)
    requires k <= |s|
    requires forall j :: 0 <= j < k ==> Expired(s[j], now)
    requires forall j :: k <= j < |s| ==> !Expired(s[j], now)
    ensures Live(s, now) == s[k..]
  {
    if s != [] {
      if k == 0 {
        LiveSuffix(s[1..], 0, now);
        assert s == [s[0]] + s[1..];
      } else {
        LiveSuffix(s[1..], k - 1, now);
      }
    }
  }

  /** No two neighbouring tickets that are both due share a timestamp. */
  predicate NoTieAmongExpired(s: seq<Ticket>, now: int) {
    forall i :: 0 <= i < |s| - 1 && Expired(s[i], now) ==> s[i].stamp < s[i + 1].stamp
  }

  /** Expiry on a clock that never runs backwards but may stand still. It keeps exactly the live
      tickets and frees exactly the others if and only if no two due neighbours share a timestamp;
      with such a tie the live tickets survive only if there are none. */
  lemma ExpiryExact(s: seq<Ticket>, now: int)
    requires NonDecreasing(s)
    ensures Expire(s, now) == Live(s, now) && Freed(s, now) == |s| - |Live(s, now)|
       <==> NoTieAmongExpired(s, now)
    ensures Expire(s, now) == Live(s, now)
       <==> (NoTieAmongExpired(s, now) || Expired(s[|s| - 1], now))
  {
    if s != [] {
      var k, last := ExpiryStop(s, 0, now), |s| - 1;
      if !Expired(s[k], now) {
        LiveSuffix(s, k, now);
      } else if k == last {
        LiveSuffix(s, |s|, now);
      } else {
        ExpiryAtTie(s, k, now);
      }
    }
  }

  lemma ExpiryAtTie(s: seq<Ticket>, k: nat, now: int)
    requires NonDecreasing(s) && k < |s| - 1 && Expired(s[k], now)
    requires s[k + 1].stamp <= s[k].stamp
    ensures !NoTieAmongExpired(s, now)
    ensures Expired(s[|s| - 1], now) <==> Live(s, now) == []
  {
    var last := |s| - 1;
    assert s[last] in s;
    if Expired(s[last], now) {
      forall j | 0 <= j < |s|
        ensures Expired(s[j], now)
      {
      }
      LiveSuffix(s, |s|, now);
    } else {
      assert s[last] in Live(s, now);
    }
  }

  /** The promise of the ticket cache, on a clock that moves between insertions. */
  lemma ExpiryOrdered(s: seq<Ticket>, now: int)
    requires Increasing(s)
    ensures Expire(s, now) == Live(s, now)
    ensures Live(s, now) == s[Freed(s, now)..]
  {
    if s != [] {
      var k := ExpiryStop(s, 0, now);
      if Expired(s[k], now) {
        assert k == |s| - 1;
        LiveSuffix(s, |s|, now);
      } else {
        LiveSuffix(s, k, now);
      }
    }
  }

  /** A ring with two tickets stamped in the same instant: the scan misses the second one, and
      expiry drops a live ticket and leaks two. */
  lemma TiesBreakTheWalks(a: Id, b: Id)
    requires a != b
    ensures var s := [Ticket(a, OP_OPEN, 1), Ticket(b, OP_OPEN, 1), Ticket(a, OP_OPEN, EXPIRY + 2)];
      && Grants(s, b, OP_OPEN) && !Scan(s, b, OP_OPEN)
      && Expire(s, EXPIRY + 2) == [] && s[2] in Live(s, EXPIRY + 2)
      && Freed(s, EXPIRY + 2) == 1
  {
    var s := [Ticket(a, OP_OPEN, 1), Ticket(b, OP_OPEN, 1), Ticket(a, OP_OPEN, EXPIRY + 2)];
    assert s[1] in s && Matches(s[1], b, OP_OPEN);
    assert s[2] in s;
    assert Reach(s) == 1;
  }

  // ----- pending tickets

  datatype Record = Record(pid: Int32, id: Id, op: bv16)

  /** What waits for a process until it next enters the kernel. */
  datatype Pending = Pending(tickets: seq<Ticket>, pty: bool)

  type Reservations = map<Int32, Pending>

  /** Whether the two allocations of one insertion succeed. */
  datatype Memory = Memory(node: bool, ticket: bool)

  predicate OnlyPty(op: bv16) {
    op == OP_PTY
  }

  function PendingFor(m: Reservations, pid: Int32): (p: Pending) {
    if pid in m then m[pid] else Pending([], false)
  }

  /** insert_ticket, once the reservation is there: what it then holds, and the value returned. */
  function StoreIn(p: Pending, r: Record, now: int, mem: Memory): (res: (Pending, bool)) {
    var q := p.(pty := p.pty || Shares(r.op, OP_PTY));
    if OnlyPty(r.op) then (q, true)
    else if !mem.ticket then (q, false)
    else (q.(tickets := q.tickets + [Ticket(r.id, r.op, now)]), true)
  }

  lemma StoredOnly(p: Pending, r: Record, now: int, mem: Memory)
    ensures forall t :: t in StoreIn(p, r, now, mem).0.tickets ==> t in p.tickets || t == Ticket(r.id, r.op, now)
  {
  }

  /** insert_ticket: the table afterwards and the value returned. */
  function InsertRecord(m: Reservations, r: Record, now: int, mem: Memory): (res: (Reservations, bool)) {
    if r.pid !in m && !mem.node then (m, false)
    else
      var (p, ok) := StoreIn(PendingFor(m, r.pid), r, now, mem);
      (m[r.pid := p], ok)
  }

  /** check_ticket_cache for one process: what it leaves pending. */
  function Claimed(m: Reservations, pid: Int32): (m': Reservations) {
    if pid in m then m[pid := Pending([], false)] else m
  }
}
