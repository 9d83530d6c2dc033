/** The circular, doubly linked ticket rings of the kernel, in place. A ring end is never marked:
    every walk below stops by comparing timestamps. */
module TicketRing {
  import opened Bytes
  import opened Tickets

  class Node {
    const ticket: Ticket
    var next: Node?
    var prev: Node?
    var freed: bool          // handed back to the allocator
    ghost var owner: object? // the task or reservation whose ring holds this node

    constructor (t: Ticket)
      ensures ticket == t && next == null && prev == null && !freed && owner == null
    {
      ticket, next, prev, freed, owner := t, null, null, false, null;
    }
  }

  ghost predicate Distinct(s: seq<Node>) {
    forall i, j :: 0 <= i < j < |s| ==> s[i] != s[j]
  }

  /** The nodes s[lo..hi], in this order, form one closed ring. */
  ghost predicate Linked(s: seq<Node>, lo: nat, hi: nat)
    requires lo <= hi <= |s|
    reads s`next, s`prev
  {
    && (forall i {:trigger s[i].next} :: lo <= i < hi ==> s[i].next == if i + 1 < hi then s[i + 1] else s[lo])
    && (forall i {:trigger s[i].prev} :: lo <= i < hi ==> s[i].prev == if i > lo then s[i - 1] else s[hi - 1])
  }

  ghost predicate Ring(s: seq<Node>)
    reads s`next, s`prev
  {
    Distinct(s) && Linked(s, 0, |s|)
  }

  lemma RingSlice(s: seq<Node>, lo: nat, hi: nat)
    requires lo <= hi <= |s| && Distinct(s)
    ensures Ring(s[lo..hi]) <==> Linked(s, lo, hi)
  {
    var t := s[lo..hi];
    assert forall i :: lo <= i < hi ==> s[i] == t[i - lo];
    assert forall i :: 0 <= i < |t| ==> t[i] == s[lo + i];
  }

  lemma LinkedPrefix(s: seq<Node>, t: seq<Node>)
    requires Ring(s)
    ensures Linked(s + t, 0, |s|)
  {
    var q := s + t;
    assert forall i :: 0 <= i < |s| ==> q[i] == s[i];
  }

  lemma LinkedSuffix(s: seq<Node>, t: seq<Node>)
    requires Ring(t)
    ensures Linked(s + t, |s|, |s + t|)
  {
    var q := s + t;
    assert forall i :: |s| <= i < |q| ==> q[i] == t[i - |s|];
  }

  /** `head` is how `owner` reaches the ring of allocated nodes `s`; owners never share a node. */
  ghost predicate Holds(owner: object, head: Node?, s: seq<Node>)
    reads s
  {
    && Ring(s)
    && (head == null <==> s == [])
    && (s != [] ==> head == s[0])
    && (forall i :: 0 <= i < |s| ==> s[i].owner == owner && !s[i].freed)
  }

  /** Exactly the first `n` of the nodes have been freed. */
  ghost predicate FreedUpTo(s: seq<Node>, n: nat)
    reads s`freed
  {
    forall i :: 0 <= i < |s| ==> (s[i].freed <==> i < n)
  }

  ghost predicate OwnedBy(owner: object, s: seq<Node>)
    reads s`owner
  {
    forall i :: 0 <= i < |s| ==> s[i].owner == owner
  }

  lemma HoldsParts(owner: object, head: Node?, s: seq<Node>)
    requires Holds(owner, head, s)
    ensures Ring(s) && FreedUpTo(s, 0) && OwnedBy(owner, s)
    ensures (head == null <==> s == []) && (s != [] ==> head == s[0])
  {
    hide Ring;
  }

  lemma HoldsMore(owner: object, head: Node?, s: seq<Node>, node: Node)
    requires OwnedBy(owner, s) && FreedUpTo(s, 0) && node.owner == owner && !node.freed
    requires Ring(s + [node]) && head == (s + [node])[0]
    ensures Holds(owner, head, s + [node])
  {
    hide Ring;
  }

  lemma DistinctMore(s: seq<Node>, node: Node)
    requires Distinct(s) && node !in s
    ensures Distinct(s + [node])
  {
  }

  lemma HoldsRest(owner: object, head: Node?, s: seq<Node>, kept: seq<Node>, n: nat)
    requires n <= |s| && OwnedBy(owner, s) && FreedUpTo(s, n) && Ring(kept) && (kept == [] || kept == s[n..])
    requires (head == null <==> kept == []) && (kept != [] ==> head == kept[0])
    ensures Holds(owner, head, kept)
  {
    hide Ring;
  }

  lemma HoldsHead(owner: object, head: Node?, s: seq<Node>)
    requires Holds(owner, head, s)
    ensures head == null <==> s == []
  {
  }

  lemma HoldsOwner(owner: object, head: Node?, s: seq<Node>)
    requires Holds(owner, head, s)
    ensures forall n :: n in s ==> n.owner == owner
  {
  }

  lemma EmptyRing(owner: object)
    ensures Holds(owner, null, [])
  {
  }

  ghost function Values(s: seq<Node>): (v: seq<Ticket>)
    ensures |v| == |s|
    ensures forall i :: 0 <= i < |s| ==> v[i] == s[i].ticket
  {
    seq(|s|, i requires 0 <= i < |s| => s[i].ticket)
  }

  lemma ValuesAppend(s: seq<Node>, t: seq<Node>)
    ensures Values(s + t) == Values(s) + Values(t)
  {
  }

  // ----- walks

  /** Counting pending tickets: the walk ends on every ring, whatever its timestamps. */
  method CountTickets(head: Node, ghost s: seq<Node>) returns (count: nat)
    requires Ring(s) && s != [] && head == s[0]
    ensures count == Ascent(Values(s), 0) + 1
  {
    var current := head;
    count := 1;
    ghost var v := Values(s);
    while current.ticket.stamp < current.next.ticket.stamp
      invariant 1 <= count <= |s| && current == s[count - 1]
      invariant v[0].stamp <= v[count - 1].stamp
      invariant Ascent(v, count - 1) == Ascent(v, 0)
      decreases |s| - count
    {
      current := current.next;
      count := count + 1;
    }
  }

  /** The byte loop that compares two identifiers. */
  method SameId(a: Id, b: Id) returns (found: bool)
    ensures found <==> a == b
  {
    found := true;
    var tmp := 0;
    while tmp < ID_LENGTH
      invariant 0 <= tmp <= ID_LENGTH
      invariant found && a[..tmp] == b[..tmp]
    {
      if a[tmp] != b[tmp] {
        found := false;
        break;
      }
      tmp := tmp + 1;
    }
    if found {
      assert a == a[..ID_LENGTH] && b == b[..ID_LENGTH];
    }
  }

  /** One ticket against one request: the identifiers agree, then the operation is enabled. */
  method Allows(t: Ticket, id: Id, op: bv16) returns (found: bool)
    ensures found <==> Matches(t, id, op)
  {
    found := SameId(t.id, id);
    if found && !Shares(t.op, op) {
      found := false;
    }
  }

  /** The decision scan of can_access and shm_can_access, on any ring. */
  method ScanRing(head: Node, ghost s: seq<Node>, id: Id, op: bv16) returns (found: bool)
    requires Ring(s) && s != [] && head == s[0]
    ensures found <==> Scan(Values(s), id, op)
  {
    var current: Node := head;
    var tracker := 0;
    found := false;
    ghost var v, i := Values(s), 0;
    while current.ticket.stamp > tracker && !found
      invariant 0 <= i <= |s|
      invariant found ==> i < |s|
      invariant current == if i < |s| then s[i] else s[0]
      invariant tracker == if i == 0 then 0 else v[i - 1].stamp
      invariant i > 0 ==> 0 < v[0].stamp <= tracker
      invariant forall j :: 0 <= j < i - 1 ==> v[j].stamp < v[j + 1].stamp
      invariant found ==> v[i].stamp > tracker && Matches(v[i], id, op)
      invariant forall j :: 0 <= j < i ==> !Matches(v[j], id, op)
      decreases !found, |s| - i
    {
      found := Allows(current.ticket, id, op);
      if !found {
        tracker := current.ticket.stamp;
        current := current.next;
        i := i + 1;
      }
    }
    if found {
      WalkReach(v, i + 1);
    } else if i > 0 {
      WalkReach(v, i);
    }
  }

  // ----- updates

  /** insert_ticket's wiring: the new node q[n] goes in before the head, at the end of the ring. */
  method Append(head: Node?, node: Node, ghost q: seq<Node>)
    returns (head': Node)
    requires Distinct(q) && q != [] && node == q[|q| - 1]
    requires Linked(q, 0, |q| - 1)
    requires if |q| == 1 then head == null else head == q[0]
    modifies q`next, q`prev
    ensures Linked(q, 0, |q|) && head' == q[0]
  {
    if head == null {
      node.next := node;
      node.prev := node;
      return node;
    }
    var last := head.prev;
    head.prev := node;
    node.next := last.next;
    node.prev := last;
    last.next := node;
    head' := head;
  }

  /** check_ticket_cache's splice of two non-empty rings, q[..m] and q[m..]: four pointer writes. */
  method Splice(head: Node, pending: Node, ghost q: seq<Node>, ghost m: nat)
    requires Distinct(q) && 0 < m < |q| && head == q[0] && pending == q[m]
    requires Linked(q, 0, m) && Linked(q, m, |q|)
    modifies q`next, q`prev
    ensures Linked(q, 0, |q|)
  {
    var current := pending.prev;
    pending.prev := head.prev;
    current.next := head;
    head.prev.next := pending;
    head.prev := current;
  }

  /** Appending a non-empty ring to one that may be empty. */
  method Concatenate(head: Node?, ghost s: seq<Node>, pending: Node, ghost p: seq<Node>) returns (head': Node)
    requires Ring(s) && Ring(p) && Distinct(s + p)
    requires (head == null <==> s == []) && (s != [] ==> head == s[0]) && p != [] && pending == p[0]
    modifies s`next, s`prev, p`next, p`prev
    ensures Ring(s + p) && head' == (s + p)[0]
  {
    if head == null {
      assert s + p == p;
      return pending;
    }
    LinkedPrefix(s, p);
    LinkedSuffix(s, p);
    Splice(head, pending, s + p, |s|);
    head' := head;
  }

  lemma OwnersDistinct(a: object, s: seq<Node>, b: object, p: seq<Node>)
    requires Distinct(s) && Distinct(p) && a != b
    requires forall i :: 0 <= i < |s| ==> s[i].owner == a
    requires forall i :: 0 <= i < |p| ==> p[i].owner == b
    ensures Distinct(s + p)
  {
  }

  /** The new owner of a ring's nodes. */
  ghost method Adopt(owner: object, p: seq<Node>)
    modifies p`owner
    ensures forall i :: 0 <= i < |p| ==> p[i].owner == owner
  {
    forall n | n in p {
      n.owner := owner;
    }
  }

  method Free(n: Node)
    requires !n.freed
    modifies n`freed
    ensures n.freed
  {
    n.freed := true;
  }

  /** The walk over expired tickets: it stops at the first ticket that is still good, or at the
      last one before the timestamps stop growing. */
  method ExpiryWalk(head: Node, now: int, ghost s: seq<Node>) returns (current: Node, count: nat)
    requires Ring(s) && s != [] && head == s[0]
    ensures count == ExpiryStop(Values(s), 0, now) && current == s[count]
  {
    current, count := head, 0;
    ghost var v := Values(s);
    while Expired(current.ticket, now) && current.ticket.stamp < current.next.ticket.stamp
      invariant 0 <= count < |s| && current == s[count]
      invariant v[0].stamp <= v[count].stamp
      invariant ExpiryStop(v, count, now) == ExpiryStop(v, 0, now)
      decreases |s| - count
    {
      current := current.next;
      count := count + 1;
    }
  }

  /** The nodes s[..n] can be walked from the first. */
  ghost predicate Chain(s: seq<Node>, n: nat)
    requires n <= |s|
    reads s`next
  {
    && (forall i {:trigger s[i].next} :: 0 <= i < n - 1 ==> s[i].next == s[i + 1])
    && (n > 0 ==> s[n - 1].next != null)
  }

  lemma RingChain(s: seq<Node>, n: nat)
    requires Ring(s) && n <= |s|
    ensures Chain(s, n)
  {
    hide Distinct;
  }

  /** Closing the ring over the dropped nodes s[..k]. */
  method CloseGap(head: Node, current: Node, ghost s: seq<Node>, ghost k: nat)
    requires Ring(s) && 0 < k < |s| && head == s[0] && current == s[k]
    modifies s`next, s`prev
    ensures Linked(s, k, |s|) && Chain(s, k)
  {
    current.prev := head.prev;
    head.prev.next := current;
  }

  /** Freeing `count` nodes along `next`: each is still allocated when its turn comes. */
  method FreeNodes(first: Node, count: nat, ghost s: seq<Node>)
    requires Distinct(s) && 0 < count <= |s| && first == s[0]
    requires Chain(s, count) && FreedUpTo(s, 0)
    modifies s`freed
    ensures FreedUpTo(s, count)
  {
    var initial := first;
    var tmp := 0;
    while tmp < count
      invariant 0 <= tmp <= count
      invariant tmp < count ==> initial == s[tmp]
      invariant FreedUpTo(s, tmp)
    {
      var current := initial;
      initial := initial.next;
      Free(current);
      tmp := tmp + 1;
    }
  }

  lemma ValuesSuffix(s: seq<Node>, k: nat)
    requires k <= |s|
    ensures Values(s[k..]) == Values(s)[k..]
  {
  }

  /** Dropping the expired tickets from the ring; `count` of them, from `head` on, are to be freed. */
  method Unlink(head: Node, now: int, ghost s: seq<Node>)
    returns (head': Node?, count: nat, ghost kept: seq<Node>)
    requires Ring(s) && s != [] && head == s[0]
    modifies s`next, s`prev
    ensures count == Freed(Values(s), now)
    ensures Ring(kept) && (head' == null <==> kept == []) && (kept != [] ==> head' == kept[0])
    ensures Values(kept) == Expire(Values(s), now)
    ensures kept == [] || kept == s[count..]
    ensures Chain(s, count)
  {
    hide Ring, Distinct, Linked, Chain, Values, Expired;
    RingParts(s);
    var current;
    current, count := ExpiryWalk(head, now, s);
    ghost var k := count;
    if Expired(current.ticket, now) {
      head', kept := null, [];
      count := count + 1;
      RingChain(s, count);
      NoRing();
    } else {
      head', kept := current, s[k..];
      RingChain(s, k);
      if count > 0 {
        CloseGap(head, current, s, k);
      }
      LinkedSlice(s, k);
      ValuesSuffix(s, k);
    }
  }

  lemma LinkedSlice(s: seq<Node>, k: nat)
    requires k <= |s| && Distinct(s) && Linked(s, k, |s|)
    ensures Ring(s[k..])
  {
    hide Linked, Distinct;
    RingSlice(s, k, |s|);
    assert s[k..|s|] == s[k..];
  }

  lemma RingParts(s: seq<Node>)
    requires Ring(s)
    ensures Distinct(s) && Linked(s, 0, |s|)
  {
  }

  lemma NoRing()
    ensures Ring([]) && Values([]) == []
  {
  }

  /** The second half of check_ticket_cache on a non-empty ring: drop what has expired, close the
      ring over the gap and free exactly the dropped nodes, each once. */
  method RemoveExpired(head: Node, now: int, ghost s: seq<Node>) returns (head': Node?, ghost kept: seq<Node>)
    requires Ring(s) && s != [] && head == s[0]
    requires FreedUpTo(s, 0)
    modifies s`next, s`prev, s`freed
    ensures Ring(kept) && (head' == null <==> kept == []) && (kept != [] ==> head' == kept[0])
    ensures Values(kept) == Expire(Values(s), now)
    ensures kept == [] || kept == s[Freed(Values(s), now)..]
    ensures FreedUpTo(s, Freed(Values(s), now))
  {
    hide Linked, Chain, Values, Expire, Freed, FreedUpTo;
    var count;
    head', count, kept := Unlink(head, now, s);
    if count > 0 {
      FreeNodes(head, count, s);
    }
  }
}
