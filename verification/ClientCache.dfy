/** libcitadel's cache of granted requests: groups of entries in singly linked lists, oldest first. */
module ClientCache {
  import opened Bytes
  import opened Tickets
  import opened Options

  // ----- time

  const LIFETIME: int := 15      // seconds

  /** time_t, as a monotonic clock gives it. */
  type Seconds = x: int | 0 <= x < 0x8000_0000_0000_0000

  /** struct timespec. */
  datatype Time = Time(sec: Seconds, nsec: int)

  predicate NotAfter(a: Time, b: Time) {
    a.sec < b.sec || (a.sec == b.sec && a.nsec <= b.nsec)
  }

  /** A difference of seconds, assigned to an unsigned 64-bit variable. */
  function Unsigned(x: int): (r: int) {
    if x < 0 then x + 0x1_0000_0000_0000_0000 else x
  }

  predicate Stale(t: Time, now: Time) {
    Unsigned(now.sec - t.sec) >= LIFETIME
  }

  /** entry_in_date: one second stricter. */
  predicate InDate(t: Time, now: Time) {
    Unsigned(now.sec - t.sec + 1) < LIFETIME
  }

  // ----- groups as values

  datatype Entry = Entry(time: Time, op: bv16, fd: int, data: seq<bv8>)

  predicate Ordered(s: seq<Entry>) {
    forall i, j :: 0 <= i < j < |s| ==> NotAfter(s[i].time, s[j].time)
  }

  predicate UpTo(s: seq<Entry>, now: Time) {
    forall i :: 0 <= i < |s| ==> NotAfter(s[i].time, now)
  }

  /** How many entries cleanup_cache_group walks past. */
  function Leading(s: seq<Entry>, now: Time): (k: nat)
    ensures k <= |s|
    ensures forall i :: 0 <= i < k ==> Stale(s[i].time, now)
    ensures k < |s| ==> !Stale(s[k].time, now)
  {
    if s == [] || !Stale(s[0].time, now) then 0
    else
      var k := Leading(s[1..], now);
      assert forall i :: 0 < i <= k ==> s[i] == s[1..][i - 1];
      k + 1
  }

  /** In a group in time order, with no entry from the future, cleaning removes exactly the expired
      entries. */
  lemma CleanupExact(s: seq<Entry>, now: Time)
    requires Ordered(s) && UpTo(s, now)
    ensures forall i :: 0 <= i < |s| ==> (i < Leading(s, now) <==> now.sec - s[i].time.sec >= LIFETIME)
  {
  }

  /** Moving an entry to the end as move_cache_item_to_end does it: the last entry of several is cut
      off and then linked to itself only. */
  function MovedToEnd<T>(s: seq<T>, k: nat): (r: seq<T>)
    requires k < |s|
  {
    if k == |s| - 1 && k > 0 then s[..k] else s[..k] + s[k + 1..] + [s[k]]
  }

  /** It is "remove, then append", and loses nothing, exactly when the entry has a successor or no
      predecessor: the guard of its only caller, or its own first line. */
  lemma MoveExact<T>(s: seq<T>, k: nat)
    requires k < |s|
    ensures MovedToEnd(s, k) == s[..k] + s[k + 1..] + [s[k]] <==> (k + 1 < |s| || k == 0)
    ensures multiset(MovedToEnd(s, k)) == multiset(s) <==> (k + 1 < |s| || k == 0)
  {
    assert s == s[..k] + [s[k]] + s[k + 1..];
    if k == |s| - 1 && k > 0 {
      assert multiset(s)[s[k]] == multiset(s[..k])[s[k]] + 1;
    }
  }

  /** Of two entries, moving the second to the end loses it. */
  lemma LastGetsLost<T>(a: T, b: T)
    ensures MovedToEnd([a, b], 1) == [a]
  {
    assert [a, b][..1] == [a];
  }

  /** A refreshed entry gets the latest time and the last place. */
  function Refreshed(s: seq<Entry>, k: nat, now: Time): (r: seq<Entry>)
    requires k < |s|
  {
    var stamped := s[k := s[k].(time := now)];
    if k + 1 < |s| then MovedToEnd(stamped, k) else stamped
  }

  lemma RefreshOrdered(s: seq<Entry>, k: nat, now: Time)
    requires Ordered(s) && UpTo(s, now) && k < |s|
    ensures Refreshed(s, k, now) == s[..k] + s[k + 1..] + [s[k].(time := now)]
    ensures Ordered(Refreshed(s, k, now)) && UpTo(Refreshed(s, k, now), now)
  {
    var stamped := s[k := s[k].(time := now)];
    assert stamped[..k] == s[..k] && stamped[k + 1..] == s[k + 1..];
    var rest := s[..k] + s[k + 1..];
    assert Refreshed(s, k, now) == rest + [s[k].(time := now)];
    assert forall i :: 0 <= i < |rest| ==> rest[i] == if i < k then s[i] else s[i + 1];
  }

  /** The entry that stands for a descriptor: with this identifier and, if one is asked for, this
      operation. */
  predicate Stands(e: Entry, fd: int, id: Id, op: Option<bv16>) {
    e.fd == fd && (op == None || op.value == e.op) && e.data == id
  }

  function FindFd(s: seq<Entry>, fd: int, id: Id, op: Option<bv16>): (k: nat)
    ensures k <= |s|
    ensures forall i :: 0 <= i < k ==> !Stands(s[i], fd, id, op)
    ensures k < |s| ==> Stands(s[k], fd, id, op)
  {
    if s == [] || Stands(s[0], fd, id, op) then 0
    else
      var k := FindFd(s[1..], fd, id, op);
      assert forall i :: 0 < i <= k ==> s[i] == s[1..][i - 1];
      k + 1
  }

  /** The entry is good without asking. */
  predicate Answers(e: Entry, now: Time) {
    InDate(e.time, now) || Shares(e.op, OP_NOP)
  }

  /** citadel_validate_fd on a descriptor whose object has an identifier: looked up at `now`; if the
      enclave has to be asked, `approved` is its answer and `later` the time after it. */
  function Validated(s: seq<Entry>, fd: int, id: Id, op: Option<bv16>, now: Time, later: Time, approved: bool)
    : (r: (seq<Entry>, bool))
  {
    var k := FindFd(s, fd, id, op);
    if k < |s| then
      if Answers(s[k], now) then (s, true)
      else if approved then (Refreshed(s, k, later), true)
      else (s, false)
    else if op.Some? && approved then (s + [Entry(later, op.value, fd, id)], true)
    else (s, false)
  }

  /** The first entry that stands for the descriptor. */
  predicate First(s: seq<Entry>, k: nat, fd: int, id: Id, op: Option<bv16>) {
    k < |s| && Stands(s[k], fd, id, op) && forall i :: 0 <= i < k ==> !Stands(s[i], fd, id, op)
  }

  lemma FirstFound(s: seq<Entry>, k: nat, fd: int, id: Id, op: Option<bv16>)
    requires First(s, k, fd, id, op)
    ensures FindFd(s, fd, id, op) == k
  {
  }

  /** The answer and the cache afterwards. Of the entries that stand for the descriptor the first one
      decides: it answers, or the enclave does for its operation and it is then moved to the end with the
      new time. With no entry the enclave is asked for the operation wanted, and what it grants is
      added. A refusal changes nothing. */
  lemma ValidatedExact(s: seq<Entry>, fd: int, id: Id, op: Option<bv16>, now: Time, later: Time, approved: bool)
    ensures var (r, ok) := Validated(s, fd, id, op, now, later, approved);
      && (forall k: nat :: First(s, k, fd, id, op) ==>
        && (ok <==> Answers(s[k], now) || approved)
        && r == if Answers(s[k], now) || !approved then s else s[..k] + s[k + 1..] + [s[k].(time := later)])
      && ((forall i :: 0 <= i < |s| ==> !Stands(s[i], fd, id, op)) ==>
        && (ok <==> op.Some? && approved)
        && r == if ok then s + [Entry(later, op.value, fd, id)] else s)
  {
    hide FindFd, Stands;
    forall k: nat | First(s, k, fd, id, op)
      ensures var (r, ok) := Validated(s, fd, id, op, now, later, approved);
        && (ok <==> Answers(s[k], now) || approved)
        && r == if Answers(s[k], now) || !approved then s else s[..k] + s[k + 1..] + [s[k].(time := later)]
    {
      FirstFound(s, k, fd, id, op);
      var stamped := s[k := s[k].(time := later)];
      assert stamped[..k] == s[..k] && stamped[k + 1..] == s[k + 1..];
    }
    if forall i :: 0 <= i < |s| ==> !Stands(s[i], fd, id, op) {
      assert FindFd(s, fd, id, op) == |s|;
    }
  }

  /** The entries for a descriptor that could answer: made for it and its identifier and, if an operation
      is wanted, for that operation. */
  ghost function Candidates(s: seq<Entry>, fd: int, id: Id, op: Option<bv16>): (r: set<int>) {
    set i | 0 <= i < |s| && s[i].fd == fd && s[i].data == id && (op.Some? ==> s[i].op == op.value)
  }

  /** With at most one entry for a descriptor the answer is no exactly when no entry that is in date or
      needs no date stands for it, and the enclave was not asked or refused. */
  lemma RefusalExact(s: seq<Entry>, fd: int, id: Id, op: Option<bv16>, now: Time, later: Time, approved: bool)
    requires forall i, j :: i in Candidates(s, fd, id, op) && j in Candidates(s, fd, id, op) ==> i == j
    ensures !Validated(s, fd, id, op, now, later, approved).1 <==>
      && (forall i :: i in Candidates(s, fd, id, op) ==> !Answers(s[i], now))
      && (!approved || (op == None && Candidates(s, fd, id, op) == {}))
  {
    hide FindFd, Answers;
    ValidatedExact(s, fd, id, op, now, later, approved);
    var k := FindFd(s, fd, id, op);
    if k < |s| {
      assert First(s, k, fd, id, op) && k in Candidates(s, fd, id, op);
    } else {
      assert Candidates(s, fd, id, op) == {};
    }
  }

  /** With two, the first can hide one that is in date. */
  lemma RefusalHides(a: Entry, b: Entry, id: Id, now: Time, later: Time)
    requires a.fd == b.fd && a.data == b.data == id && !Answers(a, now) && InDate(b.time, now)
    ensures !Validated([a, b], b.fd, id, None, now, later, false).1
  {
    assert First([a, b], 0, b.fd, id, None);
    ValidatedExact([a, b], b.fd, id, None, now, later, false);
  }

  const ZERO_TIME: Time := Time(0, 0)
  const OP_PARENT: bv16 := 0x0008

  function ForChild(e: Entry): (r: Entry) {
    e.(time := ZERO_TIME, op := if e.op == OP_NOP then OP_PARENT else e.op)
  }

  function Forked(s: seq<Entry>): (r: seq<Entry>)
    ensures |r| == |s| && forall i :: 0 <= i < |s| ==> r[i] == ForChild(s[i])
  {
    if s == [] then [] else [ForChild(s[0])] + Forked(s[1..])
  }

  /** From the fourteenth second of the clock on, no entry of the parent answers for a child but one that
      needs no date and allows something else besides: what needed no date and nothing else becomes the
      operation PARENT, for which the enclave is asked. */
  lemma ForkedAnswers(e: Entry, now: Time)
    ensures Answers(ForChild(e), now) <==> now.sec < 14 || (Shares(e.op, OP_NOP) && e.op != OP_NOP)
    ensures ForChild(e).fd == e.fd && ForChild(e).data == e.data
    ensures ForChild(e).op == if e.op == 0x0001 then 0x0008 else e.op
  {
  }

  // ----- in place

  class Item {
    var next: Item?
    var value: Entry
    var freed: bool

    constructor (now: Time)
      ensures next == null && value == Entry(now, 0, 0, []) && !freed
    {
      next, value, freed := null, Entry(now, 0, 0, []), false;
    }
  }

  function Values(s: seq<Item>): (r: seq<Entry>)
    reads s`value
    ensures |r| == |s| && forall i :: 0 <= i < |s| ==> r[i] == s[i].value
    decreases |s|
  {
    if s == [] then [] else [s[0].value] + Values(s[1..])
  }

  predicate Distinct(s: seq<Item>) {
    forall i, j :: 0 <= i < j < |s| ==> s[i] != s[j]
  }

  /** The items of `s`, each pointing at the next and the last at nothing. */
  predicate Chained(s: seq<Item>)
    reads s`next
  {
    forall i {:trigger s[i].next} :: 0 <= i < |s| ==> s[i].next == After(s, i)
  }

  function After(s: seq<Item>, i: nat): (n: Item?) {
    if i + 1 < |s| then s[i + 1] else null
  }

  predicate Allocated(s: seq<Item>)
    reads s`freed
  {
    forall i :: 0 <= i < |s| ==> !s[i].freed
  }

  /** Exactly the first `n` of the items have been freed. */
  predicate FreedUpTo(s: seq<Item>, n: nat)
    reads s`freed
  {
    forall i :: 0 <= i < |s| ==> (s[i].freed <==> i < n)
  }

  lemma SuffixOf(s: seq<Item>, k: nat)
    requires k <= |s| && Distinct(s) && Chained(s)
    ensures Distinct(s[k..]) && Chained(s[k..]) && Values(s[k..]) == Values(s)[k..]
  {
    hide Values, Distinct, Chained;
    SuffixDistinct(s, k);
    SuffixChained(s, k);
    SuffixValues(s, k);
  }

  lemma SuffixDistinct(s: seq<Item>, k: nat)
    requires k <= |s| && Distinct(s)
    ensures Distinct(s[k..])
  {
  }

  lemma SuffixChained(s: seq<Item>, k: nat)
    requires k <= |s| && Chained(s)
    ensures Chained(s[k..])
  {
    var t := s[k..];
    forall i {:trigger t[i].next} | 0 <= i < |t|
      ensures t[i].next == After(t, i)
    {
      assert t[i] == s[k + i] && s[k + i].next == After(s, k + i);
    }
  }

  lemma SuffixValues(s: seq<Item>, k: nat)
    requires k <= |s|
    ensures Values(s[k..]) == Values(s)[k..]
  {
    hide Values;
  }

  lemma RestAllocated(s: seq<Item>, k: nat)
    requires k <= |s| && FreedUpTo(s, k)
    ensures Allocated(s[k..])
  {
  }

  lemma AppendDistinct(s: seq<Item>, item: Item)
    requires Distinct(s) && item !in s
    ensures Distinct(s + [item])
  {
  }

  lemma AppendValues(s: seq<Item>, item: Item)
    ensures Values(s + [item]) == Values(s) + [item.value]
  {
    hide Values;
  }

  /** A list whose last item points at a new one. */
  lemma AppendChained(s: seq<Item>, item: Item)
    requires item.next == null
    requires forall i {:trigger s[i].next} :: 0 <= i < |s| ==> s[i].next == After(s + [item], i)
    ensures Chained(s + [item])
  {
    hide After;
    var t := s + [item];
    forall i | 0 <= i < |t|
      ensures t[i].next == After(t, i)
    {
      if i < |s| {
        assert t[i] == s[i] && s[i].next == After(t, i);
      } else {
        LastAfter(t);
      }
    }
  }

  lemma LastAfter(t: seq<Item>)
    requires t != []
    ensures After(t, |t| - 1) == null
  {
  }

  /** Following a list to its last item. */
  lemma MovedIsRemoved<T>(s: seq<T>, k: nat)
    requires k < |s| && |s| > 1
    ensures var r := Removed(s, k);
      if k < |s| - 1 then r != [] && r[|r| - 1] == s[|s| - 1] && MovedToEnd(s, k) == r + [s[k]]
      else MovedToEnd(s, k) == r
  {
  }

  lemma StillLast(s: seq<Item>, k: nat)
    requires k < |s| && s[k] !in Removed(s, k)
    ensures var r, last, tail := Removed(s, k), s[|s| - 1], s[k..];
      && (last != s[k] <==> k < |s| - 1)
      && (last != s[k] ==> r != [] && r[|r| - 1] == last)
      && tail != [] && tail[0] == s[k] && tail[|tail| - 1] == last
  {
    if k < |s| - 1 {
      assert Removed(s, k)[|s| - 2] == s[|s| - 1];
    }
  }

  method Last(from: Item, ghost s: seq<Item>) returns (last: Item)
    requires s != [] && from == s[0] && Chained(s)
    ensures last == s[|s| - 1]
  {
    last := from;
    ghost var i := 0;
    while last.next != null
      invariant 0 <= i < |s| && last == s[i]
      decreases |s| - i
    {
      last := last.next;
      i := i + 1;
    }
  }

  function Removed<T>(s: seq<T>, k: nat): (r: seq<T>)
    requires k < |s|
    ensures |r| == |s| - 1 && forall i {:trigger r[i]} :: 0 <= i < |r| ==> r[i] == if i < k then s[i] else s[i + 1]
  {
    s[..k] + s[k + 1..]
  }

  lemma RemovedDistinct(s: seq<Item>, k: nat)
    requires k < |s| && Distinct(s)
    ensures Distinct(Removed(s, k)) && s[k] !in Removed(s, k)
  {
  }

  lemma RemovedValues(s: seq<Item>, k: nat)
    requires k < |s|
    ensures Values(Removed(s, k)) == Removed(Values(s), k)
  {
    hide Values, Removed;
    var a, b := Values(Removed(s, k)), Removed(Values(s), k);
    assert forall i :: 0 <= i < |a| ==> a[i] == b[i];
  }

  /** A list after its item `k` has been bypassed. */
  lemma RemovedChained(s: seq<Item>, k: nat)
    requires k < |s|
    requires forall i {:trigger s[i].next} :: 0 <= i < |s| && i != k ==> s[i].next == After(s, if i == k - 1 then k else i)
    ensures Chained(Removed(s, k))
  {
    var t := Removed(s, k);
    forall i | 0 <= i < |t|
      ensures t[i].next == After(t, i)
    {
      var j := if i < k then i else i + 1;
      assert t[i] == s[j] && s[j].next == After(s, if j == k - 1 then k else j);
    }
  }

  lemma SingleList(item: Item)
    requires item.next == null
    ensures Distinct([item]) && Chained([item]) && Values([item]) == [item.value]
  {
  }

  class Group {
    var head: Item?
    ghost var items: seq<Item>

    ghost predicate Valid()
      reads this, items`next, items`freed
    {
      && head == (if items == [] then null else items[0])
      && Distinct(items) && Chained(items) && Allocated(items)
    }

    ghost function Entries(): (s: seq<Entry>)
      reads this`items, items`value
    {
      Values(items)
    }

    constructor ()
      ensures Valid() && items == []
    {
      head, items := null, [];
    }

    /** Linking an item behind the last one. */
    method Append(last: Item, item: Item)
      requires Valid() && items != [] && last == items[|items| - 1] && item !in items && !item.freed
      modifies this`items, last`next, item`next
      ensures Valid() && items == old(items) + [item] && Entries() == old(Entries()) + [item.value]
    {
      hide Values;
      ghost var s := items;
      last.next := item;
      item.next := null;
      items := s + [item];
      AppendDistinct(s, item);
      AppendChained(s, item);
      AppendValues(s, item);
      assert Allocated(s + [item]);
    }

    /** create_cache_entry: walk to the end and append. */
    method Create(now: Time) returns (item: Item)
      requires Valid()
      modifies this, items`next
      ensures Valid() && fresh(item) && items == old(items) + [item]
      ensures Entries() == old(Entries()) + [Entry(now, 0, 0, [])]
    {
      hide Values, Distinct, Chained;
      item := new Item(now);
      if head == null {
        head, items := item, [item];
        SingleList(item);
      } else {
        var last := Last(head, items);
        Append(last, item);
      }
    }

    /** The first entry that has not expired. */
    method FirstFresh(now: Time) returns (current: Item?, ghost k: nat)
      requires Valid()
      ensures k == Leading(Entries(), now) && current == if k < |items| then items[k] else null
    {
      current, k := head, 0;
      while current != null && Stale(current.value.time, now)
        invariant 0 <= k <= |items| && current == if k < |items| then items[k] else null
        invariant Leading(Entries(), now) == k + Leading(Entries()[k..], now)
        decreases |items| - k
      {
        current := current.next;
        k := k + 1;
      }
    }

    /** cleanup_cache_group: skip what has expired, then free it. */
    method Cleanup(now: Time)
      requires Valid()
      modifies this, items`freed
      ensures Valid()
      ensures var k := Leading(old(Entries()), now);
        items == old(items)[k..] && Entries() == old(Entries())[k..] && FreedUpTo(old(items), k)
    {
      hide Values, Distinct, Chained, Leading, Allocated, FreedUpTo;
      var current, k := FirstFresh(now);
      ghost var s := items;
      FreeUpTo(head, current, s, k);
      head := current;
      items := s[k..];
      SuffixOf(s, k);
      RestAllocated(s, k);
    }

    /** pop_group_head. */
    method Pop() returns (item: Item?)
      requires Valid()
      modifies this
      ensures Valid()
      ensures if old(items) == [] then item == null && items == []
        else item == old(items)[0] && items == old(items)[1..] && Entries() == old(Entries())[1..]
    {
      hide Values, Distinct;
      item := head;
      if head == null {
        return;
      }
      ghost var s := items;
      SuffixOf(s, 1);
      head := item.next;
      items := s[1..];
    }

    /** Taking an item out of the list; it keeps its own pointer. */
    method Unlink(item: Item, prev: Item?, ghost k: nat)
      requires Valid() && k < |items| && items[k] == item && prev == if k == 0 then null else items[k - 1]
      modifies this, items`next
      ensures Valid() && items == Removed(old(items), k) && Entries() == Removed(old(Entries()), k)
      ensures Chained(old(items)[k..]) && item !in items
    {
      hide Values;
      ghost var s := items;
      if prev == null {
        var popped := Pop();
      } else {
        prev.next := item.next;
        items := Removed(s, k);
      }
      RemovedDistinct(s, k);
      RemovedValues(s, k);
      RemovedChained(s, k);
    }

    /** move_cache_item_to_end. */
    method MoveToEnd(item: Item, prev: Item?, ghost k: nat)
      requires Valid() && k < |items| && items[k] == item && prev == if k == 0 then null else items[k - 1]
      modifies this, items`next
      ensures Valid() && items == MovedToEnd(old(items), k) && Entries() == MovedToEnd(old(Entries()), k)
    {
      hide Values, Distinct;
      if prev == null && item.next == null {
        return;
      }
      MoveBehind(item, prev, k);
    }

    /** Out of the list, with the chain that still begins at the item. */
    method Detach(item: Item, prev: Item?, ghost k: nat) returns (ghost last: Item, ghost tail: seq<Item>)
      requires Valid() && k < |items| && items[k] == item && prev == if k == 0 then null else items[k - 1]
      requires |items| > 1
      modifies this, items`next
      ensures Valid() && items == Removed(old(items), k) && Entries() == Removed(old(Entries()), k)
      ensures item !in items && !item.freed && last in old(items)
      ensures tail != [] && tail[0] == item && tail[|tail| - 1] == last && Chained(tail)
      ensures last != item ==> items != [] && items[|items| - 1] == last
      ensures last != item <==> k < |old(items)| - 1
    {
      ghost var s := items;
      last, tail := s[|s| - 1], s[k..];
      assert !item.freed && last in s;
      hide Values, Distinct, Allocated, Chained, Removed, Valid, Entries;
      Unlink(item, prev, k);
      StillLast(s, k);
    }

    /** Out of the list, and to its end if there was anything behind it. */
    method MoveBehind(item: Item, prev: Item?, ghost k: nat)
      requires Valid() && k < |items| && items[k] == item && prev == if k == 0 then null else items[k - 1]
      requires |items| > 1
      modifies this, items`next
      ensures Valid() && items == MovedToEnd(old(items), k) && Entries() == MovedToEnd(old(Entries()), k)
    {
      ghost var s, e := items, Entries();
      assert |e| == |s| && e[k] == item.value && item in s;
      hide Values, Distinct, Allocated, Chained, Removed, MovedToEnd, Valid, Entries;
      ghost var last, tail := Detach(item, prev, k);
      Relink(item, last, tail);
      MovedIsRemoved(s, k);
      MovedIsRemoved(e, k);
    }

    /** Walking from an item that is out of the list, along its own pointer, to the end, and linking it
        there. */
    method Relink(item: Item, ghost last: Item, ghost tail: seq<Item>)
      requires Valid() && item !in items && !item.freed
      requires tail != [] && tail[0] == item && tail[|tail| - 1] == last && Chained(tail)
      requires last != item ==> items != [] && items[|items| - 1] == last
      modifies this`items, item`next, last`next
      ensures Valid() && items == if last != item then old(items) + [item] else old(items)
      ensures Entries() == if last != item then old(Entries()) + [item.value] else old(Entries())
    {
      hide Values, Distinct, Allocated, Chained, Valid, Entries;
      var current := Last(item, tail);
      if current != item {
        Append(current, item);
      } else {
        LinkToItself(item);
      }
    }

    /** An item that was the last and is out of the list is linked to itself, and then to nothing. */
    method LinkToItself(item: Item)
      requires Valid() && item !in items
      modifies item`next
      ensures Valid() && Entries() == old(Entries())
    {
      hide Values, Distinct;
      item.next := item;
      item.next := null;
    }

    /** The lookup of citadel_validate_fd. */
    method Find(fd: int, id: Id, op: Option<bv16>) returns (item: Item?, prev: Item?, ghost k: nat)
      requires Valid()
      ensures k == FindFd(Entries(), fd, id, op)
      ensures item == (if k < |items| then items[k] else null) && prev == if k == 0 then null else items[k - 1]
    {
      item, prev, k := head, null, 0;
      while item != null && !Stands(item.value, fd, id, op)
        invariant 0 <= k <= |items| && item == if k < |items| then items[k] else null
        invariant prev == if k == 0 then null else items[k - 1]
        invariant FindFd(Entries(), fd, id, op) == k + FindFd(Entries()[k..], fd, id, op)
        decreases |items| - k
      {
        item, prev := item.next, item;
        k := k + 1;
      }
    }

    /** update_cache_timestamp, and the move that follows it. */
    method Refresh(item: Item, prev: Item?, later: Time, ghost k: nat)
      requires Valid() && k < |items| && items[k] == item && prev == if k == 0 then null else items[k - 1]
      modifies this, items`next, item`value
      ensures Valid() && Entries() == Refreshed(old(Entries()), k, later)
    {
      hide Values;
      item.value := item.value.(time := later);
      assert Entries() == old(Entries())[k := item.value];
      if item.next != null {
        MoveToEnd(item, prev, k);
      }
    }

    /** What a request made for a new descriptor caches when it was granted. */
    method Remember(fd: int, id: Id, op: bv16, later: Time)
      requires Valid()
      modifies this, items`next
      ensures Valid() && Entries() == old(Entries()) + [Entry(later, op, fd, id)]
    {
      hide Values, Chained, Distinct;
      ghost var s := items;
      var entry := Create(later);
      entry.value := Entry(later, op, fd, id);
      AppendValues(s, entry);
    }

    /** citadel_validate_fd, for a tainted object; `approved` stands for the call that asks the enclave,
        which caches what it granted when it is made for a new descriptor. */
    method ValidateFd(fd: int, id: Id, op: Option<bv16>, now: Time, later: Time, approved: bool) returns (ret: bool)
      requires Valid()
      modifies this, items`next, items`value
      ensures Valid() && (Entries(), ret) == Validated(old(Entries()), fd, id, op, now, later, approved)
      ensures !approved ==> Entries() == old(Entries())
      ensures ret && !approved ==> exists e :: e in old(Entries()) && Stands(e, fd, id, op) && Answers(e, now)
    {
      hide Values, Chained, Distinct, FindFd;
      var item, prev, k := Find(fd, id, op);
      if item != null {
        if Answers(item.value, now) {
          return true;
        }
        if approved {
          Refresh(item, prev, later, k);
        }
        return approved;
      }
      if op.Some? && approved {
        Remember(fd, id, op.value, later);
        return true;
      }
      return false;
    }

    /** What cache_on_fork does to one group. */
    method Fork()
      requires Valid()
      modifies items`value
      ensures Valid() && Entries() == Forked(old(Entries()))
    {
      hide Values;
      var item := head;
      ghost var k := 0;
      while item != null
        invariant 0 <= k <= |items| && item == if k < |items| then items[k] else null
        invariant forall i :: 0 <= i < |items| ==>
          items[i].value == if i < k then ForChild(old(items[i].value)) else old(items[i].value)
        decreases |items| - k
      {
        item.value := ForChild(item.value);
        item := item.next;
        k := k + 1;
      }
    }
  }

  /** Freeing the items before `current`. */
  method FreeUpTo(head: Item?, current: Item?, ghost s: seq<Item>, ghost k: nat)
    requires Distinct(s) && Chained(s) && Allocated(s) && k <= |s|
    requires head == (if s == [] then null else s[0]) && current == if k < |s| then s[k] else null
    modifies s`freed
    ensures FreedUpTo(s, k)
  {
    var first := head;
    ghost var j := 0;
    while first != current
      invariant 0 <= j <= k && first == if j < |s| then s[j] else null
      invariant FreedUpTo(s, j)
      decreases k - j
    {
      var prev := first;
      first := first.next;
      prev.freed := true;
      j := j + 1;
    }
  }
}
