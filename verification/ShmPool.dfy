/** The kernel's record of which processes were let into which shared-memory segment: a search
    tree of keys, each with a linked list of process IDs. */
module ShmPool {
  import opened Bytes
  import opened Options
  import opened SearchTree

  /** Process IDs are only compared and printed here, so they stay 32-bit words. */
  type Pid = bv32

  // ----- what the pool is meant to be

  /** Each key with the processes granted access to it, first grant first. */
  type Listing = map<Int32, seq<Pid>>

  function Listed(m: Listing, key: Int32): (s: seq<Pid>) {
    if key in m then m[key] else []
  }

  function Joined(s: seq<Pid>, p: Pid): (r: seq<Pid>) {
    if p in s then s else s + [p]
  }

  datatype Memory = Memory(node: bool, entry: bool)

  /** add_to_shmid: the pool afterwards and the value returned. */
  function Granted(m: Listing, key: Int32, p: Pid, mem: Memory): (r: (Listing, bool)) {
    if key !in m && !mem.node then (m, false)
    else if p in Listed(m, key) then (m[key := Listed(m, key)], true)
    else if !mem.entry then (m[key := Listed(m, key)], false)
    else (m[key := Joined(Listed(m, key), p)], true)
  }

  /** The value returned says whether the process is listed afterwards; nobody else's listing changes,
      whatever allocation fails. */
  lemma GrantExact(m: Listing, key: Int32, p: Pid, mem: Memory)
    ensures var (m', ok) := Granted(m, key, p, mem);
      && (ok <==> p in Listed(m', key))
      && (ok <==> p in Listed(m, key) || (mem.entry && (key in m || mem.node)))
      && (forall q :: q != p ==> (q in Listed(m', key) <==> q in Listed(m, key)))
      && (key in m' <==> key in m || mem.node)
      && (forall k :: k != key ==> (k in m' <==> k in m) && Listed(m', k) == Listed(m, k))
  {
  }

  predicate NoDuplicates(s: seq<Pid>) {
    forall i, j :: 0 <= i < j < |s| ==> s[i] != s[j]
  }

  datatype Grant = Grant(key: Int32, pid: Pid)

  function GrantAll(m: Listing, gs: seq<Grant>): (r: Listing) {
    if gs == [] then m
    else
      var last := gs[|gs| - 1];
      Granted(GrantAll(m, gs[..|gs| - 1]), last.key, last.pid, Memory(true, true)).0
  }

  /** `p` was granted `key` at position `i`, and not before. */
  predicate FirstGrant(gs: seq<Grant>, key: Int32, p: Pid, i: nat) {
    i < |gs| && gs[i] == Grant(key, p) && forall j :: 0 <= j < i ==> gs[j] != Grant(key, p)
  }

  /** Members of `s` are listed in the order of their first grants. */
  ghost predicate InFirstOrder(s: seq<Pid>, gs: seq<Grant>, key: Int32) {
    forall a, b, i, j :: 0 <= a < |s| && 0 <= b < |s| && FirstGrant(gs, key, s[a], i) && FirstGrant(gs, key, s[b], j) ==>
      (a < b <==> i < j)
  }

  ghost predicate Members(s: seq<Pid>, gs: seq<Grant>, key: Int32) {
    forall p :: p in s <==> Grant(key, p) in gs
  }

  lemma FirstOrderGrows(gs: seq<Grant>, key: Int32, s0: seq<Pid>, s: seq<Pid>)
    requires gs != [] && var n := |gs| - 1;
      && InFirstOrder(s0, gs[..n], key) && Members(s0, gs[..n], key) && NoDuplicates(s0)
      && s == if gs[n].key == key then Joined(s0, gs[n].pid) else s0
    ensures InFirstOrder(s, gs, key)
  {
    var n := |gs| - 1;
    forall a, b, i, j | 0 <= a < |s| && 0 <= b < |s| && FirstGrant(gs, key, s[a], i) && FirstGrant(gs, key, s[b], j)
      ensures a < b <==> i < j
    {
      hide FirstGrant;
      FirstGrantBefore(gs, key, s[a], i);
      FirstGrantBefore(gs, key, s[b], j);
    }
  }

  /** The pool is what the grants say: for each segment the processes granted it, without duplicates,
      in the order of their first grants. */
  lemma {:induction false} PoolIsFirstGrants(gs: seq<Grant>, key: Int32)
    ensures var s := Listed(GrantAll(map[], gs), key);
      NoDuplicates(s) && Members(s, gs, key) && InFirstOrder(s, gs, key)
  {
    hide InFirstOrder;
    if gs != [] {
      var n := |gs| - 1;
      var s0, s := Listed(GrantAll(map[], gs[..n]), key), Listed(GrantAll(map[], gs), key);
      PoolIsFirstGrants(gs[..n], key);
      assert gs == gs[..n] + [gs[n]];
      assert s == if gs[n].key == key then Joined(s0, gs[n].pid) else s0;
      FirstOrderGrows(gs, key, s0, s);
    } else {
      NothingGranted(key);
    }
  }

  lemma NothingGranted(key: Int32)
    ensures InFirstOrder([], [], key)
  {
  }

  lemma FirstGrantBefore(gs: seq<Grant>, key: Int32, p: Pid, i: nat)
    requires FirstGrant(gs, key, p, i)
    ensures var n := |gs| - 1;
      if Grant(key, p) in gs[..n] then FirstGrant(gs[..n], key, p, i) else i == n
  {
    var n := |gs| - 1;
    assert forall j :: 0 <= j < n ==> gs[j] == gs[..n][j] && gs[j] in gs[..n];
    if Grant(key, p) in gs[..n] {
      var k :| 0 <= k < n && gs[..n][k] == Grant(key, p);
      assert i <= k;
    }
  }

  // ----- the linked lists

  class Entry {
    const pid: Pid
    var next: Entry?
    ghost var owner: object?

    constructor (p: Pid)
      ensures pid == p && next == null && owner == null
    {
      pid, next, owner := p, null, null;
    }
  }

  ghost function PidsOf(list: seq<Entry>): (s: seq<Pid>)
    ensures |s| == |list|
    ensures forall i :: 0 <= i < |s| ==> s[i] == list[i].pid
  {
    seq(|list|, i requires 0 <= i < |list| => list[i].pid)
  }

  class ShmNode {
    const shmid: Int32
    var head: Entry?
    ghost var list: seq<Entry>

    constructor (key: Int32)
      ensures shmid == key && head == null && list == []
    {
      shmid, head, list := key, null, [];
    }

    /** The list from `head`, null-terminated, whose entries belong to this node. */
    ghost predicate Valid()
      reads this`head, this`list, list
    {
      && head == (if list == [] then null else list[0])
      && (forall i, j :: 0 <= i < j < |list| ==> list[i] != list[j])
      && (forall i {:trigger list[i].next} :: 0 <= i < |list| ==>
        list[i].next == if i + 1 < |list| then list[i + 1] else null)
      && (forall i :: 0 <= i < |list| ==> list[i].owner == this)
    }

    ghost function Pids(): (s: seq<Pid>)
      reads this`list
    {
      PidsOf(list)
    }

    /** Walk to the end; stop if the process is already there; else add it. */
    method Add(p: Pid, entry: bool) returns (ok: bool, ghost added: seq<Entry>)
      requires Valid()
      modifies this`head, this`list, list
      ensures Valid() && list == old(list) + added && fresh(set e | e in added)
      ensures ok == (p in old(Pids()) || entry)
      ensures Pids() == if ok then Joined(old(Pids()), p) else old(Pids())
    {
      added := [];
      var current, eol: Entry? := head, null;
      ghost var i := 0;
      while current != null
        invariant 0 <= i <= |list|
        invariant current == if i < |list| then list[i] else null
        invariant eol == if i == 0 then null else list[i - 1]
        invariant forall j :: 0 <= j < i ==> list[j].pid != p
        decreases |list| - i
      {
        if current.pid == p {
          assert Pids()[i] == p;
          return true, [];
        }
        eol := current;
        current := current.next;
        i := i + 1;
      }
      if !entry {
        return false, [];
      }
      var node := new Entry(p);
      node.owner := this;
      if eol != null {
        eol.next := node;
      } else {
        head := node;
      }
      list := list + [node];
      added := [node];
      return true, added;
    }

    /** The counting loop of get_shmid_inhabitants. */
    method Count() returns (count: nat)
      requires Valid()
      ensures count == |Pids()|
    {
      count := 0;
      var current := head;
      while current != null
        invariant 0 <= count <= |list|
        invariant current == if count < |list| then list[count] else null
        decreases |list| - count
      {
        count := count + 1;
        current := current.next;
      }
    }

    /** The copying loop, into the little-endian bytes that are printed. */
    method Copy() returns (bytes: seq<bv8>)
      requires Valid()
      ensures bytes == Packed(Pids())
    {
      bytes := [];
      var current := head;
      ghost var i := 0;
      while current != null
        invariant 0 <= i <= |list|
        invariant current == if i < |list| then list[i] else null
        invariant bytes == Packed(Pids()[..i])
        decreases |list| - i
      {
        assert Pids()[..i + 1][..i] == Pids()[..i];
        bytes := bytes + Le32(current.pid);
        current := current.next;
        i := i + 1;
      }
      assert Pids()[..i] == Pids();
    }
  }

  /** The process IDs one after the other, as they lie in memory. */
  function Packed(s: seq<Pid>): (b: seq<bv8>)
    ensures |b| == 4 * |s|
  {
    if s == [] then [] else Packed(s[..|s| - 1]) + Le32(s[|s| - 1])
  }

  function Unpacked(b: seq<bv8>): (s: seq<Pid>)
    requires |b| % 4 == 0
  {
    if b == [] then [] else Unpacked(b[..|b| - 4]) + [FromLe32(b[|b| - 4..])]
  }

  /** The reported string says which processes are in the list, and in which order. */
  lemma {:induction false} ReportReadsBack(s: seq<Pid>)
    ensures Unpacked(BytesOf(HexOf(Packed(s)))) == s
  {
    HexRoundTrip(Packed(s));
    UnpackPacked(s);
  }

  lemma {:induction false} UnpackPacked(s: seq<Pid>)
    ensures Unpacked(Packed(s)) == s
  {
    hide Le32, FromLe32;
    if s != [] {
      var n := |s| - 1;
      UnpackLast(Packed(s[..n]), s[n]);
      UnpackPacked(s[..n]);
      assert s == s[..n] + [s[n]];
    }
  }

  lemma UnpackLast(b: seq<bv8>, pid: Pid)
    requires |b| % 4 == 0
    ensures Unpacked(b + Le32(pid)) == Unpacked(b) + [pid]
  {
    hide Le32, FromLe32;
    var c := b + Le32(pid);
    Le32RoundTrip(pid);
    assert c[..|c| - 4] == b && c[|c| - 4..] == Le32(pid);
  }

  // ----- the pool

  function ShmidOf(n: ShmNode): (key: Int32) {
    n.shmid
  }

  function ShmidsIn(all: set<ShmNode>): (keys: set<Int32>) {
    KeysIn(all, ShmidOf)
  }

  /** The tree holds the nodes `all`, and the search finds those of `table`. */
  ghost predicate Sound(root: Tree<ShmNode>, table: map<Int32, ShmNode>, all: set<ShmNode>) {
    Stands(root, table, all, ShmidOf)
  }

  lemma SoundTable(root: Tree<ShmNode>, table: map<Int32, ShmNode>, all: set<ShmNode>)
    requires Sound(root, table, all)
    ensures forall k :: k in table ==> table[k] in all && table[k].shmid == k
  {
    hide Stands;
    StandsFound(root, table, all, ShmidOf);
  }

  ghost predicate Lists(all: set<ShmNode>, entries: set<Entry>)
    reads entries, all`head, all`list
  {
    forall n :: n in all ==> (forall i :: 0 <= i < |n.list| ==> n.list[i] in entries) && n.Valid()
  }

  ghost predicate Shown(listing: Listing, table: map<Int32, ShmNode>, stale: ShmNode?)
    reads table.Values`list
  {
    && (forall k :: k in listing <==> k in table)
    && (forall k :: k in table && table[k] != stale ==> listing[k] == table[k].Pids())
  }

  ghost function ListsOf(table: map<Int32, ShmNode>): (m: Listing)
    reads table.Values`list
  {
    map k | k in table :: table[k].Pids()
  }

  /** The answer of get_shmid_inhabitants: an error, a length, or a length with the string. */
  datatype Answer = Invalid | NoMemory | Length(n: nat) | Report(n: nat, text: seq<bv8>)

  function Inhabitants(m: Listing, key: seq<bv8>, alloc: bool, memory: bool): (a: Answer) {
    if |key| != 8 then Invalid
    else
      var k := Signed(FromLe32(BytesOf(key)));
      if k !in m then Length(0)
      else if !alloc then Length(8 * |m[k]| + 1)
      else if !memory || m[k] == [] then NoMemory
      else Report(8 * |m[k]| + 1, HexOf(Packed(m[k])) + [0])
  }

  /** The length that comes with a report is that of the text with its NUL, which is its only one; asking
      for the length alone gives the same number. The text reads back as the list. */
  lemma ReportExact(m: Listing, key: seq<bv8>, memory: bool)
    ensures var a := Inhabitants(m, key, true, memory);
      a.Report? ==>
        && a.n == |a.text| && Inhabitants(m, key, false, memory) == Length(a.n)
        && a.text[a.n - 1] == 0 && (forall i :: 0 <= i < a.n - 1 ==> a.text[i] != 0)
        && Unpacked(BytesOf(a.text[..a.n - 1])) == m[Signed(FromLe32(BytesOf(key)))]
    ensures Inhabitants(m, key, true, memory).Report? <==>
      memory && |key| == 8 && var k := Signed(FromLe32(BytesOf(key))); k in m && m[k] != []
  {
    hide FromLe32, Signed, Unpacked;
    if Inhabitants(m, key, true, memory).Report? {
      var k := Signed(FromLe32(BytesOf(key)));
      HexRoundTrip(Packed(m[k]));
      UnpackPacked(m[k]);
      var text := Inhabitants(m, key, true, memory).text;
      assert text[..|text| - 1] == HexOf(Packed(m[k]));
    }
  }

  /** The key string of a segment asks about that segment; any string of another length is refused. */
  lemma ReportNames(m: Listing, shmid: bv32, key: seq<bv8>, alloc: bool, memory: bool)
    ensures Inhabitants(m, key, alloc, memory) == Invalid <==> |key| != 8
    ensures var k, a := Signed(shmid), Inhabitants(m, HexOf(Le32(shmid)), alloc, memory);
      && (k !in m <==> a == Length(0))
      && (k in m && alloc && memory && m[k] != [] ==>
        a.Report? && a.text != [] && |a.text| % 8 == 1 && Unpacked(BytesOf(a.text[..|a.text| - 1])) == m[k])
  {
    hide FromLe32, Le32, Signed, Unpacked, HexOf, BytesOf, Packed;
    var h := HexOf(Le32(shmid));
    HexRoundTrip(Le32(shmid));
    Le32RoundTrip(shmid);
    ReportExact(m, h, memory);
  }

  lemma ListsGrow(all: set<ShmNode>, entries: set<Entry>, node: ShmNode)
    requires Lists(all, entries) && node.list == [] && node.Valid()
    ensures Lists(all + {node}, entries)
  {
    hide ShmNode.Valid;
  }

  lemma ListsShown(table: map<Int32, ShmNode>, stale: ShmNode?)
    ensures Shown(ListsOf(table), table, stale)
  {
  }

  lemma ShownGrows(listing: Listing, table: map<Int32, ShmNode>, node: ShmNode)
    requires Shown(listing, table, null) && node.list == []
    ensures ListsOf(table[node.shmid := node]) == listing[node.shmid := []]
  {
    assert node.Pids() == [];
  }

  lemma ShownAgain(listing: Listing, table: map<Int32, ShmNode>, node: ShmNode)
    requires Shown(listing, table, node) && forall k :: k in table ==> table[k].shmid == k
    ensures Shown(if node.shmid in table && table[node.shmid] == node then listing[node.shmid := node.Pids()] else listing,
      table, null)
  {
    hide PidsOf;
  }

  /** Joining a list: what it is then, and the value returned. */
  function ListIn(s: seq<Pid>, p: Pid, mem: Memory): (r: (seq<Pid>, bool)) {
    if p in s then (s, true) else if !mem.entry then (s, false) else (Joined(s, p), true)
  }

  lemma GrantedIn(m: Listing, key: Int32, p: Pid, mem: Memory)
    requires key in m || mem.node
    ensures var (s, ok) := ListIn(Listed(m, key), p, mem);
      Granted(m, key, p, mem) == (m[key := s], ok) && m[key := Listed(m, key)][key := s] == m[key := s]
  {
  }

  class Pool {
    var root: Tree<ShmNode>
    ghost var all: set<ShmNode>             // every node in the tree
    ghost var table: map<Int32, ShmNode>    // those that the search finds
    ghost var listing: Listing              // their lists, as values
    ghost var entries: set<Entry>

    ghost predicate Valid()
      reads this, all, table.Values, entries
    {
      Sound(root, table, all) && Lists(all, entries) && Shown(listing, table, null)
    }

    /** The list of `n` is being changed. */
    ghost predicate Open(n: ShmNode)
      reads this, all, table.Values, entries
    {
      Sound(root, table, all) && Lists(all, entries) && Shown(listing, table, n) && n in all
    }

    ghost predicate Finds(n: ShmNode)
      reads this
    {
      n.shmid in table && table[n.shmid] == n
    }

    constructor ()
      ensures Valid() && listing == map[]
    {
      root, all, table, listing, entries := Leaf, {}, map[], map[], {};
    }

    lemma SearchFinds(key: Int32)
      requires Valid()
      ensures Find(root, key) == if key in table then Some(table[key]) else None
      ensures (key in listing <==> key in table) && (key in table ==> table[key].shmid == key)
    {
      hide Lists, Find, Visible, Ordered, Orderable, Entries;
      VisibleFind(root, key);
      SoundTable(root, table, all);
    }

    lemma FoundOpen(n: ShmNode)
      requires Valid() && Finds(n)
      ensures Open(n) && all == all + {n} && (forall i :: 0 <= i < |n.list| ==> n.list[i] in entries)
      ensures Listed(listing, n.shmid) == n.Pids() && listing == listing[n.shmid := n.Pids()] && n.Valid()
    {
      hide Sound, PidsOf, ShmNode.Valid;
      SoundTable(root, table, all);
    }

    /** shmid_search, and on a miss a new node; rebalancing is any tree with the same entries. */
    method FindOrAdd(key: Int32, mem: Memory) returns (node: ShmNode?)
      requires Valid()
      modifies this`root, this`all, this`table, this`listing
      ensures node == null ==> Valid() && key !in listing && !mem.node && listing == old(listing) && all == old(all)
      ensures node != null ==>
        && Open(node) && node.shmid == key && all == old(all) + {node} && node.Pids() == Listed(old(listing), key)
        && (if key in old(listing) then node in old(all) && old(Finds(node)) else fresh(node) && mem.node)
        && (forall i :: 0 <= i < |node.list| ==> node.list[i] in entries)
      ensures node != null && Orderable(ShmidsIn(old(all)) + {key}) ==>
        Finds(node) && listing == old(listing)[key := Listed(old(listing), key)]
    {
      hide Valid, Open, Orderable, PidsOf;
      SearchFinds(key);
      var found := Search(root, key);
      if found.Some? {
        FoundOpen(found.value);
        return found.value;
      }
      if !mem.node {
        return null;
      }
      node := Register(key);
    }

    method Register(key: Int32) returns (node: ShmNode)
      requires Valid() && key !in table
      modifies this`root, this`all, this`table, this`listing
      ensures Open(node) && fresh(node) && node.shmid == key && node.list == [] && all == old(all) + {node}
      ensures Orderable(ShmidsIn(old(all)) + {key}) ==> Finds(node) && listing == old(listing)[key := []]
    {
      hide Lists, Shown, ListsOf, Orderable, Stands, Visible;
      node := new ShmNode(key);
      var linked := Link(root, key, node);
      var balanced: Tree<ShmNode> :| Entries(balanced) == Entries(linked);
      LinkStands(root, table, all, ShmidOf, node, balanced);
      ListsGrow(all, entries, node);
      ShownGrows(listing, table, node);
      root, all := balanced, all + {node};
      table := Visible(root);
      listing := ListsOf(table);
      ListsShown(table, node);
    }

    /** add_to_shmid. The process joins the list that the search finds for the key, or a new one; no other
        list changes. If the comparison can order the keys, this is an update of the listing. */
    method AddToShmid(key: Int32, p: Pid, mem: Memory) returns (ok: bool, ghost node: ShmNode?)
      requires Valid()
      modifies this, all, entries
      ensures Valid()
      ensures node == null ==> !ok && !mem.node && key !in old(listing) && listing == old(listing) && all == old(all)
      ensures node != null ==>
        && node.shmid == key && all == old(all) + {node}
        && (if key in old(listing) then node in old(all) && old(Finds(node)) else node !in old(all) && mem.node)
        && (node.Pids(), ok) == ListIn(Listed(old(listing), key), p, mem)
      ensures forall n :: n in old(all) && n != node ==> n.Pids() == old(n.Pids())
      ensures ok == Granted(old(listing), key, p, mem).1
      ensures Orderable(ShmidsIn(old(all)) + {key}) ==> listing == Granted(old(listing), key, p, mem).0
    {
      hide Valid, Open, Orderable, ListIn, Granted, PidsOf;
      var target := FindOrAdd(key, mem);
      node := target;
      if target == null {
        Refused(old(listing), key, p, mem);
        return false, null;
      }
      ok := Enlist(target, p, mem);
      GrantedIn(old(listing), key, p, mem);
    }

    lemma Refused(m: Listing, key: Int32, p: Pid, mem: Memory)
      requires key !in m && !mem.node
      ensures Granted(m, key, p, mem) == (m, false)
    {
    }

    method Enlist(node: ShmNode, p: Pid, mem: Memory) returns (ok: bool)
      requires Open(node)
      modifies this`listing, this`entries, node`head, node`list, node.list
      ensures Valid() && (node.Pids(), ok) == ListIn(old(node.Pids()), p, mem)
      ensures listing == if Finds(node) then old(listing)[node.shmid := node.Pids()] else old(listing)
    {
      hide Open, PidsOf;
      ok := AddEntry(node, p, mem);
      Refresh(node);
    }

    ghost method Refresh(node: ShmNode)
      requires Open(node)
      modifies this`listing
      ensures Valid() && listing == if Finds(node) then old(listing)[node.shmid := node.Pids()] else old(listing)
    {
      hide Sound, Shown, Lists, PidsOf;
      SoundTable(root, table, all);
      ShownAgain(listing, table, node);
      if Finds(node) {
        listing := listing[node.shmid := node.Pids()];
      }
    }

    method AddEntry(node: ShmNode, p: Pid, mem: Memory) returns (ok: bool)
      requires Open(node)
      modifies this`entries, node`head, node`list, node.list
      ensures Open(node) && (node.Pids(), ok) == ListIn(old(node.Pids()), p, mem)
    {
      hide Sound, Shown, Lists, PidsOf, ShmNode.Valid;
      Keys(all, entries, node);
      ghost var added;
      ok, added := node.Add(p, mem.entry);
      entries := entries + (set e | e in added);
      ListsKept(node);
      ShownKept(node);
    }

    lemma Keys(all: set<ShmNode>, entries: set<Entry>, node: ShmNode)
      requires Lists(all, entries) && node in all
      ensures node.Valid()
      ensures forall i :: 0 <= i < |node.list| ==> node.list[i] in entries && node.list[i].owner == node
    {
    }

    twostate lemma ShownKept(node: ShmNode)
      requires old(Shown(listing, table, node)) && table == old(table) && listing == old(listing)
      requires forall k :: k in table && table[k] != node ==> table[k].list == old(table[k].list)
      ensures Shown(listing, table, node)
    {
    }

    twostate lemma ListsKept(node: object)
      requires old(Lists(all, entries)) && all == old(all) && old(entries) <= entries
      requires forall n :: n in all && n != node ==> n.head == old(n.head) && n.list == old(n.list)
      requires forall e :: e in old(entries) && old(e.owner) != node ==> unchanged(e)
      requires forall n :: n in all && n == node ==>
        (forall i :: 0 <= i < |n.list| ==> n.list[i] in entries) && n.Valid()
      ensures Lists(all, entries)
    {
      forall n | n in all && n != node
        ensures n.Valid()
      {
        assert forall i :: 0 <= i < |n.list| ==> unchanged(n.list[i]);
      }
    }

    /** get_shmid_inhabitants. */
    method GetInhabitants(keystring: seq<bv8>, alloc: bool, memory: bool) returns (a: Answer)
      requires Valid()
      ensures a == Inhabitants(listing, keystring, alloc, memory)
    {
      hide Valid, Open, PidsOf, ShmNode.Valid, Packed, BytesOf, FromLe32;
      if |keystring| != 8 {
        return Invalid;
      }
      var _, bytes := HexStringToBytes(keystring);
      var key := Signed(FromLe32(bytes));
      SearchFinds(key);
      var found := Search(root, key);
      if found == None {
        return Length(0);
      }
      var node := found.value;
      FoundOpen(node);
      var count := node.Count();
      if !alloc {
        return Length(2 * count * 4 + 1);
      }
      if !memory {
        return NoMemory;
      }
      var pids := node.Copy();
      if pids == [] {
        return NoMemory;
      }
      var text := ToHexString(pids);
      return Report(2 * count * 4 + 1, text);
    }
  }

}
