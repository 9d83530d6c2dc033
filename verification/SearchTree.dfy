/** The kernel's two red-black trees, keyed by process ID and by shared-memory key. Keys are
    compared by the sign of their difference in a 32-bit integer, as both search loops do, so
    the order wraps around. Rebalancing is any restructuring that keeps the in-order sequence. */
module SearchTree {
  import opened Bytes
  import opened Options

  datatype Tree<+V> = Leaf | Branch(left: Tree<V>, key: Int32, value: V, right: Tree<V>)

  /** The value of an integer once stored in 32 bits. */
  function Wrap(n: int): (r: Int32)
    requires -0x1_0000_0000 < n < 0x1_0000_0000
  {
    if n >= 0x8000_0000 then n - 0x1_0000_0000
    else if n < -0x8000_0000 then n + 0x1_0000_0000
    else n
  }

  predicate Below(a: Int32, b: Int32) {
    Wrap(a - b) < 0
  }

  function Entries<V>(t: Tree<V>): (s: seq<(Int32, V)>) {
    match t
    case Leaf => []
    case Branch(l, k, v, r) => Entries(l) + [(k, v)] + Entries(r)
  }

  /** The association the entries stand for. */
  function Assoc<V>(s: seq<(Int32, V)>): (m: map<Int32, V>) {
    if s == [] then map[]
    else
      var (k, v) := s[|s| - 1];
      var m := Assoc(s[..|s| - 1]);
      m[k := v]
  }

  function Contents<V>(t: Tree<V>): (m: map<Int32, V>) {
    Assoc(Entries(t))
  }

  /** The wrapping comparison orders a before b, and only that way round. */
  predicate Precedes(a: Int32, b: Int32) {
    Below(a, b) && !Below(b, a)
  }

  predicate Ordered<V>(s: seq<(Int32, V)>) {
    forall i, j :: 0 <= i < j < |s| ==> Precedes(s[i].0, s[j].0)
  }

  // ----- searching

  /** The descent of ticket_search and shmid_search. */
  function Find<V>(t: Tree<V>, key: Int32): (r: Option<V>) {
    match t
    case Leaf => None
    case Branch(l, k, v, r) =>
      if Below(key, k) then Find(l, key) else if key != k then Find(r, key) else Some(v)
  }

  method Search<V>(root: Tree<V>, key: Int32) returns (r: Option<V>)
    ensures r == Find(root, key)
  {
    var node := root;
    while node.Branch?
      invariant Find(node, key) == Find(root, key)
      decreases node
    {
      if Below(key, node.key) {
        node := node.left;
      } else if key != node.key {
        node := node.right;
      } else {
        return Some(node.value);
      }
    }
    return None;
  }

  lemma NotBelowSelf(a: Int32)
    ensures !Below(a, a)
  {
  }

  /** A search never invents an entry. */
  lemma {:induction false} FindSound<V>(t: Tree<V>, key: Int32)
    ensures Find(t, key).Some? ==> exists i :: 0 <= i < |Entries(t)| && Entries(t)[i] == (key, Find(t, key).value)
  {
    if t.Branch? {
      var n := |Entries(t.left)|;
      var e := Entries(t);
      if Below(key, t.key) {
        FindSound(t.left, key);
        assert forall i :: 0 <= i < n ==> e[i] == Entries(t.left)[i];
      } else if key != t.key {
        FindSound(t.right, key);
        assert forall i :: 0 <= i < |Entries(t.right)| ==> e[n + 1 + i] == Entries(t.right)[i];
      } else {
        assert e[n] == (key, t.value);
      }
    }
  }

  lemma OrderedParts<V>(a: seq<(Int32, V)>, x: (Int32, V), b: seq<(Int32, V)>)
    ensures Ordered(a + [x] + b) <==>
      && Ordered(a) && Ordered(b)
      && (forall i :: 0 <= i < |a| ==> Precedes(a[i].0, x.0))
      && (forall j :: 0 <= j < |b| ==> Precedes(x.0, b[j].0))
      && (forall i, j :: 0 <= i < |a| && 0 <= j < |b| ==> Precedes(a[i].0, b[j].0))
  {
    var e, n := a + [x] + b, |a|;
    assert forall i :: 0 <= i < n ==> e[i] == a[i];
    assert e[n] == x;
    assert forall j :: 0 <= j < |b| ==> e[n + 1 + j] == b[j];
    assert forall i :: n < i < |e| ==> e[i] == b[i - n - 1];
  }

  /** In a tree whose keys are ordered every entry is found. */
  lemma {:induction false} FindComplete<V>(t: Tree<V>, i: nat)
    requires i < |Entries(t)| && Ordered(Entries(t))
    ensures Find(t, Entries(t)[i].0) == Some(Entries(t)[i].1)
  {
    var n := |Entries(t.left)|;
    OrderedParts(Entries(t.left), (t.key, t.value), Entries(t.right));
    NotBelowSelf(t.key);
    if i < n {
      FindComplete(t.left, i);
    } else if i > n {
      var x := Entries(t.right)[i - n - 1];
      assert Entries(t)[i] == x && Precedes(t.key, x.0);
      FindComplete(t.right, i - n - 1);
    }
  }

  ghost predicate FindsAll<V>(t: Tree<V>) {
    forall i :: 0 <= i < |Entries(t)| ==> Find(t, Entries(t)[i].0) == Some(Entries(t)[i].1)
  }

  /** A tree that leans to the right all the way. */
  function Spine<V>(s: seq<(Int32, V)>): (t: Tree<V>)
    ensures Entries(t) == s
  {
    if s == [] then Leaf else Branch(Leaf, s[0].0, s[0].1, Spine(s[1..]))
  }

  ghost predicate DistinctKeys<V>(s: seq<(Int32, V)>) {
    forall i, j :: 0 <= i < j < |s| ==> s[i].0 != s[j].0
  }

  /** The exact price of the wrapping comparison. However the tree is rebalanced every stored key
      stays reachable, if and only if the comparison orders each key before each later one. */
  lemma SearchExact<V(!new)>(s: seq<(Int32, V)>)
    requires DistinctKeys(s)
    ensures (forall t: Tree<V> :: Entries(t) == s ==> FindsAll(t)) <==> Ordered(s)
  {
    if Ordered(s) {
      forall t: Tree<V> | Entries(t) == s
        ensures FindsAll(t)
      {
        forall i | 0 <= i < |s| {
          FindComplete(t, i);
        }
      }
    } else {
      var i, j :| 0 <= i < j < |s| && !Precedes(s[i].0, s[j].0);
      if !Below(s[i].0, s[j].0) {
        MissedAtRoot(s, j, i);
      } else {
        MissedAtRoot(s, i, j);
      }
    }
  }

  /** Put entry `r` at the root: a search for entry `i` then turns the wrong way. */
  lemma MissedAtRoot<V(!new)>(s: seq<(Int32, V)>, r: nat, i: nat)
    requires DistinctKeys(s) && r < |s| && i < |s| && r != i
    requires if i < r then !Below(s[i].0, s[r].0) else Below(s[i].0, s[r].0)
    ensures exists t: Tree<V> :: Entries(t) == s && !FindsAll(t)
  {
    var left, right := Spine(s[..r]), Spine(s[r + 1..]);
    var t := Branch(left, s[r].0, s[r].1, right);
    assert Entries(t) == s[..r] + [s[r]] + s[r + 1..] == s;
    FindSound(left, s[i].0);
    FindSound(right, s[i].0);
    assert Find(t, s[i].0) == None;
    assert !FindsAll(t);
  }

  /** Two keys half the range apart: inserted one after the other both are found, but a single
      rotation loses the second. */
  lemma FarKeysGetLost()
    ensures var a, b := 0x7FFF_FFFF, -1;
      var built := Link(Link(Leaf, b, 0), a, 1);
      var rotated := Branch(Leaf, a, 1, Branch(Leaf, b, 0, Leaf));
      && Find(built, a) == Some(1) && Find(built, b) == Some(0)
      && Entries(rotated) == Entries(built)
      && Find(rotated, b) == None
  {
  }

  // ----- inserting

  /** The descent of insert_reservation and insert_shmid, and the new node at its end. */
  function Link<V>(t: Tree<V>, key: Int32, v: V): (r: Tree<V>) {
    match t
    case Leaf => Branch(Leaf, key, v, Leaf)
    case Branch(l, k, x, r) =>
      if Below(key, k) then Branch(Link(l, key, v), k, x, r)
      else if key != k then Branch(l, k, x, Link(r, key, v))
      else t
  }

  /** The wrapping comparison is a linear order on `keys`. */
  predicate Orderable(keys: set<Int32>) {
    && (forall a, b :: a in keys && b in keys && a != b ==> Precedes(a, b) || Precedes(b, a))
    && (forall a, b, c :: a in keys && b in keys && c in keys && Precedes(a, b) && Precedes(b, c) ==> Precedes(a, c))
  }

  /** Two keys whose difference fits a signed 32-bit integer. */
  predicate Near(a: Int32, b: Int32) {
    -0x8000_0000 < a - b < 0x8000_0000
  }

  /** Keys whose differences fit are ordered as the integers are. */
  lemma NearOrderable(keys: set<Int32>)
    requires forall a, b :: a in keys && b in keys ==> Near(a, b)
    ensures Orderable(keys)
  {
    forall a, b | a in keys && b in keys
      ensures Precedes(a, b) <==> a < b
    {
      assert Near(a, b);
    }
  }

  lemma SubsetOrderable(keys: set<Int32>, more: set<Int32>)
    requires Orderable(more) && keys <= more
    ensures Orderable(keys)
  {
  }

  /** What one more key does to keys that are not negative, as process IDs are: they can still be ordered
      exactly when it is not negative either, or its distance from all of them fits, or from none. */
  lemma OneMoreExact(keys: set<Int32>, key: Int32)
    requires forall k :: k in keys ==> k >= 0
    ensures Orderable(keys + {key}) <==>
      || key >= 0
      || (forall k :: k in keys ==> k - key < 0x8000_0000)
      || (forall k :: k in keys ==> k - key > 0x8000_0000)
  {
    if key >= 0 || (forall k :: k in keys ==> k - key < 0x8000_0000) {
      NearOrderable(keys + {key});
    } else if forall k :: k in keys ==> k - key > 0x8000_0000 {
      assert forall k :: k in keys ==> Precedes(k, key);
      assert forall a, b :: a in keys && b in keys ==> (Precedes(a, b) <==> a < b);
    } else {
      var far :| far in keys && far - key >= 0x8000_0000;
      var near :| near in keys && near - key <= 0x8000_0000;
      if far - key == 0x8000_0000 {
        Opposite(keys + {key}, far, key);
      } else if near - key == 0x8000_0000 {
        Opposite(keys + {key}, near, key);
      } else {
        assert Precedes(key, near) && Precedes(near, far) && !Precedes(key, far);
      }
    }
  }

  lemma Opposite(keys: set<Int32>, a: Int32, b: Int32)
    requires a in keys && b in keys && a - b == 0x8000_0000
    ensures !Orderable(keys)
  {
    assert !Precedes(a, b) && !Precedes(b, a);
  }

  /** Three process IDs that cannot be ordered, the third negative. */
  lemma NegativeUnorders()
    ensures !Orderable({13, 5000, -0x7FFF_F000})
  {
    var keys: set<Int32> := {13, 5000};
    OneMoreExact(keys, -0x7FFF_F000);
    assert 13 in keys && 5000 in keys;
    assert keys + {-0x7FFF_F000} == {13, 5000, -0x7FFF_F000};
  }

  /** `key` belongs at position `k`. */
  ghost predicate SlotAt<V>(s: seq<(Int32, V)>, key: Int32, k: nat)
    requires k <= |s|
  {
    && (forall i :: 0 <= i < k ==> Precedes(s[i].0, key))
    && (forall i :: k <= i < |s| ==> Precedes(key, s[i].0))
  }

  lemma SlotParts<V>(a: seq<(Int32, V)>, x: (Int32, V), b: seq<(Int32, V)>, key: Int32, k: nat)
    requires k <= |a + [x] + b| && SlotAt(a + [x] + b, key, k)
    ensures k <= |a| <==> Below(key, x.0)
    ensures k <= |a| ==> SlotAt(a, key, k)
    ensures k > |a| ==> key != x.0 && SlotAt(b, key, k - |a| - 1)
  {
    var e, n := a + [x] + b, |a|;
    assert e[n] == x;
    NotBelowSelf(key);
    if k <= n {
      assert forall i :: 0 <= i < n ==> a[i] == e[i];
    } else {
      assert forall j :: 0 <= j < |b| ==> b[j] == e[n + 1 + j];
    }
  }

  /** A new key lands where it belongs. */
  lemma {:induction false} LinkAt<V>(t: Tree<V>, key: Int32, v: V, k: nat)
    requires k <= |Entries(t)| && SlotAt(Entries(t), key, k)
    ensures Entries(Link(t, key, v)) == Entries(t)[..k] + [(key, v)] + Entries(t)[k..]
  {
    hide SlotAt, Below;
    if t.Branch? {
      var a, x, b := Entries(t.left), (t.key, t.value), Entries(t.right);
      SlotParts(a, x, b, key, k);
      if k <= |a| {
        LinkAt(t.left, key, v, k);
        InsertLeft(a, x, b, (key, v), k);
      } else {
        LinkAt(t.right, key, v, k - |a| - 1);
        InsertRight(a, x, b, (key, v), k - |a| - 1);
      }
    }
  }

  lemma InsertLeft<T>(a: seq<T>, x: T, b: seq<T>, y: T, k: nat)
    requires k <= |a|
    ensures (a + [x] + b)[..k] + [y] + (a + [x] + b)[k..] == (a[..k] + [y] + a[k..]) + [x] + b
  {
  }

  lemma InsertRight<T>(a: seq<T>, x: T, b: seq<T>, y: T, k: nat)
    requires k <= |b|
    ensures var n := |a| + 1 + k;
      (a + [x] + b)[..n] + [y] + (a + [x] + b)[n..] == a + [x] + (b[..k] + [y] + b[k..])
  {
  }

  /** Among orderable keys every new key has its place. */
  lemma {:induction false} FindSlot<V>(s: seq<(Int32, V)>, key: Int32, keys: set<Int32>) returns (k: nat)
    requires Ordered(s) && Orderable(keys) && key in keys
    requires forall i :: 0 <= i < |s| ==> s[i].0 in keys && s[i].0 != key
    ensures k <= |s| && SlotAt(s, key, k)
  {
    hide Precedes;
    if s == [] {
      k := 0;
    } else {
      var n := |s| - 1;
      var before := s[..n];
      if Precedes(s[n].0, key) {
        k := |s|;
        assert forall i :: 0 <= i < n ==> Precedes(s[i].0, s[n].0);
      } else {
        assert forall i :: 0 <= i < n ==> before[i] == s[i];
        k := FindSlot(before, key, keys);
      }
    }
  }

  // ----- the map a tree stands for

  lemma {:induction false} AssocAt<V>(s: seq<(Int32, V)>, i: nat)
    requires i < |s| && DistinctKeys(s)
    ensures s[i].0 in Assoc(s) && Assoc(s)[s[i].0] == s[i].1
  {
    var n := |s| - 1;
    if i < n {
      assert s[i] == s[..n][i];
      AssocAt(s[..n], i);
    }
  }

  lemma {:induction false} AssocKey<V>(s: seq<(Int32, V)>, k: Int32) returns (i: nat)
    requires k in Assoc(s)
    ensures i < |s| && s[i].0 == k
  {
    var n := |s| - 1;
    if s[n].0 == k {
      i := n;
    } else {
      i := AssocKey(s[..n], k);
    }
  }

  lemma OrderedDistinct<V>(s: seq<(Int32, V)>)
    requires Ordered(s)
    ensures DistinctKeys(s)
  {
    forall i, j | 0 <= i < j < |s|
      ensures s[i].0 != s[j].0
    {
      assert Precedes(s[i].0, s[j].0);
    }
  }

  /** A search is a look-up. */
  lemma FindIsLookup<V>(t: Tree<V>, key: Int32)
    requires Ordered(Entries(t))
    ensures Find(t, key) == if key in Contents(t) then Some(Contents(t)[key]) else None
  {
    var s := Entries(t);
    OrderedDistinct(s);
    if key in Contents(t) {
      var i := AssocKey(s, key);
      FindComplete(t, i);
      AssocAt(s, i);
    } else {
      FindSound(t, key);
      if Find(t, key).Some? {
        var i :| 0 <= i < |s| && s[i] == (key, Find(t, key).value);
        AssocAt(s, i);
      }
    }
  }

  /** An insertion is a map update, whatever rebalancing follows. */
  lemma LinkIsUpdate<V>(t: Tree<V>, key: Int32, v: V, balanced: Tree<V>)
    requires Ordered(Entries(t)) && Orderable(Contents(t).Keys + {key})
    requires key !in Contents(t)
    requires Entries(balanced) == Entries(Link(t, key, v))
    ensures Ordered(Entries(balanced))
    ensures Contents(balanced) == Contents(t)[key := v]
  {
    hide Ordered, Orderable, SlotAt;
    var s := Entries(t);
    KeysOf(s);
    var k := FindSlot(s, key, Contents(t).Keys + {key});
    LinkAt(t, key, v, k);
    assert s[..k] + s[k..] == s;
    AssocInsert(s[..k], (key, v), s[k..]);
    InsertOrdered(s, (key, v), k);
  }

  // ----- trees out of order

  function KeySet<V>(s: seq<(Int32, V)>): (keys: set<Int32>) {
    set i | 0 <= i < |s| :: s[i].0
  }

  /** What the search finds, in any tree. */
  ghost function Visible<V>(t: Tree<V>): (m: map<Int32, V>) {
    map k | k in KeySet(Entries(t)) && Find(t, k).Some? :: Find(t, k).value
  }

  lemma VisibleFind<V>(t: Tree<V>, key: Int32)
    ensures Find(t, key) == if key in Visible(t) then Some(Visible(t)[key]) else None
    ensures key in Visible(t) ==> exists i :: 0 <= i < |Entries(t)| && Entries(t)[i] == (key, Visible(t)[key])
  {
    FindSound(t, key);
    if Find(t, key).Some? {
      var i :| 0 <= i < |Entries(t)| && Entries(t)[i] == (key, Find(t, key).value);
      assert Entries(t)[i].0 in KeySet(Entries(t));
    }
  }

  /** In order the search finds everything. */
  lemma VisibleOrdered<V>(t: Tree<V>)
    requires Ordered(Entries(t))
    ensures Visible(t) == Contents(t) && Visible(t).Keys == KeySet(Entries(t))
    ensures forall i :: 0 <= i < |Entries(t)| ==>
      Entries(t)[i].0 in Visible(t) && Visible(t)[Entries(t)[i].0] == Entries(t)[i].1
  {
    hide Ordered, Find;
    var s := Entries(t);
    OrderedDistinct(s);
    forall i | 0 <= i < |s|
      ensures s[i].0 in Visible(t) && Visible(t)[s[i].0] == s[i].1
    {
      AssocAt(s, i);
      FindIsLookup(t, s[i].0);
    }
    forall k | k in Contents(t)
      ensures k in Visible(t) && Visible(t)[k] == Contents(t)[k]
    {
      var i := AssocKey(s, k);
      FindIsLookup(t, k);
    }
    forall k | k in KeySet(s)
      ensures k in Contents(t) && k in Visible(t)
    {
      var i :| 0 <= i < |s| && s[i].0 == k;
      AssocAt(s, i);
    }
  }

  /** Linking and rebalancing add one entry to any tree. */
  lemma LinkAdds<V>(t: Tree<V>, key: Int32, v: V)
    requires Find(t, key) == None
    ensures var s, s' := Entries(t), Entries(Link(t, key, v));
      && (key, v) in s' && (forall i :: 0 <= i < |s| ==> s[i] in s')
      && (forall i :: 0 <= i < |s'| ==> s'[i] == (key, v) || s'[i] in s)
  {
    var k := LinkSomewhere(t, key, v);
    assert Entries(t) == Entries(t)[..k] + Entries(t)[k..];
  }

  /** ... and, if all keys can be ordered, one to what the search finds. */
  lemma LinkVisible<V>(t: Tree<V>, key: Int32, v: V, balanced: Tree<V>)
    requires Ordered(Entries(t)) && Orderable(KeySet(Entries(t)) + {key}) && Find(t, key) == None
    requires Entries(balanced) == Entries(Link(t, key, v))
    ensures Ordered(Entries(balanced)) && Visible(balanced) == Visible(t)[key := v]
  {
    hide Ordered, Orderable, Find, Link;
    VisibleOrdered(t);
    FindIsLookup(t, key);
    LinkIsUpdate(t, key, v, balanced);
    VisibleOrdered(balanced);
  }

  function KeysIn<V(==)>(all: set<V>, key: V -> Int32): (keys: set<Int32>) {
    set r | r in all :: key(r)
  }

  /** The tree holds the nodes `all`, each under its own key. The search finds those of `found`: all of them,
      if the comparison can order the keys. */
  ghost predicate Stands<V>(t: Tree<V>, found: map<Int32, V>, all: set<V>, key: V -> Int32) {
    && Visible(t) == found
    && (forall i :: 0 <= i < |Entries(t)| ==> Entries(t)[i].1 in all && Entries(t)[i].0 == key(Entries(t)[i].1))
    && (forall r :: r in all ==> (key(r), r) in Entries(t))
    && (Orderable(KeysIn(all, key)) ==> Ordered(Entries(t)))
  }

  lemma StandsFound<V>(t: Tree<V>, found: map<Int32, V>, all: set<V>, key: V -> Int32)
    requires Stands(t, found, all, key)
    ensures forall k :: k in found ==> found[k] in all && key(found[k]) == k
  {
    hide Find;
    forall k | k in found
      ensures found[k] in all && key(found[k]) == k
    {
      VisibleFind(t, k);
    }
  }

  lemma KeysAgree<V>(t: Tree<V>, found: map<Int32, V>, all: set<V>, key: V -> Int32)
    requires Stands(t, found, all, key)
    ensures KeySet(Entries(t)) == KeysIn(all, key)
  {
    hide Ordered, Orderable, Visible;
    var s := Entries(t);
    forall k | k in KeysIn(all, key)
      ensures k in KeySet(s)
    {
      var r :| r in all && key(r) == k;
      assert (key(r), r) in s;
      var i :| 0 <= i < |s| && s[i] == (key(r), r);
      assert s[i].0 == k;
    }
    forall k | k in KeySet(s)
      ensures k in KeysIn(all, key)
    {
      var i :| 0 <= i < |s| && s[i].0 == k;
      assert s[i] in s;
    }
  }

  /** Linking a node that the search does not find, and any rebalancing. */
  lemma LinkStands<V>(t: Tree<V>, found: map<Int32, V>, all: set<V>, key: V -> Int32, r: V, balanced: Tree<V>)
    requires Stands(t, found, all, key) && key(r) !in found && Entries(balanced) == Entries(Link(t, key(r), r))
    ensures Stands(balanced, Visible(balanced), all + {r}, key)
    ensures Orderable(KeysIn(all, key) + {key(r)}) ==> Visible(balanced) == found[key(r) := r]
  {
    hide Ordered, Orderable, Visible, Find, Link, Entries;
    VisibleFind(t, key(r));
    LinkAdds(t, key(r), r);
    assert KeysIn(all + {r}, key) == KeysIn(all, key) + {key(r)};
    var s, s' := Entries(t), Entries(balanced);
    forall i | 0 <= i < |s'|
      ensures s'[i].1 in all + {r} && s'[i].0 == key(s'[i].1)
    {
      if s'[i] != (key(r), r) {
        var j :| 0 <= j < |s| && s[j] == s'[i];
      }
    }
    forall o | o in all
      ensures (key(o), o) in s'
    {
      var j :| 0 <= j < |s| && s[j] == (key(o), o);
    }
    if Orderable(KeysIn(all, key) + {key(r)}) {
      SubsetOrderable(KeysIn(all, key), KeysIn(all, key) + {key(r)});
      KeysAgree(t, found, all, key);
      LinkVisible(t, key(r), r, balanced);
    }
  }

  lemma KeysOf<V>(s: seq<(Int32, V)>)
    requires Ordered(s)
    ensures forall i :: 0 <= i < |s| ==> s[i].0 in Assoc(s)
  {
    OrderedDistinct(s);
    forall i | 0 <= i < |s|
      ensures s[i].0 in Assoc(s)
    {
      AssocAt(s, i);
    }
  }

  /** The keys of an ordered tree are orderable: the condition of LinkIsUpdate is also necessary. */
  lemma OrderedOrderable<V>(s: seq<(Int32, V)>)
    requires Ordered(s)
    ensures Orderable(Assoc(s).Keys)
  {
    forall a | a in Assoc(s)
      ensures exists i :: 0 <= i < |s| && s[i].0 == a
    {
      var i := AssocKey(s, a);
    }
  }

  lemma {:induction false} LinkSomewhere<V>(t: Tree<V>, key: Int32, v: V) returns (k: nat)
    requires Find(t, key) == None
    ensures k <= |Entries(t)| && Entries(Link(t, key, v)) == Entries(t)[..k] + [(key, v)] + Entries(t)[k..]
  {
    if t == Leaf {
      k := 0;
    } else {
      var a, x, b := Entries(t.left), (t.key, t.value), Entries(t.right);
      if Below(key, t.key) {
        k := LinkSomewhere(t.left, key, v);
        InsertLeft(a, x, b, (key, v), k);
      } else {
        k := LinkSomewhere(t.right, key, v);
        InsertRight(a, x, b, (key, v), k);
        k := k + |a| + 1;
      }
    }
  }

  /** An insertion of a new key leaves an ordered tree ordered, and so every key reachable whatever
      the rebalancing, if and only if the wrapping comparison orders all keys together. */
  lemma LinkExact<V>(t: Tree<V>, key: Int32, v: V)
    requires Ordered(Entries(t)) && key !in Contents(t)
    ensures Ordered(Entries(Link(t, key, v))) <==> Orderable(Contents(t).Keys + {key})
  {
    hide Ordered, Orderable;
    if Orderable(Contents(t).Keys + {key}) {
      LinkIsUpdate(t, key, v, Link(t, key, v));
    }
    if Ordered(Entries(Link(t, key, v))) {
      var s := Entries(t);
      FindIsLookup(t, key);
      var k := LinkSomewhere(t, key, v);
      assert s[..k] + s[k..] == s;
      AssocInsert(s[..k], (key, v), s[k..]);
      OrderedOrderable(Entries(Link(t, key, v)));
      assert Contents(t)[key := v].Keys == Contents(t).Keys + {key};
    }
  }

  lemma AssocInsert<V>(pre: seq<(Int32, V)>, x: (Int32, V), post: seq<(Int32, V)>)
    requires x.0 !in Assoc(pre + post)
    ensures Assoc(pre + [x] + post) == Assoc(pre + post)[x.0 := x.1]
  {
    AssocConcat(pre, post);
    AssocConcat(pre + [x], post);
    assert (pre + [x])[..|pre|] == pre;
    assert Assoc(pre + [x]) == Assoc(pre)[x.0 := x.1];
  }

  lemma {:induction false} AssocConcat<V>(a: seq<(Int32, V)>, b: seq<(Int32, V)>)
    ensures Assoc(a + b) == Assoc(a) + Assoc(b)
  {
    if b == [] {
      assert a + b == a;
    } else {
      var n := |b| - 1;
      assert (a + b)[..|a + b| - 1] == a + b[..n];
      AssocConcat(a, b[..n]);
    }
  }

  lemma InsertOrdered<V>(s: seq<(Int32, V)>, x: (Int32, V), k: nat)
    requires Ordered(s) && k <= |s| && SlotAt(s, x.0, k)
    ensures Ordered(s[..k] + [x] + s[k..])
  {
    var pre, post := s[..k], s[k..];
    assert forall i :: 0 <= i < k ==> pre[i] == s[i];
    assert forall j :: 0 <= j < |post| ==> post[j] == s[k + j];
    OrderedParts(pre, x, post);
  }
}
