/** The Blowfish block cipher: its Feistel rounds in both directions, and the key expansion that runs
    the cipher on its own tables. */
module Blowfish {
  import opened Options

  // ----- words

  function Mix(a: bv32, b: bv32): (r: bv32) {
    a ^ b
  }

  lemma MixCancels(a: bv32, b: bv32)
    ensures Mix(Mix(a, b), b) == a
  {
  }

  /** Addition modulo 2^32. */
  function Sum(a: bv32, b: bv32): (r: bv32) {
    a + b
  }

  function Octet(x: bv32, i: nat): (b: nat)
    requires i < 4
    ensures b < 256
  {
    var o: bv8 :=
      if i == 0 then (x & 0xFF) as bv8 else if i == 1 then ((x >> 8) & 0xFF) as bv8
      else if i == 2 then ((x >> 16) & 0xFF) as bv8 else ((x >> 24) & 0xFF) as bv8;
    o as nat
  }

  const SBOX: nat := 1024     // four rows of 256

  /** The round function, on the four rows one after the other. */
  function F(s: seq<bv32>, x: bv32): (r: bv32)
    requires |s| == SBOX
  {
    Sum(Mix(Sum(s[Octet(x, 3)], s[256 + Octet(x, 2)]), s[512 + Octet(x, 1)]), s[768 + Octet(x, 0)])
  }

  datatype Pair = Pair(l: bv32, r: bv32)

  function Swap(p: Pair): (q: Pair) {
    Pair(p.r, p.l)
  }

  // ----- rounds

  /** One half round with the key on the left. */
  function Half(s: seq<bv32>, k: bv32, p: Pair): (q: Pair)
    requires |s| == SBOX
  {
    var l := Mix(p.l, k);
    Pair(l, Mix(p.r, F(s, l)))
  }

  function Unhalf(s: seq<bv32>, k: bv32, p: Pair): (q: Pair)
    requires |s| == SBOX
  {
    Pair(Mix(p.l, k), Mix(p.r, F(s, p.l)))
  }

  lemma HalfUndone(s: seq<bv32>, k: bv32, p: Pair)
    requires |s| == SBOX
    ensures Unhalf(s, k, Half(s, k, p)) == p && Half(s, k, Unhalf(s, k, p)) == p
  {
    hide Mix, F;
    var l := Mix(p.l, k);
    MixCancels(p.l, k);
    MixCancels(p.r, F(s, l));
    MixCancels(p.r, F(s, p.l));
  }

  /** Round `i` works on the left half when `i` is even and on the right half when it is odd. */
  function Round(k: seq<bv32>, s: seq<bv32>, p: Pair, i: nat): (q: Pair)
    requires |k| == 18 && |s| == SBOX && i < 16
  {
    if i % 2 == 0 then Half(s, k[i], p) else Swap(Half(s, k[i], Swap(p)))
  }

  function Unround(k: seq<bv32>, s: seq<bv32>, p: Pair, i: nat): (q: Pair)
    requires |k| == 18 && |s| == SBOX && i < 16
  {
    if i % 2 == 0 then Unhalf(s, k[i], p) else Swap(Unhalf(s, k[i], Swap(p)))
  }

  lemma RoundUndone(k: seq<bv32>, s: seq<bv32>, p: Pair, i: nat)
    requires |k| == 18 && |s| == SBOX && i < 16
    ensures Unround(k, s, Round(k, s, p, i), i) == p && Round(k, s, Unround(k, s, p, i), i) == p
  {
    hide Half, Unhalf;
    HalfUndone(s, k[i], p);
    HalfUndone(s, k[i], Swap(p));
  }

  /** After the first `n` rounds. */
  function Forward(k: seq<bv32>, s: seq<bv32>, p: Pair, n: nat): (q: Pair)
    requires |k| == 18 && |s| == SBOX && n <= 16
  {
    if n == 0 then p else Round(k, s, Forward(k, s, p, n - 1), n - 1)
  }

  /** After taking rounds 15 down to `n` back. */
  function Backward(k: seq<bv32>, s: seq<bv32>, p: Pair, n: nat): (q: Pair)
    requires |k| == 18 && |s| == SBOX && n <= 16
    decreases 16 - n
  {
    if n == 16 then p else Unround(k, s, Backward(k, s, p, n + 1), n)
  }

  function LastKeys(k: seq<bv32>, p: Pair): (q: Pair)
    requires |k| == 18
  {
    Pair(Mix(p.l, k[16]), Mix(p.r, k[17]))
  }

  /** s_blowfish_encipher. */
  function Encrypted(k: seq<bv32>, s: seq<bv32>, p: Pair): (c: Pair)
    requires |k| == 18 && |s| == SBOX
  {
    Swap(LastKeys(k, Forward(k, s, p, 16)))
  }

  /** blowfish_ecb_decrypt. */
  function Decrypted(k: seq<bv32>, s: seq<bv32>, c: Pair): (p: Pair)
    requires |k| == 18 && |s| == SBOX
  {
    Backward(k, s, LastKeys(k, Swap(c)), 0)
  }

  lemma {:induction false} BackwardUndoes(k: seq<bv32>, s: seq<bv32>, p: Pair, n: nat)
    requires |k| == 18 && |s| == SBOX && n <= 16
    ensures Backward(k, s, Forward(k, s, p, 16), n) == Forward(k, s, p, n)
    decreases 16 - n
  {
    hide Round, Unround;
    if n < 16 {
      BackwardUndoes(k, s, p, n + 1);
      RoundUndone(k, s, Forward(k, s, p, n), n);
    }
  }

  lemma {:induction false} ForwardUndoes(k: seq<bv32>, s: seq<bv32>, p: Pair, n: nat)
    requires |k| == 18 && |s| == SBOX && n <= 16
    ensures Forward(k, s, Backward(k, s, p, 0), n) == Backward(k, s, p, n)
  {
    hide Round, Unround;
    if n > 0 {
      ForwardUndoes(k, s, p, n - 1);
      RoundUndone(k, s, Backward(k, s, p, n), n - 1);
    }
  }

  lemma LastKeysUndone(k: seq<bv32>, p: Pair)
    requires |k| == 18
    ensures LastKeys(k, LastKeys(k, p)) == p
  {
    hide Mix;
    MixCancels(p.l, k[16]);
    MixCancels(p.r, k[17]);
  }

  /** For all tables the two directions undo each other. */
  lemma MutualInverses(k: seq<bv32>, s: seq<bv32>, p: Pair)
    requires |k| == 18 && |s| == SBOX
    ensures Decrypted(k, s, Encrypted(k, s, p)) == p
    ensures Encrypted(k, s, Decrypted(k, s, p)) == p
  {
    hide Forward, Backward, LastKeys;
    BackwardUndoes(k, s, p, 0);
    LastKeysUndone(k, Forward(k, s, p, 16));
    ForwardStart(k, s, p);
    ForwardUndoes(k, s, LastKeys(k, Swap(p)), 16);
    ForwardStart(k, s, LastKeys(k, Swap(p)));
    LastKeysUndone(k, Swap(p));
  }

  lemma ForwardStart(k: seq<bv32>, s: seq<bv32>, p: Pair)
    requires |k| == 18 && |s| == SBOX
    ensures Forward(k, s, p, 0) == p && Backward(k, s, p, 16) == p
  {
  }

  lemma OneRound(k: seq<bv32>, s: seq<bv32>, p: Pair, n: nat)
    requires |k| == 18 && |s| == SBOX && n < 16
    ensures Forward(k, s, p, n + 1) == Round(k, s, Forward(k, s, p, n), n)
    ensures Backward(k, s, p, n) == Unround(k, s, Backward(k, s, p, n + 1), n)
  {
  }

  // ----- key bytes

  /** The next position in a key of `n` bytes that is read in a circle. */
  function Around(y: nat, n: nat): (r: nat)
    requires y < n
    ensures r < n
  {
    if y + 1 == n then 0 else y + 1
  }

  /** Position `a` in a circle of `n`. */
  function Pos(a: nat, n: nat): (r: nat)
    requires n > 0
    ensures r < n
  {
    a % n
  }

  lemma AroundIsModulo(a: nat, n: nat)
    requires n > 0
    ensures Around(Pos(a, n), n) == Pos(a + 1, n)
  {
    var q, r := a / n, a % n;
    assert a == n * q + r;
    if r + 1 == n {
      assert a + 1 == n * (q + 1);
      Remainder(q + 1, 0, n);
    } else {
      Remainder(q, r + 1, n);
    }
  }

  lemma AtLeast(n: nat, q: nat)
    requires q >= 1
    ensures n * q >= n
  {
  }

  lemma Remainder(q: nat, r: nat, n: nat)
    requires r < n
    ensures (n * q + r) % n == r
  {
    var x := n * q + r;
    var p, t := x / n, x % n;
    assert x == n * p + t;
    if p < q {
      AtLeast(n, q - p);
    } else if q < p {
      AtLeast(n, p - q);
    }
  }

  /** A byte pushed into a word from below. */
  function Push(w: bv32, b: bv8): (r: bv32) {
    (w << 8) | (b as bv32)
  }

  /** `z` bytes of `d` from position `a` on, read in a circle. */
  function Pushed(d: seq<bv8>, a: nat, z: nat): (w: bv32)
    requires d != []
  {
    if z == 0 then 0 else Push(Pushed(d, a, z - 1), d[Pos(a + z - 1, |d|)])
  }

  function WordFrom(d: seq<bv8>, a: nat): (w: bv32)
    requires d != []
  {
    Pushed(d, a, 4)
  }

  /** The bytes of a word are the bytes pushed into it, the first one on top. */
  lemma PushedBytes(a: bv8, b: bv8, c: bv8, d: bv8)
    ensures var w := Push(Push(Push(Push(0, a), b), c), d);
      && ((w >> 24) & 0xFF) as bv8 == a && ((w >> 16) & 0xFF) as bv8 == b
      && ((w >> 8) & 0xFF) as bv8 == c && (w & 0xFF) as bv8 == d
  {
  }

  /** The round function on the bytes of its word, the most significant first: each selects from a row of
      its own. */
  lemma RoundBytes(s: seq<bv32>, a: bv8, b: bv8, c: bv8, d: bv8)
    requires |s| == SBOX
    ensures F(s, Push(Push(Push(Push(0, a), b), c), d)) ==
      Sum(Mix(Sum(s[a as nat], s[256 + b as nat]), s[512 + c as nat]), s[768 + d as nat])
  {
    hide Push, Octet, Sum, Mix;
    OctetBytes(a, b, c, d);
  }

  lemma OctetBytes(a: bv8, b: bv8, c: bv8, d: bv8)
    ensures var w := Push(Push(Push(Push(0, a), b), c), d);
      Octet(w, 3) == a as nat && Octet(w, 2) == b as nat && Octet(w, 1) == c as nat && Octet(w, 0) == d as nat
  {
    hide Push;
    PushedBytes(a, b, c, d);
  }

  /** Byte j of the word at `a` is byte (a + j) mod |d|. */
  lemma WordBytes(d: seq<bv8>, a: nat)
    requires d != []
    ensures var w, n := WordFrom(d, a), |d|;
      && ((w >> 24) & 0xFF) as bv8 == d[a % n] && ((w >> 16) & 0xFF) as bv8 == d[(a + 1) % n]
      && ((w >> 8) & 0xFF) as bv8 == d[(a + 2) % n] && (w & 0xFF) as bv8 == d[(a + 3) % n]
  {
    hide Push;
    var n := |d|;
    assert WordFrom(d, a) == Push(Push(Push(Push(0, d[Pos(a, n)]), d[Pos(a + 1, n)]), d[Pos(a + 2, n)]), d[Pos(a + 3, n)]) by {
      hide Pos;
      assert Pushed(d, a, 1) == Push(0, d[Pos(a, n)]);
      assert Pushed(d, a, 2) == Push(Pushed(d, a, 1), d[Pos(a + 1, n)]);
      assert Pushed(d, a, 3) == Push(Pushed(d, a, 2), d[Pos(a + 2, n)]);
    }
    PushedBytes(d[a % n], d[(a + 1) % n], d[(a + 2) % n], d[(a + 3) % n]);
  }

  /** s_blowfish_stream2word: four bytes, and where to go on. */
  method Stream2Word(d: seq<bv8>, cur: nat, ghost a: nat) returns (ret: bv32, next: nat)
    requires d != [] && cur == Pos(a, |d|)
    ensures ret == WordFrom(d, a) && next == Pos(a + 4, |d|)
  {
    hide Push, Pos;
    var y, z := cur, 0;
    ret := 0;
    while z < 4
      invariant 0 <= z <= 4 && y == Pos(a + z, |d|) && ret == Pushed(d, a, z)
    {
      ret := Push(ret, d[y]);
      AroundIsModulo(a + z, |d|);
      y := if y + 1 == |d| then 0 else y + 1;
      z := z + 1;
    }
    next := y;
  }

  // ----- expansion

  /** The tables of a key in the making, and the last block enciphered. */
  datatype Work = Work(k: seq<bv32>, s: seq<bv32>, b: Pair)

  predicate Sized(w: Work) {
    |w.k| == 18 && |w.s| == SBOX
  }

  /** The extra data of a salted expansion goes into the block, eight bytes at a time. */
  function Salted(b: Pair, data: Option<seq<bv8>>, n: nat): (r: Pair)
    requires Salt(data)
  {
    if data.None? then b
    else Pair(Mix(b.l, WordFrom(data.value, 8 * n)), Mix(b.r, WordFrom(data.value, 8 * n + 4)))
  }

  predicate Salt(data: Option<seq<bv8>>) {
    data.Some? ==> data.value != []
  }

  /** The key words, each combined with a word of the key. */
  function Keyed(k: seq<bv32>, key: seq<bv8>): (r: seq<bv32>)
    requires |k| == 18 && key != []
    ensures |r| == 18 && forall x :: 0 <= x < 18 ==> r[x] == Mix(k[x], WordFrom(key, 4 * x))
  {
    seq(18, x requires 0 <= x < 18 => Mix(k[x], WordFrom(key, 4 * x)))
  }

  /** Step `n` of the expansion: encipher the block with the tables as they are, then write it over
      their next two words, first in K and then in S. */
  function Expand1(w: Work, data: Option<seq<bv8>>, n: nat): (r: Work)
    requires Sized(w) && n < 521 && Salt(data)
    ensures Sized(r)
  {
    var b := Encrypted(w.k, w.s, Salted(w.b, data, n));
    if n < 9 then Work(w.k[2 * n := b.l][2 * n + 1 := b.r], w.s, b)
    else Work(w.k, w.s[2 * (n - 9) := b.l][2 * (n - 9) + 1 := b.r], b)
  }

  function Expanded(w: Work, data: Option<seq<bv8>>, n: nat): (r: Work)
    requires Sized(w) && n <= 521 && Salt(data)
    ensures Sized(r)
  {
    if n == 0 then w else Expand1(Expanded(w, data, n - 1), data, n - 1)
  }

  /** K and S as one table of 1042 words. */
  function Table(w: Work): (t: seq<bv32>)
    requires Sized(w)
    ensures |t| == 18 + SBOX
  {
    w.k + w.s
  }

  /** Step `n` writes words 2n and 2n + 1 of the table and no others. Under the tables before the step
      they decipher to the block before it, with the extra data in. */
  lemma ExpandStep(w: Work, data: Option<seq<bv8>>, n: nat)
    requires Sized(w) && n < 521 && Salt(data)
    ensures
      var w' := Expand1(w, data, n);
      var t, t' := Table(w), Table(w');
      && w'.b == Pair(t'[2 * n], t'[2 * n + 1])
      && Decrypted(w.k, w.s, w'.b) == Salted(w.b, data, n)
      && (forall x :: 0 <= x < 1042 && x != 2 * n && x != 2 * n + 1 ==> t'[x] == t[x])
  {
    hide Encrypted, Decrypted, Salted;
    MutualInverses(w.k, w.s, Salted(w.b, data, n));
  }

  /** Words below 2m are not written after step m. */
  lemma {:induction false} WrittenOnce(w: Work, data: Option<seq<bv8>>, m: nat, n: nat)
    requires Sized(w) && m <= n <= 521 && Salt(data)
    ensures forall x :: 0 <= x < 2 * m ==> Table(Expanded(w, data, n))[x] == Table(Expanded(w, data, m))[x]
    decreases n - m
  {
    hide Expand1, Table;
    if m < n {
      WrittenOnce(w, data, m, n - 1);
      ExpandStep(Expanded(w, data, n - 1), data, n - 1);
    }
  }

  /** The expanded key is a chain. Each pair of words of the finished tables deciphers, under the tables as
      they were before it was written, to the pair before it with the extra data in, and the first
      pair to that of a zero block. */
  lemma ExpansionChain(k: seq<bv32>, s: seq<bv32>, data: Option<seq<bv8>>, n: nat)
    requires |k| == 18 && |s| == SBOX && n < 521 && Salt(data)
    ensures
      var w := Work(k, s, Pair(0, 0));
      var before, t := Expanded(w, data, n), Table(Expanded(w, data, 521));
      Decrypted(before.k, before.s, Pair(t[2 * n], t[2 * n + 1])) ==
        Salted(if n == 0 then Pair(0, 0) else Pair(t[2 * n - 2], t[2 * n - 1]), data, n)
  {
    hide Expand1, Table, Decrypted, Salted;
    var w := Work(k, s, Pair(0, 0));
    ExpandStep(Expanded(w, data, n), data, n);
    WrittenOnce(w, data, n + 1, 521);
    if n > 0 {
      ExpandStep(Expanded(w, data, n - 1), data, n - 1);
      WrittenOnce(w, data, n, 521);
    }
  }

  class Schedule {
    const K: array<bv32>
    const S: array<bv32>

    ghost predicate Valid()
      reads this
    {
      K.Length == 18 && S.Length == SBOX && K != S
    }

    constructor ()
      ensures Valid() && fresh(K) && fresh(S)
    {
      K, S := new bv32[18](_ => 0), new bv32[SBOX](_ => 0);
    }

    /** A round on the left half and one on the right. */
    method TwoRounds(l: bv32, r: bv32, n: nat, ghost p: Pair) returns (l': bv32, r': bv32)
      requires Valid() && n % 2 == 0 && n < 16 && Pair(l, r) == Forward(K[..], S[..], p, n)
      ensures Pair(l', r') == Forward(K[..], S[..], p, n + 2)
    {
      hide Mix, F, Forward;
      OneRound(K[..], S[..], p, n);
      OneRound(K[..], S[..], p, n + 1);
      l', r' := Mix(l, K[n]), r;
      r' := Mix(r', F(S[..], l'));
      r' := Mix(r', K[n + 1]);
      l' := Mix(l', F(S[..], r'));
    }

    /** s_blowfish_encipher: four rounds to an iteration. */
    method Encipher(p: Pair) returns (c: Pair)
      requires Valid()
      ensures c == Encrypted(K[..], S[..], p)
    {
      hide Mix, F, Forward;
      var l, r, rounds := p.l, p.r, 0;
      ForwardStart(K[..], S[..], p);
      while rounds < 16
        invariant 0 <= rounds <= 16 && rounds % 4 == 0
        invariant Pair(l, r) == Forward(K[..], S[..], p, rounds)
      {
        l, r := TwoRounds(l, r, rounds, p);
        l, r := TwoRounds(l, r, rounds + 2, p);
        rounds := rounds + 4;
      }
      l := Mix(l, K[16]);
      r := Mix(r, K[17]);
      c := Pair(r, l);
    }

    /** Rounds `n` and `n - 1` taken back. */
    method TwoRoundsBack(L: bv32, R: bv32, n: nat, ghost p: Pair) returns (L': bv32, R': bv32)
      requires Valid() && n % 2 == 1 && n < 16 && Pair(L, R) == Backward(K[..], S[..], p, n + 1)
      ensures Pair(L', R') == Backward(K[..], S[..], p, n - 1)
    {
      hide Mix, F, Backward;
      OneRound(K[..], S[..], p, n);
      OneRound(K[..], S[..], p, n - 1);
      L', R' := Mix(L, F(S[..], R)), R;
      R' := Mix(R', K[n]);
      R' := Mix(R', F(S[..], L'));
      L' := Mix(L', K[n - 1]);
    }

    /** blowfish_ecb_decrypt, on words. */
    method Decipher(c: Pair) returns (p: Pair)
      requires Valid()
      ensures p == Decrypted(K[..], S[..], c)
    {
      hide Mix, F, Backward;
      var R, L := c.l, c.r;
      R := Mix(R, K[17]);
      L := Mix(L, K[16]);
      ghost var start := Pair(L, R);
      ForwardStart(K[..], S[..], start);
      var r := 15;
      while r > 0
        invariant -1 <= r <= 15 && r % 4 == 3
        invariant Pair(L, R) == Backward(K[..], S[..], start, r + 1)
      {
        L, R := TwoRoundsBack(L, R, r, start);
        L, R := TwoRoundsBack(L, R, r - 2, start);
        r := r - 4;
      }
      p := Pair(L, R);
    }

    /** The first loop of blowfish_expand: word x of the key, read in a circle, goes into K[x]. */
    method LoadKey(key: seq<bv8>)
      requires Valid() && key != []
      modifies K
      ensures K[..] == Keyed(old(K[..]), key)
    {
      hide WordFrom, Mix;
      var i, x := 0, 0;
      while x < 18
        invariant 0 <= x <= 18 && i == Pos(4 * x, |key|)
        invariant forall y :: 0 <= y < 18 ==>
          K[y] == if y < x then Mix(old(K[y]), WordFrom(key, 4 * y)) else old(K[y])
      {
        var w;
        w, i := Stream2Word(key, i, 4 * x);
        K[x] := Mix(K[x], w);
        x := x + 1;
      }
    }

    /** Where the block takes up the next eight bytes of the extra data. */
    static method Absorb(b: Pair, data: Option<seq<bv8>>, i: nat, ghost n: nat) returns (r: Pair, next: nat)
      requires Salt(data) && (data.Some? ==> i == Pos(8 * n, |data.value|))
      ensures r == Salted(b, data, n)
      ensures data.Some? ==> next == Pos(8 * (n + 1), |data.value|)
    {
      hide WordFrom, Mix, Pos;
      r, next := b, i;
      if data.Some? {
        var w;
        w, next := Stream2Word(data.value, next, 8 * n);
        r := Pair(Mix(b.l, w), b.r);
        w, next := Stream2Word(data.value, next, 8 * n + 4);
        r := Pair(r.l, Mix(r.r, w));
      }
    }

    /** The tables after `n` steps of an expansion that began at `w`, and the extra data up to there. */
    ghost predicate Expanding(w: Work, b: Pair, data: Option<seq<bv8>>, i: nat, n: nat)
      requires Valid()
      reads this, K, S
    {
      && Sized(w) && n <= 521 && Salt(data) && Work(K[..], S[..], b) == Expanded(w, data, n)
      && (data.Some? ==> i == Pos(8 * n, |data.value|))
    }

    method FillK(data: Option<seq<bv8>>, ghost w: Work) returns (B: Pair, i: nat)
      requires Valid() && Salt(data) && w == Work(K[..], S[..], Pair(0, 0))
      modifies K
      ensures Expanding(w, B, data, i, 9)
    {
      hide Encrypted, Salted, Pos;
      var x := 0;
      i, B := 0, Pair(0, 0);
      ghost var n := 0;
      PosZero(data);
      while x < 18
        invariant 0 <= x <= 18 && x == 2 * n && Expanding(w, B, data, i, n)
      {
        B, i := Absorb(B, data, i, n);
        B := Encipher(B);
        K[x], K[x + 1] := B.l, B.r;
        x, n := x + 2, n + 1;
      }
    }

    method FillRow(data: Option<seq<bv8>>, x: nat, b: Pair, j: nat, ghost w: Work) returns (B: Pair, i: nat)
      requires Valid() && x < 4 && Expanding(w, b, data, j, 9 + 128 * x)
      modifies S
      ensures Expanding(w, B, data, i, 9 + 128 * (x + 1))
    {
      hide Encrypted, Salted, Pos;
      var y := 0;
      i, B := j, b;
      ghost var n := 9 + 128 * x;
      while y < 256
        invariant 0 <= y <= 256 && 2 * n == 18 + 256 * x + y && Expanding(w, B, data, i, n)
      {
        B, i := Absorb(B, data, i, n);
        B := Encipher(B);
        S[256 * x + y], S[256 * x + y + 1] := B.l, B.r;
        y, n := y + 2, n + 1;
      }
    }

    /** blowfish_expand: the cipher is run on its own tables while they are being overwritten. */
    method Expand(key: seq<bv8>, data: Option<seq<bv8>>)
      requires Valid() && key != [] && Salt(data)
      modifies K, S
      ensures var w := Expanded(Work(Keyed(old(K[..]), key), old(S[..]), Pair(0, 0)), data, 521);
        K[..] == w.k && S[..] == w.s
    {
      hide Expanded, Keyed, Pos;
      LoadKey(key);
      ghost var w := Work(K[..], S[..], Pair(0, 0));
      var B, i := FillK(data, w);
      var x := 0;
      while x < 4
        invariant 0 <= x <= 4 && Expanding(w, B, data, i, 9 + 128 * x)
      {
        B, i := FillRow(data, x, B, i, w);
        x := x + 1;
      }
    }

    /** blowfish_setup, from the tables every key starts with. */
    method Setup(key: seq<bv8>, numRounds: int, origP: seq<bv32>, origS: seq<bv32>) returns (status: Status)
      requires Valid() && |origP| == 18 && |origS| == SBOX
      modifies K, S
      ensures status == if |key| < 8 || |key| > 56 then InvalidKeySize
        else if numRounds != 0 && numRounds != 16 then InvalidRounds else OK
      ensures status != OK ==> K[..] == old(K[..]) && S[..] == old(S[..])
      ensures status == OK ==>
        var w := Expanded(Work(Keyed(origP, key), origS, Pair(0, 0)), None, 521); K[..] == w.k && S[..] == w.s
    {
      hide Expanded, Keyed;
      if |key| < 8 || |key| > 56 {
        return InvalidKeySize;
      }
      if numRounds != 0 && numRounds != 16 {
        return InvalidRounds;
      }
      Copy(K, origP);
      Copy(S, origS);
      Expand(key, None);
      return OK;
    }

    static method Copy(a: array<bv32>, s: seq<bv32>)
      requires a.Length == |s|
      modifies a
      ensures a[..] == s
    {
      var i := 0;
      while i < |s|
        invariant 0 <= i <= |s| && a[..i] == s[..i]
      {
        a[i] := s[i];
        i := i + 1;
      }
    }
  }

  datatype Status = OK | InvalidKeySize | InvalidRounds

  lemma PosZero(data: Option<seq<bv8>>)
    requires Salt(data)
    ensures data.Some? ==> Pos(0, |data.value|) == 0
  {
  }
}
