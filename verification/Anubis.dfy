/** The Anubis block cipher. A 32-bit word is its four bytes, the most significant first, so that the
    shifts and masks by which the code picks bytes are fields. The S-box is any involution, the doubling
    any linear map and the addition of bytes any operation with the laws of exclusive or; the tables
    are made from them as the code's tables are. */
module Anubis {
  import opened Options

  // ----- bytes

  /** What the tables are made from: the S-box, the doubling, and the addition of bytes. */
  datatype Box = Box(s: bv8 -> bv8, d: bv8 -> bv8, plus: (bv8, bv8) -> bv8)

  function Plus(x: Box, a: bv8, b: bv8): (r: bv8) {
    x.plus(a, b)
  }

  /** The laws of exclusive or that the cipher rests on, for three bytes and for all. */
  predicate LawsAt(x: Box, a: bv8, b: bv8, c: bv8) {
    && Plus(x, a, b) == Plus(x, b, a)
    && Plus(x, Plus(x, a, b), c) == Plus(x, a, Plus(x, b, c))
    && Plus(x, a, a) == 0 && Plus(x, a, 0) == a
  }

  ghost predicate Additive(x: Box) {
    forall a: bv8, b: bv8, c: bv8 :: LawsAt(x, a, b, c)
  }

  lemma PlusSwap(x: Box, a: bv8, b: bv8)
    requires Additive(x)
    ensures Plus(x, a, b) == Plus(x, b, a)
  {
    assert LawsAt(x, a, b, 0);
  }

  lemma PlusAssoc(x: Box, a: bv8, b: bv8, c: bv8)
    requires Additive(x)
    ensures Plus(x, Plus(x, a, b), c) == Plus(x, a, Plus(x, b, c))
  {
    assert LawsAt(x, a, b, c);
  }

  lemma PlusSelf(x: Box, a: bv8)
    requires Additive(x)
    ensures Plus(x, a, a) == 0 && Plus(x, a, 0) == a && Plus(x, 0, a) == a
  {
    assert LawsAt(x, a, 0, 0);
  }

  /** (a + b) + (c + e) == (a + c) + (b + e) */
  lemma PlusMiddle(x: Box, a: bv8, b: bv8, c: bv8, e: bv8)
    requires Additive(x)
    ensures Plus(x, Plus(x, a, b), Plus(x, c, e)) == Plus(x, Plus(x, a, c), Plus(x, b, e))
  {
    hide Plus, Additive;
    PlusAssoc(x, a, b, Plus(x, c, e));
    PlusAssoc(x, b, c, e);
    PlusSwap(x, b, c);
    PlusAssoc(x, c, b, e);
    PlusAssoc(x, a, c, Plus(x, b, e));
  }

  function Sub(x: Box, a: bv8): (r: bv8) {
    x.s(a)
  }

  function Two(x: Box, a: bv8): (r: bv8) {
    x.d(a)
  }

  ghost predicate Involutive(x: Box) {
    forall a: bv8 :: Sub(x, Sub(x, a)) == a
  }

  predicate LinearAt(x: Box, a: bv8, b: bv8) {
    Two(x, Plus(x, a, b)) == Plus(x, Two(x, a), Two(x, b))
  }

  ghost predicate Linear(x: Box) {
    forall a: bv8, b: bv8 :: LinearAt(x, a, b)
  }

  ghost predicate Field(x: Box) {
    Additive(x) && Linear(x)
  }

  lemma TwoSum(x: Box, a: bv8, b: bv8)
    requires Field(x)
    ensures Two(x, Plus(x, a, b)) == Plus(x, Two(x, a), Two(x, b))
  {
    hide Two, Plus, Additive;
    assert LinearAt(x, a, b);
  }

  lemma TwoZero(x: Box)
    requires Field(x)
    ensures Two(x, 0) == 0
  {
    hide Two, Additive, Linear;
    TwoSum(x, 0, 0);
    PlusSelf(x, 0);
    PlusSelf(x, Two(x, 0));
  }

  function Four(x: Box, a: bv8): (r: bv8) {
    Two(x, Two(x, a))
  }

  function Six(x: Box, a: bv8): (r: bv8) {
    Plus(x, Four(x, a), Two(x, a))
  }

  // ----- the code's own bytes

  function ExclusiveOr(a: bv8, b: bv8): (r: bv8) {
    a ^ b
  }

  lemma XorSwap(a: bv8, b: bv8)
    ensures ExclusiveOr(a, b) == ExclusiveOr(b, a)
  {
  }

  lemma XorAssociates(a: bv8, b: bv8, c: bv8)
    ensures ExclusiveOr(ExclusiveOr(a, b), c) == ExclusiveOr(a, ExclusiveOr(b, c))
  {
  }

  lemma XorSelf(a: bv8)
    ensures ExclusiveOr(a, a) == 0 && ExclusiveOr(a, 0) == a
  {
  }

  /** The code adds bytes by exclusive or. */
  lemma XorIsAdditive(s: bv8 -> bv8, d: bv8 -> bv8)
    ensures Additive(Box(s, d, ExclusiveOr))
  {
    hide ExclusiveOr;
    var x := Box(s, d, ExclusiveOr);
    forall a: bv8, b: bv8, c: bv8
      ensures LawsAt(x, a, b, c)
    {
      XorSwap(a, b);
      XorAssociates(a, b, c);
      XorSelf(a);
    }
  }

  predicate Overflows(a: bv8) {
    a & 0x80 != 0
  }

  function Shifted(a: bv8): (r: bv8) {
    a << 1
  }

  /** The doubling of the code's tables: in the field of 256 elements, modulo x^8 + x^4 + x^3 + x^2 + 1. */
  function Doubled(a: bv8): (r: bv8) {
    if Overflows(a) then ExclusiveOr(Shifted(a), 0x1D) else Shifted(a)
  }

  lemma ShiftedSum(a: bv8, b: bv8)
    ensures Shifted(ExclusiveOr(a, b)) == ExclusiveOr(Shifted(a), Shifted(b))
    ensures Overflows(ExclusiveOr(a, b)) <==> Overflows(a) != Overflows(b)
  {
  }

  lemma DoubledSum(a: bv8, b: bv8)
    ensures Doubled(ExclusiveOr(a, b)) == ExclusiveOr(Doubled(a), Doubled(b))
  {
    hide Shifted, Overflows, ExclusiveOr;
    ShiftedSum(a, b);
    var p, q, m: bv8 := Shifted(a), Shifted(b), 0x1D;
    XorAssociates(p, q, m);
    XorSwap(q, m);
    XorAssociates(p, m, q);
    XorAssociates(ExclusiveOr(p, m), m, q);
    XorAssociates(p, m, m);
    XorSelf(m);
    XorSelf(p);
  }

  /** The code's own bytes are a field in the sense of this module. */
  lemma CodeIsField(s: bv8 -> bv8)
    ensures Field(Box(s, Doubled, ExclusiveOr))
  {
    hide Additive, Doubled, ExclusiveOr;
    XorIsAdditive(s, Doubled);
    var x := Box(s, Doubled, ExclusiveOr);
    forall a: bv8, b: bv8
      ensures LinearAt(x, a, b)
    {
      DoubledSum(a, b);
    }
  }

  lemma FourSum(x: Box, a: bv8, b: bv8)
    requires Field(x)
    ensures Four(x, Plus(x, a, b)) == Plus(x, Four(x, a), Four(x, b))
  {
    hide Two, Plus, Linear, Additive;
    TwoSum(x, a, b);
    TwoSum(x, Two(x, a), Two(x, b));
  }

  // ----- words and rows

  datatype Word = Word(b0: bv8, b1: bv8, b2: bv8, b3: bv8)

  /** Four words: a block, or a round key. */
  datatype Row = Row(w0: Word, w1: Word, w2: Word, w3: Word)

  const ZERO: Word := Word(0, 0, 0, 0)

  function Add(x: Box, a: Word, b: Word): (r: Word) {
    Word(Plus(x, a.b0, b.b0), Plus(x, a.b1, b.b1), Plus(x, a.b2, b.b2), Plus(x, a.b3, b.b3))
  }

  function AddRow(x: Box, a: Row, b: Row): (r: Row) {
    Row(Add(x, a.w0, b.w0), Add(x, a.w1, b.w1), Add(x, a.w2, b.w2), Add(x, a.w3, b.w3))
  }

  lemma AddAssoc(x: Box, a: Word, b: Word, c: Word)
    requires Additive(x)
    ensures Add(x, Add(x, a, b), c) == Add(x, a, Add(x, b, c))
  {
    hide Plus, Additive, Linear;
    PlusAssoc(x, a.b0, b.b0, c.b0);
    PlusAssoc(x, a.b1, b.b1, c.b1);
    PlusAssoc(x, a.b2, b.b2, c.b2);
    PlusAssoc(x, a.b3, b.b3, c.b3);
  }

  lemma AddMiddle(x: Box, a: Word, b: Word, c: Word, e: Word)
    requires Additive(x)
    ensures Add(x, Add(x, a, b), Add(x, c, e)) == Add(x, Add(x, a, c), Add(x, b, e))
  {
    hide Plus, Additive, Linear;
    PlusMiddle(x, a.b0, b.b0, c.b0, e.b0);
    PlusMiddle(x, a.b1, b.b1, c.b1, e.b1);
    PlusMiddle(x, a.b2, b.b2, c.b2, e.b2);
    PlusMiddle(x, a.b3, b.b3, c.b3, e.b3);
  }

  lemma AddSelf(x: Box, a: Word)
    requires Additive(x)
    ensures Add(x, a, a) == ZERO && Add(x, a, ZERO) == a && Add(x, ZERO, a) == a
  {
    hide Plus, Additive, Linear;
    PlusSelf(x, a.b0);
    PlusSelf(x, a.b1);
    PlusSelf(x, a.b2);
    PlusSelf(x, a.b3);
  }

  lemma AddCancels(x: Box, a: Word, b: Word)
    requires Additive(x)
    ensures Add(x, Add(x, a, b), b) == a
  {
    hide Add, Additive, Linear;
    AddAssoc(x, a, b, b);
    AddSelf(x, b);
    AddSelf(x, a);
  }

  lemma AddRowCancels(x: Box, a: Row, b: Row)
    requires Additive(x)
    ensures AddRow(x, AddRow(x, a, b), b) == a
  {
    hide Add, Additive, Linear;
    AddCancels(x, a.w0, b.w0);
    AddCancels(x, a.w1, b.w1);
    AddCancels(x, a.w2, b.w2);
    AddCancels(x, a.w3, b.w3);
  }

  // ----- the diffusion layer

  /** Multiplication by the matrix of Hadamard form (1, 2, 4, 6). */
  function Theta(x: Box, w: Word): (r: Word) {
    Word(Plus(x, Plus(x, Plus(x, w.b0, Two(x, w.b1)), Four(x, w.b2)), Six(x, w.b3)),
         Plus(x, Plus(x, Plus(x, Two(x, w.b0), w.b1), Six(x, w.b2)), Four(x, w.b3)),
         Plus(x, Plus(x, Plus(x, Four(x, w.b0), Six(x, w.b1)), w.b2), Two(x, w.b3)),
         Plus(x, Plus(x, Plus(x, Six(x, w.b0), Four(x, w.b1)), Two(x, w.b2)), w.b3))
  }

  /** The parts of Theta that double and that quadruple. */
  function Twos(x: Box, w: Word): (r: Word) {
    var a, b := Two(x, Plus(x, w.b1, w.b3)), Two(x, Plus(x, w.b0, w.b2));
    Word(a, b, a, b)
  }

  function Fours(x: Box, w: Word): (r: Word) {
    var a, b := Four(x, Plus(x, w.b2, w.b3)), Four(x, Plus(x, w.b0, w.b1));
    Word(a, a, b, b)
  }

  lemma Regroup0(x: Box, a: bv8, b: bv8, c: bv8, e: bv8, f: bv8)
    requires Additive(x)
    ensures Plus(x, Plus(x, Plus(x, a, b), c), Plus(x, e, f)) == Plus(x, Plus(x, a, Plus(x, b, f)), Plus(x, c, e))
  {
    hide Plus, Additive, Linear;
    PlusSwap(x, e, f);
    PlusMiddle(x, Plus(x, a, b), c, f, e);
    PlusAssoc(x, a, b, f);
  }

  lemma Regroup1(x: Box, a: bv8, b: bv8, c: bv8, e: bv8, f: bv8)
    requires Additive(x)
    ensures Plus(x, Plus(x, Plus(x, b, a), Plus(x, e, f)), c) == Plus(x, Plus(x, a, Plus(x, b, f)), Plus(x, e, c))
  {
    hide Plus, Additive, Linear;
    PlusSwap(x, b, a);
    PlusSwap(x, e, f);
    PlusAssoc(x, Plus(x, a, b), f, e);
    PlusAssoc(x, a, b, f);
    PlusAssoc(x, Plus(x, a, Plus(x, b, f)), e, c);
  }

  lemma Regroup2(x: Box, a: bv8, b: bv8, c: bv8, e: bv8, f: bv8)
    requires Additive(x)
    ensures Plus(x, Plus(x, Plus(x, c, Plus(x, e, f)), a), b) == Plus(x, Plus(x, a, Plus(x, f, b)), Plus(x, c, e))
  {
    hide Plus, Additive, Linear;
    PlusAssoc(x, c, e, f);
    PlusAssoc(x, Plus(x, c, e), f, a);
    PlusAssoc(x, Plus(x, c, e), Plus(x, f, a), b);
    PlusSwap(x, f, a);
    PlusAssoc(x, a, f, b);
    PlusSwap(x, Plus(x, c, e), Plus(x, a, Plus(x, f, b)));
  }

  lemma Regroup3(x: Box, a: bv8, b: bv8, c: bv8, e: bv8, f: bv8)
    requires Additive(x)
    ensures Plus(x, Plus(x, Plus(x, Plus(x, e, f), c), b), a) == Plus(x, Plus(x, a, Plus(x, f, b)), Plus(x, e, c))
  {
    hide Plus, Additive, Linear;
    PlusAssoc(x, e, f, c);
    PlusSwap(x, f, c);
    PlusAssoc(x, e, c, f);
    PlusAssoc(x, Plus(x, e, c), f, b);
    PlusAssoc(x, Plus(x, e, c), Plus(x, f, b), a);
    PlusSwap(x, Plus(x, f, b), a);
    PlusSwap(x, Plus(x, e, c), Plus(x, a, Plus(x, f, b)));
  }

  lemma ThetaParts(x: Box, w: Word)
    requires Field(x)
    ensures Theta(x, w) == Add(x, Add(x, w, Twos(x, w)), Fours(x, w))
  {
    hide Plus, Additive, Two, Linear, Four;
    TwoSum(x, w.b1, w.b3);
    TwoSum(x, w.b0, w.b2);
    FourSum(x, w.b2, w.b3);
    FourSum(x, w.b0, w.b1);
    Regroup0(x, w.b0, Two(x, w.b1), Four(x, w.b2), Four(x, w.b3), Two(x, w.b3));
    Regroup1(x, w.b1, Two(x, w.b0), Four(x, w.b3), Four(x, w.b2), Two(x, w.b2));
    Regroup2(x, w.b2, Two(x, w.b3), Four(x, w.b0), Four(x, w.b1), Two(x, w.b1));
    Regroup3(x, w.b3, Two(x, w.b2), Four(x, w.b1), Four(x, w.b0), Two(x, w.b0));
  }

  lemma TwosLinear(x: Box, a: Word, b: Word)
    requires Field(x)
    ensures Twos(x, Add(x, a, b)) == Add(x, Twos(x, a), Twos(x, b))
    ensures Fours(x, Add(x, a, b)) == Add(x, Fours(x, a), Fours(x, b))
  {
    hide Plus, Additive, Two, Four, Linear;
    PlusMiddle(x, a.b1, b.b1, a.b3, b.b3);
    PlusMiddle(x, a.b0, b.b0, a.b2, b.b2);
    PlusMiddle(x, a.b2, b.b2, a.b3, b.b3);
    PlusMiddle(x, a.b0, b.b0, a.b1, b.b1);
    TwoSum(x, Plus(x, a.b1, a.b3), Plus(x, b.b1, b.b3));
    TwoSum(x, Plus(x, a.b0, a.b2), Plus(x, b.b0, b.b2));
    FourSum(x, Plus(x, a.b2, a.b3), Plus(x, b.b2, b.b3));
    FourSum(x, Plus(x, a.b0, a.b1), Plus(x, b.b0, b.b1));
  }

  lemma ThetaLinear(x: Box, a: Word, b: Word)
    requires Field(x)
    ensures Theta(x, Add(x, a, b)) == Add(x, Theta(x, a), Theta(x, b))
  {
    hide Add, Additive, Theta, Twos, Fours, Linear;
    ThetaParts(x, a);
    ThetaParts(x, b);
    ThetaParts(x, Add(x, a, b));
    TwosLinear(x, a, b);
    AddMiddle(x, a, b, Twos(x, a), Twos(x, b));
    AddMiddle(x, Add(x, a, Twos(x, a)), Add(x, b, Twos(x, b)), Fours(x, a), Fours(x, b));
  }

  /** The parts square to zero, and commute. */
  lemma PartsTwice(x: Box, w: Word)
    requires Field(x)
    ensures Twos(x, Twos(x, w)) == ZERO && Fours(x, Fours(x, w)) == ZERO
    ensures Twos(x, Fours(x, w)) == Fours(x, Twos(x, w))
  {
    hide Plus, Additive, Two, Linear;
    TwoZero(x);
    var a, b, c, e := Plus(x, w.b1, w.b3), Plus(x, w.b0, w.b2), Plus(x, w.b2, w.b3), Plus(x, w.b0, w.b1);
    PlusSelf(x, Two(x, a));
    PlusSelf(x, Two(x, b));
    PlusSelf(x, Four(x, c));
    PlusSelf(x, Four(x, e));
    FourSum(x, c, e);
    TwoSum(x, a, b);
    PlusSwap(x, c, e);
    PlusSwap(x, a, b);
    PlusSwap(x, Four(x, c), Four(x, e));
    PlusSwap(x, Two(x, a), Two(x, b));
    PlusMiddle(x, w.b0, w.b1, w.b2, w.b3);
    PlusMiddle(x, w.b0, w.b2, w.b1, w.b3);
  }

  /** Theta undoes itself: (1 + N)(1 + N) = 1 where N, the sum of the two parts, squares to zero. */
  lemma ThetaInvolutive(x: Box, w: Word)
    requires Field(x)
    ensures Theta(x, Theta(x, w)) == w
  {
    hide Add, Additive, Theta, Twos, Fours, Linear;
    var u, v := Twos(x, w), Fours(x, w);
    var t := Add(x, Add(x, w, u), v);
    ThetaParts(x, w);
    ThetaParts(x, t);
    PartsTwice(x, w);
    TwosLinear(x, Add(x, w, u), v);
    TwosLinear(x, w, u);
    var uv := Twos(x, v);
    AddSelf(x, u);
    AddSelf(x, Fours(x, w));
    assert Twos(x, t) == Add(x, u, uv) && Fours(x, t) == Add(x, Add(x, v, uv), ZERO);
    AddSelf(x, Add(x, v, uv));
    // ((w + u) + v) + (u + uv) + (v + uv) == w
    AddMiddle(x, Add(x, w, u), v, u, uv);
    AddCancels(x, w, u);
    AddAssoc(x, w, Add(x, v, uv), Add(x, v, uv));
    AddSelf(x, w);
  }

  // ----- the tables

  function T0(x: Box, a: bv8): (w: Word) {
    var v := Sub(x, a);
    Word(v, Two(x, v), Four(x, v), Six(x, v))
  }

  function T1(x: Box, a: bv8): (w: Word) {
    var v := Sub(x, a);
    Word(Two(x, v), v, Six(x, v), Four(x, v))
  }

  function T2(x: Box, a: bv8): (w: Word) {
    var v := Sub(x, a);
    Word(Four(x, v), Six(x, v), v, Two(x, v))
  }

  function T3(x: Box, a: bv8): (w: Word) {
    var v := Sub(x, a);
    Word(Six(x, v), Four(x, v), Two(x, v), v)
  }

  function T4(x: Box, a: bv8): (w: Word) {
    var v := Sub(x, a);
    Word(v, v, v, v)
  }

  function T5(x: Box, a: bv8): (w: Word) {
    Word(a, Two(x, a), Six(x, a), Two(x, Four(x, a)))
  }

  /** The first entries of the code's tables T0 to T4, whose S-box begins with 0xBA, and the second of T5. */
  lemma FirstEntries(s: bv8 -> bv8)
    requires s(0) == 0xBA
    ensures var x := Box(s, Doubled, ExclusiveOr);
      && T0(x, 0) == Word(0xBA, 0x69, 0xD2, 0xBB) && T1(x, 0) == Word(0x69, 0xBA, 0xBB, 0xD2)
      && T2(x, 0) == Word(0xD2, 0xBB, 0xBA, 0x69) && T3(x, 0) == Word(0xBB, 0xD2, 0x69, 0xBA)
      && T4(x, 0) == Word(0xBA, 0xBA, 0xBA, 0xBA) && T5(x, 1) == Word(1, 2, 6, 8)
  {
    assert Doubled(0xBA) == 0x69 && Doubled(0x69) == 0xD2 && ExclusiveOr(0xD2, 0x69) == 0xBB;
    assert Doubled(1) == 2 && Doubled(2) == 4 && Doubled(4) == 8 && ExclusiveOr(4, 2) == 6;
  }

  function Lookup(x: Box, a: bv8, b: bv8, c: bv8, e: bv8): (w: Word) {
    Add(x, Add(x, Add(x, T0(x, a), T1(x, b)), T2(x, c)), T3(x, e))
  }

  /** With the last round's masks only the diagonal of the tables is left. */
  function MaskedLookup(x: Box, a: bv8, b: bv8, c: bv8, e: bv8): (w: Word) {
    Add(x, Add(x, Add(x, Word(T0(x, a).b0, 0, 0, 0), Word(0, T1(x, b).b1, 0, 0)), Word(0, 0, T2(x, c).b2, 0)),
        Word(0, 0, 0, T3(x, e).b3))
  }

  // ----- the layers of a round

  function Gamma(x: Box, w: Word): (r: Word) {
    Word(Sub(x, w.b0), Sub(x, w.b1), Sub(x, w.b2), Sub(x, w.b3))
  }

  /** Substitution, then transposition of the four by four bytes. */
  function Shuffle(x: Box, r: Row): (q: Row) {
    Row(Gamma(x, Word(r.w0.b0, r.w1.b0, r.w2.b0, r.w3.b0)), Gamma(x, Word(r.w0.b1, r.w1.b1, r.w2.b1, r.w3.b1)),
        Gamma(x, Word(r.w0.b2, r.w1.b2, r.w2.b2, r.w3.b2)), Gamma(x, Word(r.w0.b3, r.w1.b3, r.w2.b3, r.w3.b3)))
  }

  function ThetaRow(x: Box, r: Row): (q: Row) {
    Row(Theta(x, r.w0), Theta(x, r.w1), Theta(x, r.w2), Theta(x, r.w3))
  }

  lemma LookupIsTheta(x: Box, a: bv8, b: bv8, c: bv8, e: bv8)
    requires Additive(x)
    ensures Lookup(x, a, b, c, e) == Theta(x, Gamma(x, Word(a, b, c, e)))
    ensures MaskedLookup(x, a, b, c, e) == Gamma(x, Word(a, b, c, e))
  {
    hide Plus, Additive, Two, Four, Six, Sub, Linear;
    var s := Gamma(x, Word(a, b, c, e));
    PlusSelf(x, s.b0);
    PlusSelf(x, s.b1);
    PlusSelf(x, s.b2);
    PlusSelf(x, s.b3);
    PlusSelf(x, 0);
  }

  lemma ShuffleInvolutive(x: Box, r: Row)
    requires Involutive(x)
    ensures Shuffle(x, Shuffle(x, r)) == r
  {
    hide Sub, Additive, Linear;
  }

  lemma ThetaRowLaws(x: Box, a: Row, b: Row)
    requires Field(x)
    ensures ThetaRow(x, AddRow(x, a, b)) == AddRow(x, ThetaRow(x, a), ThetaRow(x, b))
    ensures ThetaRow(x, ThetaRow(x, a)) == a
  {
    hide Theta, Add, Linear, Additive;
    ThetaLinear(x, a.w0, b.w0);
    ThetaLinear(x, a.w1, b.w1);
    ThetaLinear(x, a.w2, b.w2);
    ThetaLinear(x, a.w3, b.w3);
    ThetaInvolutive(x, a.w0);
    ThetaInvolutive(x, a.w1);
    ThetaInvolutive(x, a.w2);
    ThetaInvolutive(x, a.w3);
  }

  // ----- the cipher

  /** The state after `r` rounds. */
  function StateAt(x: Box, p: Row, ks: seq<Row>, r: nat): (s: Row)
    requires r < |ks|
  {
    if r == 0 then AddRow(x, p, ks[0])
    else AddRow(x, ThetaRow(x, Shuffle(x, StateAt(x, p, ks, r - 1))), ks[r])
  }

  /** |ks| - 2 full rounds and a last one without diffusion. */
  function Crypt(x: Box, p: Row, ks: seq<Row>): (c: Row)
    requires |ks| >= 2
  {
    AddRow(x, Shuffle(x, StateAt(x, p, ks, |ks| - 2)), ks[|ks| - 1])
  }

  function Inverted(x: Box, ks: seq<Row>): (r: seq<Row>)
    requires |ks| >= 2
    ensures |r| == |ks|
  {
    var n := |ks| - 1;
    [ks[n]] + seq(n - 1, i requires 0 <= i < n - 1 => ThetaRow(x, ks[n - 1 - i])) + [ks[0]]
  }

  lemma InvertedAt(x: Box, ks: seq<Row>, r: nat)
    requires |ks| >= 2 && r < |ks|
    ensures var n := |ks| - 1;
      Inverted(x, ks)[r] == if r == 0 then ks[n] else if r == n then ks[0] else ThetaRow(x, ks[n - r])
  {
  }

  /** Going back: after `r` rounds the inverse cipher has reached the shuffled state of the forward
      cipher `r` rounds before its end. */
  lemma {:induction false} Backwards(x: Box, p: Row, ks: seq<Row>, r: nat)
    requires Involutive(x) && Field(x) && |ks| >= 2 && r <= |ks| - 2
    ensures StateAt(x, Crypt(x, p, ks), Inverted(x, ks), r) == Shuffle(x, StateAt(x, p, ks, |ks| - 2 - r))
  {
    hide Inverted, AddRow, ThetaRow, Shuffle, Involutive, Linear, Additive;
    var n := |ks| - 1;
    InvertedAt(x, ks, r);
    if r == 0 {
      AddRowCancels(x, Shuffle(x, StateAt(x, p, ks, n - 1)), ks[n]);
    } else {
      Backwards(x, p, ks, r - 1);
      var a, k := StateAt(x, p, ks, n - r), ks[n - r];
      ShuffleInvolutive(x, a);
      ThetaRowLaws(x, a, k);
      var before := Shuffle(x, StateAt(x, p, ks, n - r - 1));
      assert a == AddRow(x, ThetaRow(x, before), k);
      AddRowCancels(x, ThetaRow(x, before), k);
      ThetaRowLaws(x, before, k);
    }
  }

  /** Decryption undoes encryption. */
  lemma DecryptUndoes(x: Box, p: Row, ks: seq<Row>)
    requires Involutive(x) && Field(x) && |ks| >= 2
    ensures Crypt(x, Crypt(x, p, ks), Inverted(x, ks)) == p
  {
    hide Inverted, AddRow, ThetaRow, Shuffle, Involutive, Linear, Additive;
    var n := |ks| - 1;
    Backwards(x, p, ks, n - 1);
    InvertedAt(x, ks, n);
    ShuffleInvolutive(x, StateAt(x, p, ks, 0));
    AddRowCancels(x, p, ks[0]);
  }

  lemma InvertedTwice(x: Box, ks: seq<Row>)
    requires Field(x) && |ks| >= 2
    ensures Inverted(x, Inverted(x, ks)) == ks
  {
    hide Inverted, ThetaRow, Additive, Linear;
    var js := Inverted(x, ks);
    forall r | 0 <= r < |ks|
      ensures Inverted(x, js)[r] == ks[r]
    {
      InvertedAt(x, js, r);
      InvertedAt(x, ks, |ks| - 1 - r);
      ThetaRowLaws(x, ks[r], ks[r]);
    }
  }

  /** ... and encryption undoes decryption. */
  lemma EncryptUndoes(x: Box, c: Row, ks: seq<Row>)
    requires Involutive(x) && Field(x) && |ks| >= 2
    ensures Crypt(x, Crypt(x, c, Inverted(x, ks)), ks) == c
  {
    hide Inverted, Additive, Linear;
    InvertedTwice(x, ks);
    DecryptUndoes(x, c, Inverted(x, ks));
  }

  // ----- as it runs

  /** Four words in an array. */
  function RowOf(a: array<Word>): (r: Row)
    requires a.Length == 4
    reads a
  {
    Row(a[0], a[1], a[2], a[3])
  }

  /** Big-endian words. */
  function WordAt(b: seq<bv8>, i: nat): (w: Word)
    requires 4 * i + 4 <= |b|
  {
    Word(b[4 * i], b[4 * i + 1], b[4 * i + 2], b[4 * i + 3])
  }

  function BlockOf(b: seq<bv8>): (r: Row)
    requires |b| == 16
  {
    Row(WordAt(b, 0), WordAt(b, 1), WordAt(b, 2), WordAt(b, 3))
  }

  function Bytes4(w: Word): (b: seq<bv8>) {
    [w.b0, w.b1, w.b2, w.b3]
  }

  function BytesOf(r: Row): (b: seq<bv8>)
    ensures |b| == 16
  {
    Bytes4(r.w0) + Bytes4(r.w1) + Bytes4(r.w2) + Bytes4(r.w3)
  }

  lemma BlockRoundTrip(r: Row, b: seq<bv8>)
    ensures BlockOf(BytesOf(r)) == r
    ensures |b| == 16 ==> BytesOf(BlockOf(b)) == b
  {
  }

  /** One full round, from `state` into `inter` and back. */
  method FullRound(x: Box, state: array<Word>, inter: array<Word>, k: Row)
    requires state.Length == 4 && inter.Length == 4 && state != inter && Additive(x)
    modifies state, inter
    ensures RowOf(state) == AddRow(x, ThetaRow(x, Shuffle(x, old(RowOf(state)))), k)
  {
    hide Lookup, Theta, Gamma, Add, Additive, Linear;
    ghost var s := RowOf(state);
    inter[0] := Add(x, Lookup(x, state[0].b0, state[1].b0, state[2].b0, state[3].b0), k.w0);
    inter[1] := Add(x, Lookup(x, state[0].b1, state[1].b1, state[2].b1, state[3].b1), k.w1);
    inter[2] := Add(x, Lookup(x, state[0].b2, state[1].b2, state[2].b2, state[3].b2), k.w2);
    inter[3] := Add(x, Lookup(x, state[0].b3, state[1].b3, state[2].b3, state[3].b3), k.w3);
    LookupIsTheta(x, s.w0.b0, s.w1.b0, s.w2.b0, s.w3.b0);
    LookupIsTheta(x, s.w0.b1, s.w1.b1, s.w2.b1, s.w3.b1);
    LookupIsTheta(x, s.w0.b2, s.w1.b2, s.w2.b2, s.w3.b2);
    LookupIsTheta(x, s.w0.b3, s.w1.b3, s.w2.b3, s.w3.b3);
    state[0], state[1], state[2], state[3] := inter[0], inter[1], inter[2], inter[3];
  }

  method LastRound(x: Box, state: array<Word>, inter: array<Word>, k: Row)
    requires state.Length == 4 && inter.Length == 4 && state != inter && Additive(x)
    modifies inter
    ensures RowOf(inter) == AddRow(x, Shuffle(x, RowOf(state)), k)
  {
    hide MaskedLookup, Gamma, Add, Additive, Linear;
    inter[0] := Add(x, MaskedLookup(x, state[0].b0, state[1].b0, state[2].b0, state[3].b0), k.w0);
    inter[1] := Add(x, MaskedLookup(x, state[0].b1, state[1].b1, state[2].b1, state[3].b1), k.w1);
    inter[2] := Add(x, MaskedLookup(x, state[0].b2, state[1].b2, state[2].b2, state[3].b2), k.w2);
    inter[3] := Add(x, MaskedLookup(x, state[0].b3, state[1].b3, state[2].b3, state[3].b3), k.w3);
    LookupIsTheta(x, state[0].b0, state[1].b0, state[2].b0, state[3].b0);
    LookupIsTheta(x, state[0].b1, state[1].b1, state[2].b1, state[3].b1);
    LookupIsTheta(x, state[0].b2, state[1].b2, state[2].b2, state[3].b2);
    LookupIsTheta(x, state[0].b3, state[1].b3, state[2].b3, state[3].b3);
  }

  /** anubis_crypt. */
  method AnubisCrypt(x: Box, plaintext: seq<bv8>, roundKey: seq<Row>, rounds: nat) returns (ciphertext: seq<bv8>)
    requires |plaintext| == 16 && 1 <= rounds < |roundKey| && Additive(x)
    ensures ciphertext == BytesOf(Crypt(x, BlockOf(plaintext), roundKey[..rounds + 1]))
  {
    hide AddRow, ThetaRow, Shuffle, Additive, Linear;
    var state, inter := new Word[4](_ => ZERO), new Word[4](_ => ZERO);
    ghost var p, ks := BlockOf(plaintext), roundKey[..rounds + 1];
    LoadBlock(x, plaintext, roundKey[0], state);
    var r := 1;
    while r < rounds
      invariant 1 <= r <= rounds
      invariant RowOf(state) == StateAt(x, p, ks, r - 1)
    {
      FullRound(x, state, inter, roundKey[r]);
      r := r + 1;
    }
    LastRound(x, state, inter, roundKey[rounds]);
    ciphertext := StoreBlock(inter);
  }

  function Part(r: Row, i: nat): (w: Word) {
    if i == 0 then r.w0 else if i == 1 then r.w1 else if i == 2 then r.w2 else r.w3
  }

  /** Bytes to words, and the first round key. */
  method LoadBlock(x: Box, plaintext: seq<bv8>, k: Row, state: array<Word>)
    requires |plaintext| == 16 && state.Length == 4
    modifies state
    ensures RowOf(state) == AddRow(x, BlockOf(plaintext), k)
  {
    var i, pos := 0, 0;
    while i < 4
      invariant 0 <= i <= 4 && pos == 4 * i
      invariant forall j :: 0 <= j < i ==> state[j] == Add(x, WordAt(plaintext, j), Part(k, j))
    {
      state[i] := Add(x, Word(plaintext[pos], plaintext[pos + 1], plaintext[pos + 2], plaintext[pos + 3]), Part(k, i));
      i, pos := i + 1, pos + 4;
    }
  }

  /** Words to bytes. */
  method StoreBlock(inter: array<Word>) returns (ciphertext: seq<bv8>)
    requires inter.Length == 4
    ensures ciphertext == BytesOf(RowOf(inter))
  {
    var out := new bv8[16](_ => 0);
    var i, pos := 0, 0;
    while i < 4
      invariant 0 <= i <= 4 && pos == 4 * i
      invariant forall j :: 0 <= j < i ==> WordAt(out[..], j) == inter[j]
    {
      var w := inter[i];
      out[pos], out[pos + 1], out[pos + 2], out[pos + 3] := w.b0, w.b1, w.b2, w.b3;
      i, pos := i + 1, pos + 4;
    }
    ciphertext := out[..];
    BlockRoundTrip(RowOf(inter), ciphertext);
  }

  // ----- the key schedule

  function Pick(w: Word, m: nat): (b: bv8) {
    if m == 0 then w.b0 else if m == 1 then w.b1 else if m == 2 then w.b2 else w.b3
  }

  /** The diagonal of four lookups in T5: multiplication by 1, 2, 6 and 8. */
  function Scale(x: Box, w: Word): (r: Word) {
    Word(T5(x, w.b0).b0, T5(x, w.b1).b1, T5(x, w.b2).b2, T5(x, w.b3).b3)
  }

  /** A round key word by Horner's rule, from key word `i` on. */
  function Horner(x: Box, kappa: seq<Word>, m: nat, i: nat): (w: Word)
    requires i < |kappa|
    decreases |kappa| - i
  {
    if i == |kappa| - 1 then T4(x, Pick(kappa[i], m))
    else Add(x, T4(x, Pick(kappa[i], m)), Scale(x, Horner(x, kappa, m, i + 1)))
  }

  function RoundKey(x: Box, kappa: seq<Word>): (k: Row)
    requires kappa != []
  {
    Row(Horner(x, kappa, 0, 0), Horner(x, kappa, 1, 0), Horner(x, kappa, 2, 0), Horner(x, kappa, 3, 0))
  }

  /** The tables U of the other form of the code: entry `i` is T4 scaled `i` times. */
  function U(x: Box, i: nat, a: bv8): (w: Word) {
    if i == 0 then T4(x, a) else Scale(x, U(x, i - 1, a))
  }

  /** The sum of U[e + j] over the key words from `i` on. */
  function TableSum(x: Box, kappa: seq<Word>, m: nat, i: nat, e: nat): (w: Word)
    requires i <= |kappa|
    decreases |kappa| - i
  {
    if i == |kappa| then ZERO else Add(x, U(x, e, Pick(kappa[i], m)), TableSum(x, kappa, m, i + 1, e + 1))
  }

  lemma ScaleLinear(x: Box, a: Word, b: Word)
    requires Field(x)
    ensures Scale(x, Add(x, a, b)) == Add(x, Scale(x, a), Scale(x, b))
  {
    hide Plus, Additive, Two, Linear, Four;
    TwoSum(x, a.b1, b.b1);
    TwoSum(x, a.b2, b.b2);
    FourSum(x, a.b2, b.b2);
    PlusMiddle(x, Four(x, a.b2), Four(x, b.b2), Two(x, a.b2), Two(x, b.b2));
    FourSum(x, a.b3, b.b3);
    TwoSum(x, Four(x, a.b3), Four(x, b.b3));
  }

  lemma ScaleZero(x: Box)
    requires Field(x)
    ensures Scale(x, ZERO) == ZERO
  {
    hide Two, Plus, Linear, Additive;
    TwoZero(x);
    PlusSelf(x, 0);
  }

  lemma {:induction false} ScaleSum(x: Box, kappa: seq<Word>, m: nat, i: nat, e: nat)
    requires Field(x) && i <= |kappa|
    ensures Scale(x, TableSum(x, kappa, m, i, e)) == TableSum(x, kappa, m, i, e + 1)
    decreases |kappa| - i
  {
    hide Scale, Add, Linear, T4, Additive;
    if i == |kappa| {
      ScaleZero(x);
    } else {
      ScaleLinear(x, U(x, e, Pick(kappa[i], m)), TableSum(x, kappa, m, i + 1, e + 1));
      ScaleSum(x, kappa, m, i + 1, e + 1);
    }
  }

  /** Horner's rule computes what the large tables would. */
  lemma {:induction false} HornerIsTableSum(x: Box, kappa: seq<Word>, m: nat, i: nat)
    requires Field(x) && i < |kappa|
    ensures Horner(x, kappa, m, i) == TableSum(x, kappa, m, i, 0)
    decreases |kappa| - i
  {
    hide Scale, Add, Linear, T4, Additive;
    if i == |kappa| - 1 {
      AddSelf(x, T4(x, Pick(kappa[i], m)));
    } else {
      HornerIsTableSum(x, kappa, m, i + 1);
      ScaleSum(x, kappa, m, i + 1, 0);
    }
  }

  /** The index `k` before `i`, in a circle of `n`. */
  function Before(i: nat, k: nat, n: nat): (j: nat)
    requires i < n && k <= 3 <= n
    ensures j < n && (j + k == i || j + k == i + n)
  {
    if i >= k then i - k else i + n - k
  }

  function Evolved(x: Box, c: Word, kappa: seq<Word>, i: nat): (w: Word)
    requires 4 <= |kappa| && i < |kappa|
  {
    var n := |kappa|;
    var w := Lookup(x, kappa[i].b0, kappa[Before(i, 1, n)].b1, kappa[Before(i, 2, n)].b2, kappa[Before(i, 3, n)].b3);
    if i == 0 then Add(x, w, c) else w
  }

  function Evolve(x: Box, c: Word, kappa: seq<Word>): (r: seq<Word>)
    requires 4 <= |kappa|
    ensures |r| == |kappa| && forall i :: 0 <= i < |r| ==> r[i] == Evolved(x, c, kappa, i)
  {
    seq(|kappa|, i requires 0 <= i < |kappa| => Evolved(x, c, kappa, i))
  }

  function KeyWords(key: seq<bv8>): (r: seq<Word>)
    ensures |r| == |key| / 4 && forall i :: 0 <= i < |r| ==> r[i] == WordAt(key, i)
  {
    seq(|key| / 4, i requires 0 <= i < |key| / 4 => WordAt(key, i))
  }

  function KappaAt(x: Box, rc: seq<Word>, key: seq<bv8>, r: nat): (kappa: seq<Word>)
    requires |key| >= 16 && r <= |rc|
    ensures |kappa| == |key| / 4
  {
    if r == 0 then KeyWords(key) else Evolve(x, rc[r - 1], KappaAt(x, rc, key, r - 1))
  }

  lemma KappaFirst(x: Box, rc: seq<Word>, key: seq<bv8>)
    requires |key| >= 16
    ensures KappaAt(x, rc, key, 0) == KeyWords(key)
  {
  }

  lemma KappaNext(x: Box, rc: seq<Word>, key: seq<bv8>, r: nat)
    requires |key| >= 16 && r < |rc|
    ensures KappaAt(x, rc, key, r + 1) == Evolve(x, rc[r], KappaAt(x, rc, key, r))
  {
  }

  /** The round constant reaches word 0 alone. */
  lemma ConstantAlone(x: Box, c: Word, kappa: seq<Word>)
    requires Additive(x) && 4 <= |kappa|
    ensures var with, without := Evolve(x, c, kappa), Evolve(x, ZERO, kappa);
      with[0] == Add(x, without[0], c) && with[1..] == without[1..]
  {
    hide Lookup, Add, Additive;
    var n := |kappa|;
    AddSelf(x, Lookup(x, kappa[0].b0, kappa[Before(0, 1, n)].b1, kappa[Before(0, 2, n)].b2, kappa[Before(0, 3, n)].b3));
  }

  lemma SubInjective(x: Box, a: bv8, b: bv8)
    requires Involutive(x) && Sub(x, a) == Sub(x, b)
    ensures a == b
  {
    hide Sub;
    assert Sub(x, Sub(x, a)) == a && Sub(x, Sub(x, b)) == b;
  }

  /** A lookup determines the bytes looked up. */
  lemma LookupInjective(x: Box, v: Word, w: Word)
    requires Field(x) && Involutive(x) && Lookup(x, v.b0, v.b1, v.b2, v.b3) == Lookup(x, w.b0, w.b1, w.b2, w.b3)
    ensures v == w
  {
    hide Lookup, Theta, Additive, Linear, Involutive, Sub;
    LookupIsTheta(x, v.b0, v.b1, v.b2, v.b3);
    LookupIsTheta(x, w.b0, w.b1, w.b2, w.b3);
    ThetaInvolutive(x, Gamma(x, v));
    ThetaInvolutive(x, Gamma(x, w));
    SubInjective(x, v.b0, w.b0);
    SubInjective(x, v.b1, w.b1);
    SubInjective(x, v.b2, w.b2);
    SubInjective(x, v.b3, w.b3);
  }

  /** The bytes that go into word `i`. */
  function Diagonal(kappa: seq<Word>, i: nat): (w: Word)
    requires 4 <= |kappa| && i < |kappa|
  {
    var n := |kappa|;
    Word(kappa[i].b0, kappa[Before(i, 1, n)].b1, kappa[Before(i, 2, n)].b2, kappa[Before(i, 3, n)].b3)
  }

  lemma EvolvedDiagonal(x: Box, c: Word, a: seq<Word>, b: seq<Word>, i: nat)
    requires Field(x) && Involutive(x) && 4 <= |a| == |b| && i < |a|
    requires Evolved(x, c, a, i) == Evolved(x, c, b, i)
    ensures Diagonal(a, i) == Diagonal(b, i)
  {
    hide Lookup, Add, Additive, Linear, Involutive;
    var v, w := Diagonal(a, i), Diagonal(b, i);
    AddCancels(x, Lookup(x, v.b0, v.b1, v.b2, v.b3), c);
    AddCancels(x, Lookup(x, w.b0, w.b1, w.b2, w.b3), c);
    LookupInjective(x, v, w);
  }

  /** The index `k` after `j`, in a circle of `n`. */
  function Onward(j: nat, k: nat, n: nat): (i: nat)
    requires j < n && k <= 3 <= n
    ensures i < n && Before(i, k, n) == j
  {
    if j + k < n then j + k else j + k - n
  }

  /** The key state loses nothing from one round to the next. */
  lemma EvolveInjective(x: Box, c: Word, a: seq<Word>, b: seq<Word>)
    requires Field(x) && Involutive(x) && 4 <= |a| == |b| && Evolve(x, c, a) == Evolve(x, c, b)
    ensures a == b
  {
    hide Evolved, Additive, Linear, Involutive;
    var n := |a|;
    forall j | 0 <= j < n
      ensures a[j] == b[j]
    {
      forall k | 0 <= k <= 3
        ensures Diagonal(a, Onward(j, k, n)) == Diagonal(b, Onward(j, k, n))
      {
        var i := Onward(j, k, n);
        assert Evolve(x, c, a)[i] == Evolve(x, c, b)[i];
        EvolvedDiagonal(x, c, a, b, i);
      }
      assert Diagonal(a, Onward(j, 0, n)).b0 == a[j].b0 && Diagonal(b, Onward(j, 0, n)).b0 == b[j].b0;
      assert Diagonal(a, Onward(j, 1, n)).b1 == a[j].b1 && Diagonal(b, Onward(j, 1, n)).b1 == b[j].b1;
      assert Diagonal(a, Onward(j, 2, n)).b2 == a[j].b2 && Diagonal(b, Onward(j, 2, n)).b2 == b[j].b2;
      assert Diagonal(a, Onward(j, 3, n)).b3 == a[j].b3 && Diagonal(b, Onward(j, 3, n)).b3 == b[j].b3;
    }
  }

  /** In every round, different keys of one length have different key states. */
  lemma {:induction false} KappaInjective(x: Box, rc: seq<Word>, a: seq<bv8>, b: seq<bv8>, r: nat)
    requires Field(x) && Involutive(x) && 16 <= |a| == |b| && |a| % 4 == 0 && r <= |rc|
    ensures KappaAt(x, rc, a, r) == KappaAt(x, rc, b, r) <==> a == b
  {
    hide Evolve, Additive, Linear, Involutive;
    if KappaAt(x, rc, a, r) == KappaAt(x, rc, b, r) {
      if r == 0 {
        SameWords(a, b);
      } else {
        EvolveInjective(x, rc[r - 1], KappaAt(x, rc, a, r - 1), KappaAt(x, rc, b, r - 1));
        KappaInjective(x, rc, a, b, r - 1);
      }
    }
  }

  lemma SameWords(a: seq<bv8>, b: seq<bv8>)
    requires |a| == |b| && |a| % 4 == 0 && KeyWords(a) == KeyWords(b)
    ensures a == b
  {
    hide WordAt, Pick;
    forall i | 0 <= i < |a|
      ensures a[i] == b[i]
    {
      WordBytes(a, i);
      WordBytes(b, i);
      assert KeyWords(a)[i / 4] == KeyWords(b)[i / 4];
    }
  }

  lemma WordBytes(key: seq<bv8>, i: nat)
    requires i < |key| && |key| % 4 == 0
    ensures i / 4 < |key| / 4 && Pick(WordAt(key, i / 4), i % 4) == key[i]
  {
    assert i == 4 * (i / 4) + i % 4;
  }

  const MAX_N: nat := 10
  const MAX_ROUNDS: nat := 18

  predicate LegalKey(key: seq<bv8>) {
    |key| % 4 == 0 && 16 <= |key| <= 40
  }

  datatype Status = OK | InvalidKeySize | InvalidRounds

  /** The round keys of one key, for both directions. */
  class Schedule {
    const enc: array<Row>
    const dec: array<Row>
    var rounds: nat

    ghost predicate Valid()
      reads this
    {
      enc.Length == MAX_ROUNDS + 1 && dec.Length == MAX_ROUNDS + 1 && enc != dec
    }

    constructor ()
      ensures Valid() && fresh(enc) && fresh(dec)
    {
      var zero := Row(ZERO, ZERO, ZERO, ZERO);
      enc, dec, rounds := new Row[MAX_ROUNDS + 1](_ => zero), new Row[MAX_ROUNDS + 1](_ => zero), 0;
    }

    /** One round key: four Horner sums side by side. */
    static method MakeRoundKey(x: Box, kappa: array<Word>, n: nat) returns (k: Row)
      requires 1 <= n <= kappa.Length
      ensures k == RoundKey(x, kappa[..n])
    {
      hide Add, Additive, Scale, T4, Linear;
      ghost var s := kappa[..n];
      var last := kappa[n - 1];
      var k0, k1, k2, k3 := T4(x, last.b0), T4(x, last.b1), T4(x, last.b2), T4(x, last.b3);
      var i := n - 1;
      while i > 0
        invariant 0 <= i <= n - 1
        invariant k0 == Horner(x, s, 0, i) && k1 == Horner(x, s, 1, i)
        invariant k2 == Horner(x, s, 2, i) && k3 == Horner(x, s, 3, i)
      {
        i := i - 1;
        k0 := Add(x, T4(x, kappa[i].b0), Scale(x, k0));
        k1 := Add(x, T4(x, kappa[i].b1), Scale(x, k1));
        k2 := Add(x, T4(x, kappa[i].b2), Scale(x, k2));
        k3 := Add(x, T4(x, kappa[i].b3), Scale(x, k3));
      }
      k := Row(k0, k1, k2, k3);
    }

    /** One word of the next key state: the circular index is stepped down as the code does. */
    static method EvolveWord(x: Box, kappa: array<Word>, n: nat, i: nat, ghost c: Word) returns (w: Word)
      requires 4 <= n <= kappa.Length && i < n
      ensures (if i == 0 then Add(x, w, c) else w) == Evolved(x, c, kappa[..n], i)
    {
      hide Lookup, Add, Additive, Linear;
      var j := i;
      var a := kappa[j].b0;
      j := if j == 0 then n - 1 else j - 1;
      var b := kappa[j].b1;
      j := if j == 0 then n - 1 else j - 1;
      var d := kappa[j].b2;
      j := if j == 0 then n - 1 else j - 1;
      w := Lookup(x, a, b, d, kappa[j].b3);
    }

    /** The next key state. */
    static method NextKappa(x: Box, c: Word, kappa: array<Word>, inter: array<Word>, n: nat)
      requires 4 <= n <= kappa.Length && n <= inter.Length && kappa != inter
      modifies kappa, inter
      ensures kappa[..n] == Evolve(x, c, old(kappa[..n]))
    {
      hide Evolved, Add, Additive, Linear;
      ghost var s := kappa[..n];
      var i := 0;
      while i < n
        invariant 0 <= i <= n && kappa[..n] == s
        invariant forall k :: 0 <= k < i ==> (if k == 0 then Add(x, inter[k], c) else inter[k]) == Evolved(x, c, s, k)
      {
        inter[i] := EvolveWord(x, kappa, n, i, c);
        i := i + 1;
      }
      kappa[0] := Add(x, inter[0], c);
      i := 1;
      while i < n
        invariant 1 <= i <= n
        invariant forall k :: 0 <= k < i ==> kappa[k] == Evolved(x, c, s, k)
        invariant forall k :: 1 <= k < n ==> inter[k] == Evolved(x, c, s, k)
      {
        kappa[i] := inter[i];
        i := i + 1;
      }
    }

    static method LoadKey(key: seq<bv8>, kappa: array<Word>, n: nat)
      requires n == |key| / 4 <= kappa.Length
      modifies kappa
      ensures kappa[..n] == KeyWords(key)
    {
      var i, pos := 0, 0;
      while i < n
        invariant 0 <= i <= n && pos == 4 * i
        invariant forall j :: 0 <= j < i ==> kappa[j] == WordAt(key, j)
      {
        kappa[i] := Word(key[pos], key[pos + 1], key[pos + 2], key[pos + 3]);
        i, pos := i + 1, pos + 4;
      }
    }

    /** The forward round keys, up to round `r`. */
    ghost predicate Filled(x: Box, rc: seq<Word>, key: seq<bv8>, r: nat)
      requires Valid() && 16 <= |key| && r <= MAX_ROUNDS + 1 && |rc| >= MAX_ROUNDS
      reads this, enc
    {
      forall q :: 0 <= q < r ==> enc[q] == RoundKey(x, KappaAt(x, rc, key, q))
    }

    /** One round key, and the key state for the next. */
    method FillRound(x: Box, rc: seq<Word>, key: seq<bv8>, kappa: array<Word>, inter: array<Word>, n: nat, r: nat)
      requires Valid() && |rc| >= MAX_ROUNDS && 16 <= |key| && n == |key| / 4 <= kappa.Length == inter.Length
      requires r <= rounds <= MAX_ROUNDS && Filled(x, rc, key, r) && kappa[..n] == KappaAt(x, rc, key, r) && kappa != inter
      modifies enc, kappa, inter
      ensures Filled(x, rc, key, r + 1)
      ensures r < rounds ==> kappa[..n] == KappaAt(x, rc, key, r + 1)
    {
      hide RoundKey, Evolve, KappaAt;
      enc[r] := MakeRoundKey(x, kappa, n);
      if r < rounds {
        NextKappa(x, rc[r], kappa, inter, n);
        KappaNext(x, rc, key, r);
      }
    }

    /** The forward round keys. */
    method FillEnc(x: Box, rc: seq<Word>, key: seq<bv8>, n: nat)
      requires Valid() && |rc| >= MAX_ROUNDS && 16 <= |key| && n == |key| / 4 <= MAX_N && rounds == 8 + n
      modifies enc
      ensures Filled(x, rc, key, rounds + 1)
    {
      hide KappaAt, KeyWords, Filled;
      var kappa, inter := new Word[MAX_N](_ => ZERO), new Word[MAX_N](_ => ZERO);
      LoadKey(key, kappa, n);
      KappaFirst(x, rc, key);
      FilledNone(x, rc, key);
      var r := 0;
      while r <= rounds
        invariant 0 <= r <= rounds + 1 && Filled(x, rc, key, r)
        invariant r <= rounds ==> kappa[..n] == KappaAt(x, rc, key, r)
      {
        FillRound(x, rc, key, kappa, inter, n, r);
        r := r + 1;
      }
    }

    lemma FilledNone(x: Box, rc: seq<Word>, key: seq<bv8>)
      requires Valid() && 16 <= |key| && |rc| >= MAX_ROUNDS
      ensures Filled(x, rc, key, 0)
    {
    }

    /** The round keys for the other direction, last to first. */
    method FillDec(x: Box)
      requires Valid() && 1 <= rounds <= MAX_ROUNDS && Involutive(x) && Additive(x)
      modifies dec
      ensures dec[..rounds + 1] == Inverted(x, enc[..rounds + 1])
    {
      hide ThetaRow, Inverted, Additive, Linear;
      ghost var ks := enc[..rounds + 1];
      dec[0] := enc[rounds];
      dec[rounds] := enc[0];
      var r := 1;
      while r < rounds
        invariant 1 <= r <= rounds
        invariant dec[0] == ks[rounds] && dec[rounds] == ks[0]
        invariant forall q :: 1 <= q < r ==> dec[q] == ThetaRow(x, ks[rounds - q])
      {
        dec[r] := InvertKey(x, enc[rounds - r]);
        r := r + 1;
      }
      forall q | 0 <= q <= rounds
        ensures dec[..rounds + 1][q] == Inverted(x, ks)[q]
      {
        InvertedAt(x, ks, q);
      }
    }

    /** The S-box in the tables is undone by the S-box in T4. */
    static method InvertKey(x: Box, k: Row) returns (r: Row)
      requires Involutive(x) && Additive(x)
      ensures r == ThetaRow(x, k)
    {
      hide Theta, Lookup, T4, Additive, Linear;
      var w0 := InvertWord(x, k.w0);
      var w1 := InvertWord(x, k.w1);
      var w2 := InvertWord(x, k.w2);
      var w3 := InvertWord(x, k.w3);
      r := Row(w0, w1, w2, w3);
    }

    static method InvertWord(x: Box, v: Word) returns (w: Word)
      requires Involutive(x) && Additive(x)
      ensures w == Theta(x, v)
    {
      hide Theta, Lookup, Sub, Additive, Linear;
      w := Lookup(x, T4(x, v.b0).b3, T4(x, v.b1).b3, T4(x, v.b2).b3, T4(x, v.b3).b3);
      LookupIsTheta(x, Sub(x, v.b0), Sub(x, v.b1), Sub(x, v.b2), Sub(x, v.b3));
    }

    /** anubis_setup. */
    method Setup(x: Box, rc: seq<Word>, key: seq<bv8>, numRounds: int) returns (status: Status)
      requires Valid() && Involutive(x) && Additive(x) && |rc| >= MAX_ROUNDS
      modifies this`rounds, enc, dec
      ensures status == if !LegalKey(key) then InvalidKeySize
        else if numRounds != 0 && numRounds != 8 + |key| / 4 then InvalidRounds else OK
      ensures status != OK ==> enc[..] == old(enc[..]) && dec[..] == old(dec[..])
      ensures status == OK ==>
        && rounds == 8 + |key| / 4 && 12 <= rounds <= MAX_ROUNDS
        && (forall r :: 0 <= r <= rounds ==> enc[r] == RoundKey(x, KappaAt(x, rc, key, r)))
        && dec[..rounds + 1] == Inverted(x, enc[..rounds + 1])
    {
      hide RoundKey, KappaAt, Inverted, Involutive, Additive, Linear;
      if |key| % 4 != 0 || |key| < 16 || |key| > 40 {
        return InvalidKeySize;
      }
      var n := |key| / 4;
      rounds := 8 + n;
      if numRounds != 0 && numRounds != rounds {
        return InvalidRounds;
      }
      FillEnc(x, rc, key, n);
      FillDec(x);
      return OK;
    }

    method EcbEncrypt(x: Box, pt: seq<bv8>) returns (ct: Option<seq<bv8>>)
      requires Valid() && |pt| == 16 && Additive(x)
      ensures ct == if 12 <= rounds <= MAX_ROUNDS then Some(BytesOf(Crypt(x, BlockOf(pt), enc[..rounds + 1]))) else None
    {
      hide Crypt, BytesOf, BlockOf, Additive;
      if rounds < 12 || rounds > MAX_ROUNDS {
        return None;
      }
      var c := AnubisCrypt(x, pt, enc[..], rounds);
      assert enc[..][..rounds + 1] == enc[..rounds + 1];
      return Some(c);
    }

    method EcbDecrypt(x: Box, ct: seq<bv8>) returns (pt: Option<seq<bv8>>)
      requires Valid() && |ct| == 16 && Additive(x)
      ensures pt == if 12 <= rounds <= MAX_ROUNDS then Some(BytesOf(Crypt(x, BlockOf(ct), dec[..rounds + 1]))) else None
    {
      hide Crypt, BytesOf, BlockOf, Additive;
      if rounds < 12 || rounds > MAX_ROUNDS {
        return None;
      }
      var p := AnubisCrypt(x, ct, dec[..], rounds);
      assert dec[..][..rounds + 1] == dec[..rounds + 1];
      return Some(p);
    }
  }

  lemma BlockUndone(x: Box, block: seq<bv8>, ks: seq<Row>)
    requires Involutive(x) && Field(x) && |ks| >= 2 && |block| == 16
    ensures BytesOf(Crypt(x, BlockOf(BytesOf(Crypt(x, BlockOf(block), ks))), Inverted(x, ks))) == block
    ensures BytesOf(Crypt(x, BlockOf(BytesOf(Crypt(x, BlockOf(block), Inverted(x, ks)))), ks)) == block
  {
    hide Inverted, Crypt, Involutive, Linear, BlockOf, BytesOf, Additive;
    BlockRoundTrip(Crypt(x, BlockOf(block), ks), block);
    BlockRoundTrip(Crypt(x, BlockOf(block), Inverted(x, ks)), block);
    DecryptUndoes(x, BlockOf(block), ks);
    EncryptUndoes(x, BlockOf(block), ks);
  }

  /** For every legal key, decrypting with the schedule set up for it undoes encrypting with it, and
      the other way round, on all blocks of bytes. */
  method SetupEncryptDecrypt(x: Box, rc: seq<Word>, key: seq<bv8>, block: seq<bv8>)
    returns (there: seq<bv8>, back: seq<bv8>, undone: seq<bv8>, again: seq<bv8>)
    requires Involutive(x) && Field(x) && |rc| >= MAX_ROUNDS && LegalKey(key) && |block| == 16
    ensures back == block && again == block
  {
    hide Inverted, Crypt, RoundKey, KappaAt, Involutive, Linear, BlockOf, BytesOf, Additive;
    var schedule := new Schedule();
    var status := schedule.Setup(x, rc, key, 0);
    ghost var ks := schedule.enc[..schedule.rounds + 1];
    var c := schedule.EcbEncrypt(x, block);
    there := c.value;
    c := schedule.EcbDecrypt(x, there);
    back := c.value;
    c := schedule.EcbDecrypt(x, block);
    undone := c.value;
    c := schedule.EcbEncrypt(x, undone);
    again := c.value;
    BlockUndone(x, block, ks);
  }
}
