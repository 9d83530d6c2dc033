/** The byte layout of updates, process tokens and requests, as the C structures lie in memory on
    x86-64. */
module Wire {
  import opened Bytes
  import opened Tickets
  import opened Frames
  import opened Options

  const SIGNATURE: seq<bv8> := [0x80, 0x70, 0x60, 0x50, 0x40, 0x30, 0x20, 0x10]
  const HEADER: nat := 25   // signature, key update, record count
  const RECORD: nat := 24   // process ID, identifier, operation, two bytes of padding

  lemma SignatureNotZero()
    ensures SIGNATURE != Zeros(8)
  {
    assert SIGNATURE[0] != Zeros(8)[0];
  }

  // ----- updates

  /** A record as sent: the process ID is still a 32-bit word. */
  datatype Entry = Entry(pid: bv32, id: Id, op: bv16)

  function RecordOf(e: Entry): (r: Record) {
    Record(Signed(e.pid), e.id, e.op)
  }

  /** The enclave's buffer for one record; the padding is whatever was on its stack. */
  function EncodeUpdate(keyUpdate: Key, e: Entry, pad: bv16): (b: seq<bv8>)
    ensures |b| == HEADER + RECORD
  {
    SIGNATURE + keyUpdate + [1] + (Le32(e.pid) + e.id + Le16(e.op) + Le16(pad))
  }

  /** A buffer seen through citadel_update_header_t. */
  function SignatureOf(b: seq<bv8>): (s: seq<bv8>)
    requires |b| >= HEADER
    ensures |s| == 8
  {
    b[..8]
  }

  function KeyUpdateOf(b: seq<bv8>): (k: Key)
    requires |b| >= HEADER
  {
    b[8..24]
  }

  function CountOf(b: seq<bv8>): (n: bv8)
    requires |b| >= HEADER
  {
    b[24]
  }

  /** How often a loop up to an 8-bit count runs. */
  function Times(n: bv8): (r: nat) {
    if n == 0 then 0 else 1 + Times(n - 1)
  }

  function EntryAt(b: seq<bv8>, i: nat): (e: Entry)
    requires |b| >= HEADER + RECORD * (i + 1)
  {
    var r := b[HEADER + RECORD * i..HEADER + RECORD * (i + 1)];
    Entry(FromLe32(r[0..4]), r[4..20], FromLe16(r[20..22]))
  }

  predicate Fits(b: seq<bv8>) {
    |b| >= HEADER && |b| >= HEADER + RECORD * Times(CountOf(b))
  }

  function EntriesFrom(b: seq<bv8>, i: nat): (s: seq<Entry>)
    requires Fits(b) && i <= Times(CountOf(b))
    ensures |s| == Times(CountOf(b)) - i
    ensures forall j :: 0 <= j < |s| ==> s[j] == EntryAt(b, i + j)
    decreases Times(CountOf(b)) - i
  {
    if i == Times(CountOf(b)) then [] else [EntryAt(b, i)] + EntriesFrom(b, i + 1)
  }

  /** Records that lie within a buffer do not depend on what is behind it. */
  lemma EntriesWithin(b: seq<bv8>, rest: seq<bv8>)
    requires Fits(b)
    ensures Fits(b + rest) && CountOf(b + rest) == CountOf(b) && EntriesFrom(b + rest, 0) == EntriesFrom(b, 0)
  {
    hide EntriesFrom, Times;
    var c := b + rest;
    forall i | 0 <= i < Times(CountOf(b))
      ensures EntriesFrom(c, 0)[i] == EntriesFrom(b, 0)[i]
    {
      assert RECORD * (i + 1) <= RECORD * Times(CountOf(b));
      assert c[HEADER + RECORD * i..HEADER + RECORD * (i + 1)] == b[HEADER + RECORD * i..HEADER + RECORD * (i + 1)];
    }
  }

  /** A sent update, in a buffer with anything behind it, reads back as it was sent. */
  lemma UpdateRoundTrip(keyUpdate: Key, e: Entry, pad: bv16, rest: seq<bv8>)
    ensures var b := EncodeUpdate(keyUpdate, e, pad) + rest;
      && SignatureOf(b) == SIGNATURE && KeyUpdateOf(b) == keyUpdate && CountOf(b) == 1
      && Fits(b) && EntriesFrom(b, 0) == [e]
  {
    var b := EncodeUpdate(keyUpdate, e, pad) + rest;
    assert b[..8] == SIGNATURE;
    assert b[8..24] == keyUpdate;
    assert b[24] == 1;
    assert Times(1) == 1;
    var r := b[HEADER..HEADER + RECORD];
    assert r == Le32(e.pid) + e.id + Le16(e.op) + Le16(pad);
    assert r[0..4] == Le32(e.pid) && r[4..20] == e.id && r[20..22] == Le16(e.op);
    Le32RoundTrip(e.pid);
    Le16RoundTrip(e.op);
    assert EntryAt(b, 0) == e;
  }

  /** Where the fields of an update lie. */
  lemma UpdateLayout(keyUpdate: Key, e: Entry, pad: bv16)
    ensures var b := EncodeUpdate(keyUpdate, e, pad);
      && b[0] == 0x80 && b[7] == 0x10 && b[8..24] == keyUpdate && b[24] == 1 && b[29..45] == e.id
      && (e.pid == 0x0403_0201 ==> b[25..29] == [1, 2, 3, 4]) && (e.op == 0x0201 ==> b[45..47] == [1, 2])
  {
    hide Le32, Le16;
    var b := EncodeUpdate(keyUpdate, e, pad);
    assert b[..8] == SIGNATURE && b[8..24] == keyUpdate && b[25..29] == Le32(e.pid) && b[29..45] == e.id && b[45..47] == Le16(e.op);
    LittleEndian();
  }

  /** The zeroed buffer that a failed decryption leaves: no signature, no key change, no record. */
  lemma ZeroUpdate(n: nat)
    requires n >= HEADER
    ensures var b := Zeros(n);
      SignatureOf(b) != SIGNATURE && KeyUpdateOf(b) == Zeros(KEY_LENGTH) && CountOf(b) == 0 && Fits(b) && EntriesFrom(b, 0) == []
  {
    var b := Zeros(n);
    assert b[..8] == Zeros(8);
    SignatureNotZero();
    assert b[8..24] == Zeros(KEY_LENGTH);
  }

  // ----- the update the kernel makes

  function Repeat(b: bv8): (s: seq<bv8>)
    ensures |s| == 16 && forall i :: 0 <= i < 16 ==> s[i] == b
  {
    [b, b, b, b, b, b, b, b, b, b, b, b, b, b, b, b]
  }

  /** Record bytes with zero padding. */
  function EncodeRecord(e: Entry): (b: seq<bv8>)
    ensures |b| == RECORD
  {
    Le32(e.pid) + e.id + Le16(e.op) + [0, 0]
  }

  const KERNEL_PID: bv32 := 13
  const KERNEL_RECORDS: nat := 5
  const KERNEL_KEY: Key := Repeat(6)

  function KernelRecords(n: nat): (b: seq<bv8>)
    ensures |b| == RECORD * n
  {
    if n == 0 then [] else KernelRecords(n - 1) + EncodeRecord(KernelEntry(n - 1))
  }

  /** Record `i` names process 13, an identifier made of one odd byte, and no operation. */
  function KernelEntry(i: nat): (e: Entry) {
    Entry(KERNEL_PID, Repeat(Odd(i)), 0)
  }

  function Odd(i: nat): (b: bv8) {
    if i == 0 then 1 else Odd(i - 1) + 2
  }

  /** generate_update: a constant update of five records. */
  function KernelUpdate(): (b: seq<bv8>)
    ensures |b| == HEADER + RECORD * KERNEL_RECORDS
  {
    SIGNATURE + KERNEL_KEY + [5] + KernelRecords(KERNEL_RECORDS)
  }

  lemma {:induction false} KernelRecordAt(n: nat, i: nat)
    requires i < n
    ensures KernelRecords(n)[RECORD * i..RECORD * (i + 1)] == EncodeRecord(KernelEntry(i))
  {
    hide EncodeRecord, KernelEntry;
    var before := KernelRecords(n - 1);
    if i < n - 1 {
      KernelRecordAt(n - 1, i);
      assert RECORD * (i + 1) <= RECORD * (n - 1);
      assert KernelRecords(n)[RECORD * i..RECORD * (i + 1)] == before[RECORD * i..RECORD * (i + 1)];
    }
  }

  lemma RecordRoundTrip(e: Entry)
    ensures var r := EncodeRecord(e); Entry(FromLe32(r[0..4]), r[4..20], FromLe16(r[20..22])) == e
  {
    var r := EncodeRecord(e);
    assert r[0..4] == Le32(e.pid) && r[4..20] == e.id && r[20..22] == Le16(e.op);
    Le32RoundTrip(e.pid);
    Le16RoundTrip(e.op);
  }

  /** Fed back to the kernel it changes the key, and all its records are without an operation. */
  lemma KernelUpdateReads(rest: seq<bv8>)
    ensures var b := KernelUpdate() + rest;
      && SignatureOf(b) == SIGNATURE && KeyUpdateOf(b) == KERNEL_KEY && CountOf(b) == 5
      && Fits(b) && |EntriesFrom(b, 0)| == KERNEL_RECORDS
      && forall i :: 0 <= i < KERNEL_RECORDS ==> EntriesFrom(b, 0)[i] == KernelEntry(i)
  {
    hide EntryAt, KernelRecords, EntriesFrom;
    var b := KernelUpdate() + rest;
    assert b[..8] == SIGNATURE && b[8..24] == KERNEL_KEY && b[24] == 5;
    FiveTimes();
    forall i | 0 <= i < KERNEL_RECORDS
      ensures EntriesFrom(b, 0)[i] == KernelEntry(i)
    {
      KernelEntryAt(rest, i);
    }
  }

  lemma KernelEntryAt(rest: seq<bv8>, i: nat)
    requires i < KERNEL_RECORDS
    ensures EntryAt(KernelUpdate() + rest, i) == KernelEntry(i)
  {
    hide EncodeRecord, KernelRecords, KernelEntry, FromLe32, FromLe16;
    var b, records := KernelUpdate() + rest, KernelRecords(KERNEL_RECORDS);
    KernelRecordAt(KERNEL_RECORDS, i);
    assert b[HEADER..HEADER + |records|] == records;
    assert b[HEADER + RECORD * i..HEADER + RECORD * (i + 1)] == records[RECORD * i..RECORD * (i + 1)];
    RecordRoundTrip(KernelEntry(i));
  }

  lemma FiveTimes()
    ensures Times(5) == 5 && Times(3) == 3 && Times(1) == 1 && Times(0) == 0
  {
    assert Times(1) == 1;
    assert Times(2) == 2;
    assert Times(3) == 3;
    assert Times(4) == 4;
  }

  lemma ManyTimes(n: bv8)
    ensures Times(n) <= 1 <==> n == 0 || n == 1
  {
    if n != 0 && n != 1 {
      assert n - 1 != 0;
      assert Times(n) == 1 + Times(n - 1);
    }
  }

  lemma KernelKeyNotZero()
    ensures KERNEL_KEY != Zeros(16)
  {
    assert KERNEL_KEY[0] != Zeros(16)[0];
  }

  // ----- process tokens

  const TOKEN: nat := 36         // signature, process ID, nonce, identifier
  const SEALED_TOKEN: nat := TOKEN + OVERHEAD

  datatype Token = Token(pid: bv32, nonce: seq<bv8>, id: Id)

  function EncodeToken(t: Token): (b: seq<bv8>)
    requires |t.nonce| == 8
    ensures |b| == TOKEN
  {
    SIGNATURE + Le32(t.pid) + t.nonce + t.id
  }

  function DecodeToken(b: seq<bv8>): (t: Option<Token>)
    requires |b| == TOKEN
  {
    if b[..8] != SIGNATURE then None
    else Some(Token(FromLe32(b[8..12]), b[12..20], b[20..36]))
  }

  lemma TokenRoundTrip(t: Token)
    requires |t.nonce| == 8
    ensures DecodeToken(EncodeToken(t)) == Some(t)
  {
    var b := EncodeToken(t);
    assert b[..8] == SIGNATURE && b[8..12] == Le32(t.pid) && b[12..20] == t.nonce && b[20..36] == t.id;
    Le32RoundTrip(t.pid);
  }

  /** Where the fields of a token lie. */
  lemma TokenLayout(t: Token)
    requires |t.nonce| == 8
    ensures var b := EncodeToken(t);
      && b[0] == 0x80 && b[7] == 0x10 && b[12..20] == t.nonce && b[20..36] == t.id
      && (t.pid == 0x0403_0201 ==> b[8..12] == [1, 2, 3, 4])
  {
    hide Le32;
    var b := EncodeToken(t);
    assert b[..8] == SIGNATURE && b[8..12] == Le32(t.pid) && b[12..20] == t.nonce && b[20..36] == t.id;
    LittleEndian();
  }

  lemma ZeroToken()
    ensures DecodeToken(Zeros(TOKEN)) == None
  {
    assert Zeros(TOKEN)[..8] == Zeros(8);
    SignatureNotZero();
  }

  /** What an update header and record would be in the place of a token: the token has the same
      signature, its process ID, its nonce and four identifier bytes lie where a key update does,
      the fifth identifier byte where the count does. */
  function TokenKey(t: Token): (k: Key)
    requires |t.nonce| == 8
  {
    Le32(t.pid) + t.nonce + t.id[..4]
  }

  function TokenEntry(t: Token): (e: Entry) {
    Entry(FromLe32(t.id[5..9]), t.id[9..16] + Zeros(9), 0)
  }

  /** A token read as an update, in the kernel's buffer. Its records lie within the buffer exactly when
      it announces at most one. */
  lemma TokenAsUpdate(t: Token)
    requires |t.nonce| == 8
    ensures var b := EncodeToken(t) + Zeros(OVERHEAD);
      && SignatureOf(b) == SIGNATURE && KeyUpdateOf(b) == TokenKey(t) && CountOf(b) == t.id[4]
      && (Fits(b) <==> t.id[4] == 0 || t.id[4] == 1)
      && (t.id[4] == 0 ==> EntriesFrom(b, 0) == [])
      && (t.id[4] == 1 ==> EntriesFrom(b, 0) == [TokenEntry(t)])
      && EntryAt(b, 0) == TokenEntry(t)
  {
    var b := EncodeToken(t) + Zeros(OVERHEAD);
    FiveTimes();
    ManyTimes(t.id[4]);
    assert b[..8] == SIGNATURE;
    assert b[8..24] == TokenKey(t);
    assert b[24] == t.id[4];
    TokenRecord(t);
  }

  lemma TokenRecord(t: Token)
    requires |t.nonce| == 8
    ensures EntryAt(EncodeToken(t) + Zeros(OVERHEAD), 0) == TokenEntry(t)
  {
    var b := EncodeToken(t) + Zeros(OVERHEAD);
    assert b[20..36] == t.id && b[36..] == Zeros(OVERHEAD);
    var r := b[HEADER..HEADER + RECORD];
    assert r == t.id[5..16] + Zeros(13);
    TokenFields(r, t.id);
    ZeroOperation();
  }

  lemma TokenFields(r: seq<bv8>, id: Id)
    requires r == id[5..16] + Zeros(13)
    ensures r[0..4] == id[5..9] && r[4..20] == id[9..16] + Zeros(9) && r[20..22] == [0, 0]
  {
    assert r[4..11] == id[9..16];
    assert r[11..20] == Zeros(9);
    assert r[4..20] == r[4..11] + r[11..20];
  }

  lemma ZeroOperation()
    ensures FromLe16([0, 0]) == 0
  {
    Le16RoundTrip(0);
    assert Le16(0) == [0, 0];
  }

  /** A token that announces three records makes the reader take the third from behind its buffer. */
  lemma TokenOverrun(t: Token, e: Entry)
    requires |t.nonce| == 8 && t.id[4] == 3
    ensures var b := EncodeToken(t) + Zeros(OVERHEAD);
      var c := b + (Zeros(9) + EncodeRecord(e));
      !Fits(b) && Fits(c) && |EntriesFrom(c, 0)| == 3 && EntriesFrom(c, 0)[2] == e
  {
    hide EncodeToken, EncodeRecord, EntriesFrom, Times;
    var b := EncodeToken(t) + Zeros(OVERHEAD);
    var c := b + (Zeros(9) + EncodeRecord(e));
    TokenAsUpdate(t);
    FiveTimes();
    assert c[24] == b[24] == 3;
    assert c[HEADER + RECORD * 2..HEADER + RECORD * 3] == EncodeRecord(e);
    RecordRoundTrip(e);
  }

  /** Only a token that starts with zeros leaves the key alone. */
  lemma TokenKeyZero(t: Token)
    requires |t.nonce| == 8
    ensures TokenKey(t) == Zeros(16) <==> t.pid == 0 && t.nonce == Zeros(8) && t.id[..4] == Zeros(4)
  {
    var k := TokenKey(t);
    Le32RoundTrip(t.pid);
    Le32RoundTrip(0);
    assert Le32(0) == Zeros(4);
    assert k[0..4] == Le32(t.pid) && k[4..12] == t.nonce && k[12..16] == t.id[..4];
    if k == Zeros(16) {
      assert Zeros(16)[0..4] == Zeros(4) && Zeros(16)[4..12] == Zeros(8) && Zeros(16)[12..16] == Zeros(4);
    }
  }

  // ----- requests

  const REQUEST: nat := 90             // signature, operation, subject, sealed token
  const METADATA: nat := 4096
  const EXTENDED: nat := REQUEST + 2 + METADATA

  datatype Request = Request(op: bv16, subject: Id, token: seq<bv8>, extended: Option<Extension>)
  datatype Extension = Extension(translate: bool, success: bool, metadata: seq<bv8>)

  /** The size and signature checks of handle_request. */
  function ParseRequest(b: seq<bv8>): (r: Option<Request>)
    ensures r.Some? ==> |r.value.token| == SEALED_TOKEN
    ensures r.Some? && r.value.extended.Some? ==> |r.value.extended.value.metadata| == METADATA
  {
    if (|b| != REQUEST && |b| != EXTENDED) || b[..8] != SIGNATURE then None
    else
      var ext := if |b| == REQUEST then None else Some(Extension(b[REQUEST] != 0, b[REQUEST + 1] != 0, b[REQUEST + 2..]));
      Some(Request(FromLe16(b[8..10]), b[10..26], b[26..REQUEST], ext))
  }

  function Flag(b: bool): (r: bv8) {
    if b then 1 else 0
  }

  /** The structures a client fills in: the short form, or the long one with the two flags of a path that
      is to be translated and the metadata. */
  function EncodeRequest(r: Request): (b: seq<bv8>)
    requires |r.token| == SEALED_TOKEN && (r.extended.Some? ==> |r.extended.value.metadata| == METADATA)
    ensures |b| == if r.extended.Some? then EXTENDED else REQUEST
  {
    var short := SIGNATURE + Le16(r.op) + r.subject + r.token;
    match r.extended
    case None => short
    case Some(x) => short + [Flag(x.translate), Flag(x.success)] + x.metadata
  }

  lemma RequestRoundTrip(r: Request)
    requires |r.token| == SEALED_TOKEN && (r.extended.Some? ==> |r.extended.value.metadata| == METADATA)
    ensures ParseRequest(EncodeRequest(r)) == Some(r)
  {
    hide Le16, FromLe16;
    var b := EncodeRequest(r);
    assert b[..8] == SIGNATURE && b[8..10] == Le16(r.op) && b[10..26] == r.subject && b[26..REQUEST] == r.token;
    Le16RoundTrip(r.op);
    if r.extended.Some? {
      assert b[REQUEST + 2..] == r.extended.value.metadata;
    }
  }

  /** A buffer is accepted exactly when it is an encoded request, but for the values of flags that are
      set. */
  lemma RequestExact(b: seq<bv8>)
    ensures ParseRequest(b).Some? <==> (|b| == REQUEST || |b| == EXTENDED) && b[..8] == SIGNATURE
    ensures ParseRequest(b).Some? ==>
      var e := EncodeRequest(ParseRequest(b).value);
      && |e| == |b| && e[..REQUEST] == b[..REQUEST]
      && (|b| == EXTENDED ==>
        && e[REQUEST + 2..] == b[REQUEST + 2..]
        && (forall i :: REQUEST <= i < REQUEST + 2 ==> (e[i] == 0 <==> b[i] == 0)))
  {
    if ParseRequest(b).Some? {
      var r := ParseRequest(b).value;
      var e := EncodeRequest(r);
      Le16Back(b[8..10]);
      assert b[..REQUEST] == b[..8] + b[8..10] + b[10..26] + b[26..REQUEST];
      assert e[..REQUEST] == SIGNATURE + Le16(r.op) + r.subject + r.token;
    }
  }
}
