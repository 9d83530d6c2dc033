/** The kernel's end of the protocol: the handshake, the key that every accepted message changes,
    and the updates and labels that arrive under it. */
module Lsm {
  import opened Bytes
  import opened Options
  import opened SearchTree
  import opened Tickets
  import opened TicketCache
  import opened Labels
  import opened Frames
  import opened Wire

  // ----- as functions

  /** The buffer an update is read from: zeroed, then overwritten if the frame opens. */
  function PlainBuffer(g: Gcm, key: Key, frame: seq<bv8>): (b: seq<bv8>)
    requires |frame| >= OVERHEAD
  {
    match Unseal(g, key, frame)
    case Some(p) => p + Zeros(OVERHEAD)
    case None => Zeros(|frame|)
  }

  lemma BufferSize(g: Gcm, key: Key, frame: seq<bv8>)
    requires Ideal(g) && |frame| >= OVERHEAD
    ensures |PlainBuffer(g, key, frame)| == |frame|
  {
    if Unseal(g, key, frame).Some? {
      var iv := OpenedWasSealed(g, key, frame);
    }
  }

  predicate LongEnough(frame: seq<bv8>) {
    |frame| > OVERHEAD
  }

  /** The records that an update announces lie within its buffer. */
  predicate InBounds(g: Gcm, key: Key, frame: seq<bv8>) {
    LongEnough(frame) && Unseal(g, key, frame).Some? ==> Fits(PlainBuffer(g, key, frame))
  }

  /** The same for a label, which is read only when it announces exactly one record. */
  predicate BufferInBounds(b: seq<bv8>) {
    |b| >= HEADER && SignatureOf(b) == SIGNATURE && CountOf(b) == 1 ==> |b| >= HEADER + RECORD
  }

  predicate RecordInBounds(g: Gcm, key: Key, frame: seq<bv8>) {
    BufferInBounds(if LongEnough(frame) then PlainBuffer(g, key, frame) else [])
  }

  /** The records of an update, none if it does not open. */
  function UpdateEntries(g: Gcm, key: Key, frame: seq<bv8>): (s: seq<Entry>)
    requires Ideal(g) && LongEnough(frame) && InBounds(g, key, frame)
  {
    BufferSize(g, key, frame);
    ZeroUpdate(|frame|);
    EntriesFrom(PlainBuffer(g, key, frame), 0)
  }

  /** `beyond` is the memory behind the buffer, as far as the record loop reads it. */
  predicate Reaches(g: Gcm, key: Key, frame: seq<bv8>, beyond: seq<bv8>) {
    LongEnough(frame) && Unseal(g, key, frame).Some? ==> Fits(PlainBuffer(g, key, frame) + beyond)
  }

  /** The records that the loop reads, those behind the buffer included. */
  function EntriesRead(g: Gcm, key: Key, frame: seq<bv8>, beyond: seq<bv8>): (s: seq<Entry>)
    requires Ideal(g) && LongEnough(frame) && Reaches(g, key, frame, beyond)
  {
    BufferSize(g, key, frame);
    ZeroUpdate(|frame|);
    EntriesWithin(Zeros(|frame|), beyond);
    EntriesFrom(PlainBuffer(g, key, frame) + beyond, 0)
  }

  lemma ReadWithin(g: Gcm, key: Key, frame: seq<bv8>, beyond: seq<bv8>)
    requires Ideal(g) && InBounds(g, key, frame)
    ensures Reaches(g, key, frame, beyond)
    ensures LongEnough(frame) ==> EntriesRead(g, key, frame, beyond) == UpdateEntries(g, key, frame)
  {
    hide EntriesFrom, Fits;
    if LongEnough(frame) {
      BufferSize(g, key, frame);
      ZeroUpdate(|frame|);
      EntriesWithin(PlainBuffer(g, key, frame), beyond);
    }
  }

  function UpdateKey(g: Gcm, key: Key, frame: seq<bv8>): (k: Key)
    requires Ideal(g) && LongEnough(frame)
  {
    BufferSize(g, key, frame);
    KeyUpdateOf(PlainBuffer(g, key, frame))
  }

  /** The processes that records name. */
  function PidsOf(es: seq<Entry>): (r: set<Int32>) {
    set e | e in es :: Signed(e.pid)
  }

  /** Storing records one after the other, each at its own time. */
  function InsertAll(m: Reservations, es: seq<Entry>, clock: nat -> int, mem: Memory): (r: Reservations) {
    if es == [] then m
    else
      var n := |es| - 1;
      InsertRecord(InsertAll(m, es[..n], clock, mem), RecordOf(es[n]), clock(n), mem).0
  }

  /** The ticket is one of the records, stored at its time, for this process. */
  ghost predicate Brought(es: seq<Entry>, clock: nat -> int, pid: Int32, t: Ticket) {
    exists i: nat :: i < |es| && Signed(es[i].pid) == pid && t == Ticket(es[i].id, es[i].op, clock(i))
  }

  /** Every ticket was there before, in the same reservation, or is one of the records. */
  ghost predicate Sourced(m: Holdings, m': Holdings, es: seq<Entry>, clock: nat -> int) {
    forall r, t :: r in m' && t in m'[r] ==> (r in m && t in m[r]) || Brought(es, clock, r.pid, t)
  }

  lemma NothingMoved(m: Holdings, es: seq<Entry>, clock: nat -> int)
    ensures Sourced(m, m, es, clock)
  {
  }

  lemma SourcedNext(m: Holdings, m1: Holdings, m2: Holdings, es: seq<Entry>, clock: nat -> int, i: nat)
    requires i < |es| && Sourced(m, m1, es, clock)
    requires OneMore(m1, m2, Signed(es[i].pid), Ticket(es[i].id, es[i].op, clock(i)))
    ensures Sourced(m, m2, es, clock)
  {
  }

  /** A frame that does not open is inert: it holds no record and the key it carries is zero. */
  lemma InertUpdate(g: Gcm, key: Key, frame: seq<bv8>)
    requires Ideal(g) && LongEnough(frame) && Unseal(g, key, frame) == None
    ensures UpdateEntries(g, key, frame) == [] && UpdateKey(g, key, frame) == Zeros(KEY_LENGTH)
    ensures Xor(key, UpdateKey(g, key, frame)) == key
  {
    ZeroUpdate(|frame|);
    XorZero(key);
  }

  /** What the enclave seals is what the kernel reads. */
  lemma SealedUpdate(g: Gcm, key: Key, iv: Iv, keyUpdate: Key, e: Entry, pad: bv16)
    requires Ideal(g)
    ensures var f := Seal(g, key, iv, EncodeUpdate(keyUpdate, e, pad));
      && LongEnough(f) && InBounds(g, key, f) && UpdateEntries(g, key, f) == [e]
      && UpdateKey(g, key, f) == keyUpdate
  {
    var p := EncodeUpdate(keyUpdate, e, pad);
    OpenSealed(g, key, key, iv, p);
    UpdateRoundTrip(keyUpdate, e, pad, Zeros(OVERHEAD));
  }

  /** An authentic installation: a sealed update with the signature and exactly one record. */
  function InstallEntry(g: Gcm, key: Key, frame: seq<bv8>): (r: Option<Entry>)
    requires Ideal(g)
  {
    if !LongEnough(frame) || Unseal(g, key, frame) == None then None
    else
      BufferSize(g, key, frame);
      var b := PlainBuffer(g, key, frame);
      if SignatureOf(b) != SIGNATURE || CountOf(b) != 1 || |b| < HEADER + RECORD then None
      else Some(EntryAt(b, 0))
  }

  lemma SealedInstall(g: Gcm, key: Key, iv: Iv, keyUpdate: Key, e: Entry, pad: bv16)
    requires Ideal(g)
    ensures InstallEntry(g, key, Seal(g, key, iv, EncodeUpdate(keyUpdate, e, pad))) == Some(e)
  {
    var p := EncodeUpdate(keyUpdate, e, pad);
    OpenSealed(g, key, key, iv, p);
    UpdateRoundTrip(keyUpdate, e, pad, Zeros(OVERHEAD));
    assert EntriesFrom(p + Zeros(OVERHEAD), 0)[0] == EntryAt(p + Zeros(OVERHEAD), 0);
  }

  /** The kernel's own update, read back under the key it was made with. */
  lemma SealedKernelUpdate(g: Gcm, key: Key, iv: Iv)
    requires Ideal(g)
    ensures var f := Seal(g, key, iv, KernelUpdate());
      && LongEnough(f) && InBounds(g, key, f) && RecordInBounds(g, key, f) && InstallEntry(g, key, f) == None
      && UpdateKey(g, key, f) == KERNEL_KEY && |UpdateEntries(g, key, f)| == KERNEL_RECORDS
      && forall i :: 0 <= i < KERNEL_RECORDS ==> UpdateEntries(g, key, f)[i] == KernelEntry(i)
  {
    hide EntriesFrom, KernelUpdate;
    OpenSealed(g, key, key, iv, KernelUpdate());
    KernelUpdateReads(Zeros(OVERHEAD));
  }

  /** A process token taken for an update or a label, under the key it was sealed with. */
  lemma SealedToken(g: Gcm, key: Key, iv: Iv, t: Token)
    requires Ideal(g) && |t.nonce| == 8
    ensures var f := Seal(g, key, iv, EncodeToken(t));
      && LongEnough(f) && RecordInBounds(g, key, f) && UpdateKey(g, key, f) == TokenKey(t)
      && InstallEntry(g, key, f) == (if t.id[4] == 1 then Some(TokenEntry(t)) else None)
      && (InBounds(g, key, f) <==> t.id[4] == 0 || t.id[4] == 1)
      && (t.id[4] == 0 ==> UpdateEntries(g, key, f) == [])
      && (t.id[4] == 1 ==> UpdateEntries(g, key, f) == [TokenEntry(t)])
  {
    hide EntriesFrom, EncodeToken, EntryAt, TokenKey, TokenEntry;
    OpenSealed(g, key, key, iv, EncodeToken(t));
    TokenAsUpdate(t);
  }

  // ----- the challenge

  /** The parts of citadel_challenge_t that are filled in. */
  datatype Challenge = Challenge(signature: seq<bv8>, challenge: seq<bv8>, key: Key, pid: Int32)

  // ----- in place

  class Module {
    const cache: Cache
    var aesKey: array<bv8>
    var tokenKey: Key
    var challenge: seq<bv8>
    var registered: bool
    var daemon: Int32

    ghost predicate Valid()
      reads this, aesKey
    {
      aesKey.Length == KEY_LENGTH
    }

    ghost function AesKey(): (k: Key)
      requires Valid()
      reads this, aesKey
    {
      aesKey[..]
    }

    constructor (cache: Cache)
      ensures Valid() && fresh(aesKey) && this.cache == cache && !registered
    {
      this.cache := cache;
      aesKey, tokenKey, challenge, registered, daemon := new bv8[KEY_LENGTH](_ => 0), Zeros(16), [], false, 0;
    }

    /** update_aes_key: byte by byte, in place. */
    method UpdateAesKey(key: seq<bv8>)
      requires Valid()
      modifies aesKey
      ensures |key| >= KEY_LENGTH ==> AesKey() == Xor(old(AesKey()), key[..KEY_LENGTH])
      ensures |key| < KEY_LENGTH ==> AesKey() == old(AesKey())
    {
      if |key| >= aesKey.Length {
        var i := 0;
        while i < aesKey.Length
          invariant 0 <= i <= aesKey.Length
          invariant forall j :: 0 <= j < i ==> aesKey[j] == old(aesKey[j]) ^ key[j]
          invariant forall j :: i <= j < aesKey.Length ==> aesKey[j] == old(aesKey[j])
        {
          aesKey[i] := aesKey[i] ^ key[i];
          i := i + 1;
        }
      }
    }

    /** process_challenge_response, on what the response decrypts to. */
    method ProcessChallengeResponse(response: Option<Challenge>)
      requires Valid()
      modifies this`tokenKey, this`registered, this`daemon, aesKey
      ensures Valid()
      ensures
        if response.Some? && response.value.signature == SIGNATURE && response.value.challenge == challenge then
          registered && AesKey() == tokenKey == response.value.key && daemon == response.value.pid
        else
          registered == old(registered) && AesKey() == old(AesKey()) && tokenKey == old(tokenKey) && daemon == old(daemon)
    {
      if response == None {
        return;
      }
      var c := response.value;
      if c.signature != SIGNATURE {
        return;
      }
      if c.challenge != challenge {
        return;
      }
      CopyInto(aesKey, 0, c.key);
      tokenKey, daemon, registered := c.key, c.pid, true;
    }

    /** Decrypting into a zeroed buffer. */
    method ReadUpdate(g: Gcm, frame: seq<bv8>) returns (err: bool, b: seq<bv8>)
      requires Valid() && Ideal(g) && LongEnough(frame)
      ensures err <==> Unseal(g, AesKey(), frame) == None
      ensures b == PlainBuffer(g, AesKey(), frame) && |b| == |frame|
    {
      BufferSize(g, AesKey(), frame);
      var plain := new bv8[|frame|](_ => 0);
      assert plain[..] == Zeros(|frame|);
      var outlen;
      err, outlen := KernelDecrypt(g, aesKey[..], frame, plain);
      b := plain[..];
      assert !err ==> Zeros(|frame|)[outlen..] == Zeros(OVERHEAD);
    }

    /** The record loop. Every ticket in the tree afterwards was there before, in the same reservation, or is
        one of the records, in a reservation of its process; if the comparison can order all process IDs,
        the records are stored one after the other. */
    method InsertRecords(b: seq<bv8>, clock: nat -> int, mem: Memory)
      requires cache.Valid() && Fits(b)
      modifies cache, cache.all, cache.nodes
      ensures cache.Valid() && Sourced(old(cache.Held()), cache.Held(), EntriesFrom(b, 0), clock)
      ensures Orderable(PidsIn(old(cache.all)) + PidsOf(EntriesFrom(b, 0))) ==>
        cache.waiting == InsertAll(old(cache.waiting), EntriesFrom(b, 0), clock, mem)
    {
      hide Cache.Valid, Cache.Held, InsertRecord, EntriesFrom, EntryAt, Times, Orderable, StoreIn, Brought, Sourced, OneMore;
      var iter, n := 0, Times(CountOf(b));
      ghost var es := EntriesFrom(b, 0);
      ghost var keys, held := PidsIn(cache.all) + PidsOf(es), cache.Held();
      NothingMoved(held, es, clock);
      while iter < n
        invariant 0 <= iter <= n
        invariant cache.Valid() && Sourced(held, cache.Held(), es, clock)
        invariant fresh(cache.nodes - old(cache.nodes)) && fresh(cache.all - old(cache.all))
        invariant PidsIn(cache.all) <= keys
        invariant Orderable(keys) ==> cache.waiting == InsertAll(old(cache.waiting), es[..iter], clock, mem)
      {
        assert es[iter] == EntryAt(b, iter) && es[iter] in es;
        assert es[..iter + 1][..iter] == es[..iter];
        if Orderable(keys) {
          SubsetOrderable(PidsIn(cache.all) + {Signed(es[iter].pid)}, keys);
        }
        InsertNext(EntryAt(b, iter), clock(iter), mem, es, clock, iter, held);
        iter := iter + 1;
      }
      assert es[..iter] == es;
    }

    method InsertNext(e: Entry, now: int, mem: Memory, ghost es: seq<Entry>, ghost clock: nat -> int, ghost i: nat,
                      ghost held: Holdings)
      requires cache.Valid() && i < |es| && e == es[i] && now == clock(i) && Sourced(held, cache.Held(), es, clock)
      modifies cache, cache.all, cache.nodes
      ensures cache.Valid() && Sourced(held, cache.Held(), es, clock)
      ensures fresh(cache.nodes - old(cache.nodes)) && fresh(cache.all - old(cache.all))
      ensures PidsIn(cache.all) <= PidsIn(old(cache.all)) + {Signed(e.pid)}
      ensures Orderable(PidsIn(old(cache.all)) + {Signed(e.pid)}) ==>
        cache.waiting == InsertRecord(old(cache.waiting), RecordOf(e), now, mem).0
    {
      hide Cache.Valid, Cache.Held, InsertRecord, Orderable, StoreIn, Sourced, OneMore;
      ghost var before := cache.Held();
      var success, _ := cache.InsertTicket(RecordOf(e), now, mem);
      SourcedNext(held, before, cache.Held(), es, clock, i);
    }

    /** process_received_update. The signature is looked at, but a mismatch changes nothing: what
        makes a bad update harmless is the zeroed buffer. */
    method ProcessReceivedUpdate(g: Gcm, update: seq<bv8>, clock: nat -> int, mem: Memory, beyond: seq<bv8>)
      requires Valid() && cache.Valid() && Ideal(g)
      requires registered ==> Reaches(g, AesKey(), update, beyond)
      modifies aesKey, cache, cache.all, cache.nodes
      ensures Valid() && cache.Valid()
      ensures !registered || !LongEnough(update) ==> AesKey() == old(AesKey()) && cache.waiting == old(cache.waiting)
      ensures registered && LongEnough(update) ==>
        && AesKey() == Xor(old(AesKey()), UpdateKey(g, old(AesKey()), update))
        && var es := EntriesRead(g, old(AesKey()), update, beyond);
        && Sourced(old(cache.Held()), cache.Held(), es, clock)
        && (Orderable(PidsIn(old(cache.all)) + PidsOf(es)) ==>
          cache.waiting == InsertAll(old(cache.waiting), es, clock, mem))
    {
      hide Cache.Valid, Cache.Held, Xor, InsertAll, Ideal, Orderable, Sourced;
      if !registered || |update| <= OVERHEAD {
        return;
      }
      var err, b := ReadUpdate(g, update);
      ZeroUpdate(|update|);
      EntriesWithin(Zeros(|update|), beyond);
      InsertRecords(b + beyond, clock, mem);
      UpdateAesKey(KeyUpdateOf(b));
    }

    /** xattr_enclave_installation. */
    method XattrEnclaveInstallation(g: Gcm, value: seq<bv8>, inode: Inode, tainted: bool, id: Id, w: Writes)
      returns (accepted: bool)
      requires Valid() && Ideal(g) && (registered ==> RecordInBounds(g, AesKey(), value))
      modifies aesKey, inode
      ensures Valid()
      ensures
        var entry := if registered then InstallEntry(g, old(AesKey()), value) else None;
        match entry
        case None => !accepted && inode.data == old(inode.data) && inode.disk == old(inode.disk) && AesKey() == old(AesKey())
        case Some(e) =>
          && (inode.data, inode.disk, accepted) ==
            InstallAt(inode.fs, inode.ino, old(inode.data), old(inode.disk), e.op, e.id, w, tainted, id)
          && AesKey() == if accepted then Xor(old(AesKey()), UpdateKey(g, old(AesKey()), value)) else old(AesKey())
    {
      hide Xor, Ideal, InstallAt;
      if !registered || |value| <= OVERHEAD {
        return false;
      }
      var err, b := ReadUpdate(g, value);
      if err {
        return false;
      }
      if SignatureOf(b) != SIGNATURE {
        return false;
      }
      if CountOf(b) != 1 {
        return false;
      }
      assert Times(1) == 1;
      var e := EntryAt(b, 0);
      accepted := inode.XattrInstallation(e.op, e.id, tainted, id, w);
      if accepted {
        UpdateAesKey(KeyUpdateOf(b));
      }
    }

    /** generate_update: five records filled in a loop, sealed with the message key. */
    method GenerateUpdate(g: Gcm, iv: Iv) returns (frame: Option<seq<bv8>>)
      requires Valid() && Ideal(g)
      ensures frame == if registered then Some(Seal(g, AesKey(), iv, KernelUpdate())) else None
    {
      hide EncodeRecord, Ideal;
      var plain, tmp := SIGNATURE + KERNEL_KEY + [5], 0;
      var odd: bv8 := 1;
      while tmp < KERNEL_RECORDS
        invariant 0 <= tmp <= KERNEL_RECORDS && odd == Odd(tmp)
        invariant plain == SIGNATURE + KERNEL_KEY + [5] + KernelRecords(tmp)
      {
        plain := plain + EncodeRecord(Entry(KERNEL_PID, Repeat(odd), 0));
        tmp, odd := tmp + 1, odd + 2;
      }
      if !registered {
        return None;
      }
      var cipher := new bv8[|plain| + OVERHEAD](_ => 0);
      var outlen := KernelEncrypt(g, aesKey[..], iv, plain, cipher);
      return Some(cipher[..]);
    }

    /** generate_ptoken: the sealed part of the token for the current process. */
    method GenerateToken(g: Gcm, pid: bv32, id: Id, nonce: seq<bv8>, iv: Iv) returns (frame: Option<seq<bv8>>)
      requires Ideal(g) && |nonce| == 8
      ensures frame == if registered then Some(Seal(g, tokenKey, iv, EncodeToken(Token(pid, nonce, id)))) else None
    {
      if !registered {
        return None;
      }
      var plain := EncodeToken(Token(pid, nonce, id));
      var cipher := new bv8[|plain| + OVERHEAD];
      var outlen := KernelEncrypt(g, tokenKey, iv, plain, cipher);
      return Some(cipher[..]);
    }
  }
}
