/** The enclave's end of the protocol, as it runs: a key that every message changes in place, and a
    request handler that carries its verdict and the operations left to do through a chain of
    branches. What it does is what the functions of the module Citadel say. */
module Enclave {
  import opened Bytes
  import opened Options
  import opened Tickets
  import opened Labels
  import opened Frames
  import opened Wire
  import opened Lsm
  import opened Monitor
  import opened MonitorRuns
  import opened Citadel

  class Core {
    const aesKey: array<bv8>
    var tokenKey: Key
    var outside: Sys      // everything that system calls reach

    ghost predicate Valid()
      reads this, aesKey
    {
      aesKey.Length == KEY_LENGTH
    }

    /** The whole system, with the enclave's keys where they really are. */
    function View(): (s: Sys)
      requires Valid()
      reads this, aesKey
    {
      outside.(enclave := Keys(aesKey[..], tokenKey))
    }

    method UpdateAesKey(key: Key)
      requires Valid()
      modifies aesKey
      ensures aesKey[..] == Xor(old(aesKey[..]), key)
    {
      var i := 0;
      while i < aesKey.Length
        invariant 0 <= i <= aesKey.Length
        invariant forall j :: 0 <= j < i ==> aesKey[j] == old(aesKey[j]) ^ key[j]
        invariant forall j :: i <= j < aesKey.Length ==> aesKey[j] == old(aesKey[j])
      {
        aesKey[i] := aesKey[i] ^ key[i];
        i := i + 1;
      }
    }

    /** handle_kernel_challenge, on what the challenge decrypts to: the answer repeats it with a new
        key, which becomes both keys of the enclave. */
    method HandleKernelChallenge(challenge: Option<Challenge>, key: Key, pid: Int32) returns (answer: Option<Challenge>)
      requires Valid()
      modifies this`tokenKey, this`outside, aesKey
      ensures Valid()
      ensures
        if challenge.Some? && challenge.value.signature == SIGNATURE then
          && answer == Some(Challenge(SIGNATURE, challenge.value.challenge, key, pid))
          && View() == Answering(old(View()), answer.value)
        else
          answer == None && View() == old(View())
    {
      if challenge == None || challenge.value.signature != SIGNATURE {
        return None;
      }
      CopyInto(aesKey, 0, key);
      assert aesKey[..] == key;
      tokenKey := aesKey[..];
      answer := Some(challenge.value.(key := aesKey[..], pid := pid));
      outside := Answering(outside, answer.value);
    }

    /** The message structure, filled field by field; the last two bytes are whatever the stack held. */
    static method BuildUpdate(keyUpdate: Key, e: Entry, pad: bv16) returns (data: seq<bv8>)
      ensures data == EncodeUpdate(keyUpdate, e, pad)
    {
      var header := BuildHeader(keyUpdate);
      var rcrd := BuildRecord(e, pad);
      data := header + rcrd;
    }

    static method BuildHeader(keyUpdate: Key) returns (header: seq<bv8>)
      ensures header == SIGNATURE + keyUpdate + [1]
    {
      var buf := new bv8[HEADER](_ => 0);
      CopyInto(buf, 0, SIGNATURE);
      assert buf[..8] == SIGNATURE;
      CopyInto(buf, 8, keyUpdate);
      assert buf[..24] == SIGNATURE + keyUpdate;
      buf[24] := 1;
      header := buf[..];
    }

    static method BuildRecord(e: Entry, pad: bv16) returns (rcrd: seq<bv8>)
      ensures rcrd == Le32(e.pid) + e.id + Le16(e.op) + Le16(pad)
    {
      hide Le32, Le16;
      var buf := new bv8[RECORD](_ => 0);
      ghost var pid, op := Le32(e.pid), Le16(e.op);
      CopyInto(buf, 0, Le32(e.pid));
      assert buf[..4] == pid;
      CopyInto(buf, 4, e.id);
      assert buf[..20] == pid + e.id;
      CopyInto(buf, 20, Le16(e.op));
      assert buf[..22] == pid + e.id + op;
      CopyInto(buf, 22, Le16(pad));
      assert buf[..24] == pid + e.id + op + Le16(pad);
      rcrd := buf[..];
    }

    /** generate_ticket. */
    method GenerateTicket(g: Gcm, pid: bv32, id: Id, op: bv16, d: Draw) returns (ok: bool)
      requires Valid() && Ideal(g) && Clocked(outside.mon) && Fair(d)
      modifies this`outside, aesKey
      ensures Valid() && (View(), ok) == SendTicket(g, old(View()), pid, id, op, d)
    {
      hide Ideal, Clocked, EncodeUpdate, ReceiveUpdate, Xor;
      var e := Entry(pid, id, op);
      var data := BuildUpdate(d.keyUpdate, e, d.pad);
      var cipher := EnclaveEncrypt(g, aesKey[..], d.iv, data);
      outside := Sealing(g, View(), e, d);
      if !d.written {
        return false;
      }
      TicketInBounds(g, View(), e, d);
      ReadWithin(g, outside.lsm.key, cipher, []);
      outside := ReceiveUpdate(g, View(), cipher, d.dt, d.mem, []);
      outside := TurnEnclave(outside, d.keyUpdate);
      UpdateAesKey(d.keyUpdate);
      return true;
    }

    /** _generate_xattr_ticket: the identifier is random, or the public one for the daemon's own socket. */
    method GenerateXattrTicket(g: Gcm, file: Option<nat>, internal_: bool, declassify: bool, d: Draw)
      returns (ok: bool, identifier: Id)
      requires Valid() && Ideal(g) && Clocked(outside.mon) && Fair(d)
      modifies this`outside, aesKey
      ensures identifier == if internal_ && !declassify then PUBLIC else d.id
      ensures Valid() && (View(), ok) == SendLabel(g, old(View()), file, declassify, d.(id := identifier))
    {
      hide Ideal, Clocked, SendLabel;
      if internal_ && !declassify {
        identifier := AllOnes();
      } else {
        identifier := d.id;
      }
      ok := InstallXattr(g, file, declassify, d.(id := identifier));
    }

    /** Sealing the label, setting the attribute, and turning the key if the kernel signals acceptance. */
    method InstallXattr(g: Gcm, file: Option<nat>, declassify: bool, d: Draw) returns (ok: bool)
      requires Valid() && Ideal(g) && Clocked(outside.mon) && Fair(d)
      modifies this`outside, aesKey
      ensures Valid() && (View(), ok) == SendLabel(g, old(View()), file, declassify, d)
    {
      hide Ideal, Clocked, EncodeUpdate, Labels.Install, InstallEntry, UpdateKey, Xor;
      var op := if declassify then OP_DECLASSIFY else OP_REGISTER;
      var e := Entry(0, d.id, op);
      var data := BuildUpdate(d.keyUpdate, e, d.pad);
      var cipher := EnclaveEncrypt(g, aesKey[..], d.iv, data);
      outside := Sealing(g, View(), e, d);
      if file == None || !Loaded(outside.mon, file.value) {
        return false;
      }
      TicketInBounds(g, View(), e, d);
      assert Declassifies(OP_DECLASSIFY) && Registers(OP_REGISTER);
      var (s, accepted) := ReceiveInstall(g, View(), file.value, cipher, d.w);
      outside := s;
      if accepted {
        outside := TurnEnclave(outside, d.keyUpdate);
        UpdateAesKey(d.keyUpdate);
      }
      return accepted;
    }

    /** The memset over the identifier. */
    static method AllOnes() returns (id: Id)
      ensures id == PUBLIC
    {
      var buf := new bv8[ID_LENGTH](_ => 0);
      var i := 0;
      while i < ID_LENGTH
        invariant 0 <= i <= ID_LENGTH
        invariant forall j :: 0 <= j < i ==> buf[j] == 0xFF
      {
        buf[i] := 0xFF;
        i := i + 1;
      }
      id := buf[..];
    }

    /** protect_socket. */
    method Protect(g: Gcm, file: Option<nat>, d: Draw)
      requires Valid() && Ideal(g) && Clocked(outside.mon) && Fair(d)
      modifies this`outside, aesKey
      ensures Valid() && View() == ProtectSocket(g, old(View()), file, d)
    {
      hide Ideal, Clocked, SendLabel;
      var ok, identifier := GenerateXattrTicket(g, file, true, false, d);
    }

    /** CLAIM in core_handle_request: label the file, then access to it comes for free. */
    method ClaimFile(g: Gcm, pid: bv32, op: bv16, file: Option<nat>, label_: Draw, open: Draw) returns (result: Response)
      requires Valid() && Ideal(g) && Clocked(outside.mon) && Fair(label_) && Fair(open)
      modifies this`outside, aesKey
      ensures Valid() && (View(), result) == ClaimStep(g, old(View()), pid, op, file, label_, open)
    {
      hide Ideal, Clocked, SendTicket, SendLabel;
      result := APPROVED;
      var ok, identifier := GenerateXattrTicket(g, file, false, false, label_);
      if !ok {
        result := ERROR;
      }
      if result != ERROR && Wants(op, OP_OPEN) {
        ok := GenerateTicket(g, pid, identifier, OP_OPEN, open);
        if !ok {
          result := ERROR;
        }
      }
    }

    /** OPEN in core_handle_request. */
    method OpenObject(g: Gcm, pid: bv32, req: Request, file: Option<nat>, label_: Draw, open: Draw, before: Response)
      returns (result: Response)
      requires Valid() && Ideal(g) && Clocked(outside.mon) && Fair(label_) && Fair(open)
      requires Sized(req)
      modifies this`outside, aesKey
      ensures Valid() && (View(), result) == OpenStep(g, old(View()), pid, req, file, label_, open, before)
    {
      hide Ideal, Clocked, SendTicket, SendLabel;
      result := before;
      var ok, identifier;
      if Inducts(req) {
        ok, identifier := GenerateXattrTicket(g, file, false, false, label_);
        if !ok {
          result := ERROR;
        }
      } else {
        identifier := NamedId(req);
      }
      if result != ERROR {
        ok := GenerateTicket(g, pid, identifier, req.op, open);
        if !ok {
          result := ERROR;
        }
      }
    }

    /** PTY, SOCKET and SHM in core_handle_request: a ticket for the subject of the request each. */
    method SubjectTickets(g: Gcm, pid: bv32, req: Request, op: bv16, draws: Draws, before: Response) returns (result: Response)
      requires Valid() && Ideal(g) && Clocked(outside.mon) && AllFair(draws)
      modifies this`outside, aesKey
      ensures Valid() && Clocked(outside.mon)
      ensures
        var r2 := (old(View()), before);
        var r3 := if Wants(op, OP_PTY | OP_SOCKET) then SubjectStep(g, r2.0, pid, req, draws(4), r2.1) else r2;
        (View(), result) == if Wants(op, OP_SHM) then SubjectStep(g, r3.0, pid, req, draws(5), r3.1) else r3
    {
      hide Ideal, Clocked, SendTicket, Wants;
      result := before;
      if Wants(op, OP_PTY | OP_SOCKET) {
        var ok := GenerateTicket(g, pid, req.subject, req.op, draws(4));
        if !ok {
          result := ERROR;
        }
      }
      if Wants(op, OP_SHM) {
        var ok := GenerateTicket(g, pid, req.subject, req.op, draws(5));
        if !ok {
          result := ERROR;
        }
      }
    }

    /** CLAIM and OPEN in core_handle_request; a claim clears the OPEN bit. */
    method FileTickets(g: Gcm, pid: bv32, req: Request, file: Option<nat>, draws: Draws) returns (op: bv16, result: Response)
      requires Valid() && Ideal(g) && Clocked(outside.mon) && AllFair(draws)
      requires Sized(req)
      modifies this`outside, aesKey
      ensures Valid() && Clocked(outside.mon)
      ensures op == Rest(req.op) && (View(), result) == FileStep(g, old(View()), pid, req, file, draws)
    {
      hide Ideal, Clocked, ClaimStep, OpenStep, Wants, Without;
      op, result := req.op, APPROVED;
      if Wants(op, OP_CLAIM) {
        result := ClaimFile(g, pid, op, file, draws(0), draws(1));
        op := Without(op, OP_OPEN);
      }
      if Wants(op, OP_OPEN) {
        result := OpenObject(g, pid, req, file, draws(2), draws(3), result);
      }
    }

    /** core_handle_request: the verdict only gets worse. */
    method CoreHandleRequest(g: Gcm, pid: bv32, req: Request, file: Option<nat>, draws: Draws, verdict: Response)
      returns (result: Response)
      requires Valid() && Ideal(g) && Clocked(outside.mon) && AllFair(draws)
      requires Sized(req)
      modifies this`outside, aesKey
      ensures Valid()
      ensures (View(), result) ==
        if verdict != APPROVED then (old(View()), verdict) else Citadel.Core(g, old(View()), pid, req, file, draws)
    {
      hide Ideal, Clocked, SendLabel, FileStep, SubjectStep, Wants, Rest;
      if verdict != APPROVED {
        return verdict;
      }
      var op, ok, identifier;
      op, result := FileTickets(g, pid, req, file, draws);
      result := SubjectTickets(g, pid, req, op, draws, result);
      if Wants(op, OP_DECLASSIFY) {
        ok, identifier := GenerateXattrTicket(g, file, false, true, draws(6));
        result := Worse(ok, result);
      }
    }

    /** handle_request: size, signature, token and peer are checked in this order before the policy is
        asked. `buffer` says whether the caller's token buffer is usable; `policy` is its verdict. */
    method HandleRequest(g: Gcm, data: seq<bv8>, pid: bv32, buffer: bool, policy: Response, file: Option<nat>, draws: Draws)
      returns (result: Response)
      requires Valid() && Ideal(g) && Clocked(outside.mon) && AllFair(draws)
      modifies this`outside, aesKey
      ensures Valid() && (View(), result) == Handle(g, old(View()), pid, data, buffer, policy, file, draws)
    {
      hide Ideal, Clocked, Citadel.Core, DecodeToken;
      if !buffer {
        return ERROR;
      }
      var req := ParseRequest(data);
      if req == None {
        return INVALID;
      }
      var decrypted := EnclaveDecrypt(g, tokenKey, req.value.token);
      var token := DecodeToken(decrypted);
      if token == None {
        return INVALID;
      }
      if token.value.pid != pid {
        return FORGED;
      }
      result := CoreHandleRequest(g, pid, req.value, file, draws, policy);
    }
  }
}
