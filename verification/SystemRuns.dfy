/** What holds of the whole system over every run. Anybody may write any frame to the update file or the
    install attribute; a frame that opens is one that one of the two ends sealed, for whatever purpose.
    Tickets and terminals still go back to requests that the enclave approved for processes that proved
    themselves, unless the kernel has read records from behind an update. */
module SystemRuns {
  import opened Bytes
  import opened Options
  import opened Tickets
  import opened Labels
  import opened Frames
  import opened Wire
  import opened Lsm
  import opened Monitor
  import opened MonitorRuns
  import opened Guarantees
  import opened Terminals
  import opened Citadel
  import opened Protocol

  // ----- steps

  datatype SysEvent =
    | Challenged(challenge: seq<bv8>)                           // the kernel draws a challenge
    | Answered(challenge: seq<bv8>, key: Key, pid: bv32)        // the enclave draws a key and answers
    | Delivered(answer: Challenge)                              // an answer reaches the kernel
    | Asked(pid: bv32, data: seq<bv8>, buffer: bool, policy: Response, file: Option<nat>, draws: Draws)
    | SocketProtected(file: Option<nat>, d: Draw)               // the enclave labels the daemon's socket
    | UpdateWritten(frame: seq<bv8>, dt: nat, mem: Memory, beyond: seq<bv8>)   // anybody writes to the update file
    | LabelSet(target: nat, frame: seq<bv8>, w: Writes)         // anybody sets the install attribute
    | GetToken(pid: bv32, nonce: seq<bv8>, iv: Iv, id: Id)
    | UpdateRead(iv: Iv)                                        // somebody reads the update file
    | Local(e: Event)                                           // anything else in the kernel

  /** Nobody else has the keys: a frame that opens is one of those the two ends sealed. */
  ghost predicate Unforged(g: Gcm, s: Sys, key: Key, frame: seq<bv8>) {
    Unseal(g, key, frame).Some? ==> exists m :: m in s.made && m.frame == frame && m.key == key
  }

  /** The enclave has answered a challenge. Until then its keys are the zeros it is built with, which
      everybody knows. */
  predicate HasAnswered(s: Sys) {
    s.answers != {}
  }

  /** Answers come from the enclave, at any time and any number of times; frames under keys of a session
      are unforged; the clock moves. */
  ghost predicate Possible(g: Gcm, s: Sys, ev: SysEvent) {
    match ev
    case Challenged(_) => true
    case Answered(_, _, _) => true
    case Delivered(answer) => answer in s.answers
    case Asked(_, data, _, _, _, draws) => AllFair(draws) && TokenUnforged(g, s, data)
    case SocketProtected(_, d) => Fair(d)
    case UpdateWritten(frame, dt, _, beyond) =>
      dt > 0 && (s.registered ==> Unforged(g, s, s.lsm.key, frame) && Reaches(g, s.lsm.key, frame, beyond))
    case LabelSet(target, frame, _) => Loaded(s.mon, target) && (s.registered ==> Unforged(g, s, s.lsm.key, frame))
    case GetToken(_, nonce, _, _) => |nonce| == 8
    case UpdateRead(_) => true
    case Local(e) => Enabled(s.mon, e) && !e.Insert? && !e.Install? && !e.Register?
  }

  ghost predicate TokenUnforged(g: Gcm, s: Sys, data: seq<bv8>) {
    HasAnswered(s) && ParseRequest(data).Some? ==> Unforged(g, s, s.enclave.token, ParseRequest(data).value.token)
  }

  function Answer(challenge: seq<bv8>, key: Key, pid: bv32): (c: Challenge) {
    Challenge(SIGNATURE, challenge, key, Signed(pid))
  }

  /** An answer that is taken is no longer under way; a refused one still is. */
  function Deliver(s: Sys, a: Challenge): (r: Sys) {
    var t := ReceiveResponse(s, a);
    if a.signature == SIGNATURE && a.challenge == s.challenge && s.answer == Some(a) then t.(answer := None) else t
  }

  function IssueToken(g: Gcm, s: Sys, pid: bv32, nonce: seq<bv8>, iv: Iv, id: Id): (r: Sys)
    requires |nonce| == 8
  {
    if !s.registered then s
    else s.(made := s.made + {Issued(Seal(g, s.lsm.token, iv, EncodeToken(Token(pid, nonce, id))), s.lsm.token, pid)})
  }

  function Dump(g: Gcm, s: Sys, iv: Iv): (r: Sys) {
    if !s.registered then s
    else s.(made := s.made + {Dumped(Seal(g, s.lsm.key, iv, KernelUpdate()), s.lsm.key)})
  }

  /** What the enclave seals before its first answer could have been sealed by anybody, and is no part of
      the history. */
  function Secretly(s: Sys, t: Sys): (r: Sys) {
    if HasAnswered(s) then t else t.(made := s.made)
  }

  ghost function Asking(g: Gcm, s: Sys, pid: bv32, data: seq<bv8>, buffer: bool, policy: Response, file: Option<nat>,
                        draws: Draws): (r: Sys)
    requires Ideal(g) && Clocked(s.mon) && AllFair(draws)
  {
    var t := Secretly(s, Handle(g, s, pid, data, buffer, policy, file, draws).0);
    if HasAnswered(s) && Approves(g, s, pid, data, buffer, policy)
    then t.(approvals := t.approvals + {ApprovalOf(pid, ParseRequest(data).value, draws)}) else t
  }

  ghost function Step(g: Gcm, s: Sys, ev: SysEvent): (r: Sys)
    requires Ideal(g) && Clocked(s.mon) && Possible(g, s, ev)
  {
    match ev
    case Challenged(challenge) => s.(challenge := challenge)
    case Answered(challenge, key, pid) => Answering(s, Answer(challenge, key, pid))
    case Delivered(answer) => Deliver(s, answer)
    case Asked(pid, data, buffer, policy, file, draws) => Asking(g, s, pid, data, buffer, policy, file, draws)
    case SocketProtected(file, d) => Secretly(s, ProtectSocket(g, s, file, d))
    case UpdateWritten(frame, dt, mem, beyond) => ReceiveUpdate(g, s, frame, dt, mem, beyond)
    case LabelSet(target, frame, w) => ReceiveInstall(g, s, target, frame, w).0
    case GetToken(pid, nonce, iv, id) => IssueToken(g, s, pid, nonce, iv, id)
    case UpdateRead(iv) => Dump(g, s, iv)
    case Local(e) => Do(s, e)
  }

  // ----- the invariant

  ghost predicate HasToken(made: set<Made>, pid: Int32) {
    exists m :: m in made && m.Issued? && Signed(m.pid) == pid
  }

  /** A request was approved that is good for this record. */
  ghost predicate Approved(approvals: set<Approval>, r: Record) {
    exists a :: a in approvals && Sized(a.req) && r in Granted(a)
  }

  /** The record asks for nothing a hook looks for, or a request for it was approved. */
  ghost predicate Vouched(approvals: set<Approval>, r: Record) {
    Idle(r.op) || Approved(approvals, r)
  }

  /** Every frame is what the history says. */
  ghost predicate Truthful(g: Gcm, made: set<Made>) {
    forall m :: m in made ==> Honest(g, m)
  }

  /** Requests are approved only for processes that were given a token. */
  ghost predicate Proven(made: set<Made>, approvals: set<Approval>) {
    forall a :: a in approvals ==> Sized(a.req) && HasToken(made, a.pid)
  }

  ghost predicate Sealed(g: Gcm, made: set<Made>, approvals: set<Approval>) {
    && Truthful(g, made) && Proven(made, approvals)
    && (forall m :: m in made && m.Sent? ==> Vouched(approvals, RecordOf(m.e)))
  }

  /** Every record ever stored is vouched for, unless the kernel has read past an update. */
  ghost predicate Stored(s: Sys) {
    !s.overrun ==> forall k :: 0 <= k < |s.trace| && s.trace[k].Insert? ==> Vouched(s.approvals, s.trace[k].record)
  }

  /** Before its first answer the enclave has the keys it is built with, and the kernel none. */
  predicate Early(s: Sys) {
    !HasAnswered(s) ==> !s.registered && s.enclave.token == Zeros(16) && s.made == {} && s.approvals == {}
  }

  ghost predicate SysInv(g: Gcm, s: Sys) {
    Initial(s.start) && Traced(s) && Turned(s) && Sealed(g, s.made, s.approvals) && Stored(s) && Early(s)
  }

  /** Before the first handshake nothing has been agreed, stored or sealed; the enclave's keys are zero. */
  predicate Boot(s: Sys) {
    && Initial(s.mon) && s.start == s.mon && s.trace == [] && !s.registered && s.answer == None
    && s.answers == {} && s.made == {} && s.approvals == {} && s.sent == [] && !s.overrun
    && s.enclave.key == s.enclave.token == Zeros(16)
  }

  lemma BootInv(g: Gcm, s: Sys)
    requires Boot(s)
    ensures SysInv(g, s)
  {
  }

  lemma InvFromTrace(s: Sys)
    requires Initial(s.start) && Traced(s)
    ensures Inv(s.mon)
  {
    hide Runs, After;
    InitialInv(s.start);
    Reachable(s.start, s.trace);
  }

  lemma TokenMore(made: set<Made>, more: set<Made>, pid: Int32)
    requires HasToken(made, pid) && made <= more
    ensures HasToken(more, pid)
  {
    var m :| m in made && m.Issued? && Signed(m.pid) == pid;
    assert m in more;
  }

  lemma VouchedMore(approvals: set<Approval>, more: set<Approval>, r: Record)
    requires Vouched(approvals, r) && approvals <= more
    ensures Vouched(more, r)
  {
    hide Granted;
    if Approved(approvals, r) {
      var a :| a in approvals && Sized(a.req) && r in Granted(a);
      assert a in more;
    }
  }

  lemma StoredMore(s: Sys, t: Sys)
    requires Stored(s) && t.trace == s.trace && s.approvals <= t.approvals && (s.overrun ==> t.overrun)
    ensures Stored(t)
  {
    hide Vouched;
    if !t.overrun {
      forall k | 0 <= k < |t.trace| && t.trace[k].Insert?
        ensures Vouched(t.approvals, t.trace[k].record)
      {
        VouchedMore(s.approvals, t.approvals, t.trace[k].record);
      }
    }
  }

  lemma DoStored(s: Sys, e: Event)
    requires Stored(s) && Enabled(s.mon, e) && !e.Insert?
    ensures Stored(Do(s, e))
  {
    hide Next, Enabled, Vouched;
  }

  lemma SealedMore(g: Gcm, s: Sys, made: set<Made>, approvals: set<Approval>)
    requires Sealed(g, s.made, s.approvals) && s.made <= made && s.approvals <= approvals
    requires forall m :: m in made && m !in s.made ==> Honest(g, m) && (m.Sent? ==> Vouched(approvals, RecordOf(m.e)))
    requires forall a :: a in approvals && a !in s.approvals ==> Sized(a.req) && HasToken(made, a.pid)
    ensures Sealed(g, made, approvals)
  {
    hide Honest, HasToken, Vouched;
    forall m | m in s.made && m.Sent?
      ensures Vouched(approvals, RecordOf(m.e))
    {
      VouchedMore(s.approvals, approvals, RecordOf(m.e));
    }
    forall a | a in s.approvals
      ensures HasToken(made, a.pid)
    {
      TokenMore(s.made, made, a.pid);
    }
  }

  // ----- requests are authentic

  ghost predicate TokenOf(s: Sys, token: seq<bv8>, pid: bv32) {
    exists m :: m in s.made && m.Issued? && m.frame == token && m.key == s.enclave.token && m.pid == pid
  }

  /** Of all the frames in the history only tokens are as long as a token. */
  lemma TokenLength(g: Gcm, m: Made)
    requires Ideal(g) && Honest(g, m)
    ensures m.Issued? <==> |m.frame| == SEALED_TOKEN
  {
    match m
    case Sent(frame, key, e) =>
      var iv: Iv, keyUpdate: Key, pad: bv16 :| frame == Seal(g, key, iv, EncodeUpdate(keyUpdate, e, pad));
      OpenSealed(g, key, key, iv, EncodeUpdate(keyUpdate, e, pad));
    case Issued(frame, key, pid) =>
      var iv: Iv, nonce: seq<bv8>, id: Id :| |nonce| == 8 && frame == Seal(g, key, iv, EncodeToken(Token(pid, nonce, id)));
      OpenSealed(g, key, key, iv, EncodeToken(Token(pid, nonce, id)));
    case Dumped(frame, key) =>
      var iv: Iv :| frame == Seal(g, key, iv, KernelUpdate());
      OpenSealed(g, key, key, iv, KernelUpdate());
  }

  /** A token the enclave accepts for `pid` was issued by the kernel, to `pid`. */
  lemma TokenAuthentic(g: Gcm, s: Sys, token: seq<bv8>, pid: bv32)
    requires Ideal(g) && Truthful(g, s.made) && |token| == SEALED_TOKEN && Unforged(g, s, s.enclave.token, token)
    requires TokenPid(g, s.enclave.token, token) == Some(pid)
    ensures TokenOf(s, token, pid)
  {
    TokenOpens(g, s.enclave.token, token);
    var m :| m in s.made && m.frame == token && m.key == s.enclave.token;
    TokenLength(g, m);
    assert IsToken(g, m.frame, m.key, m.pid);
    var iv: Iv, nonce: seq<bv8>, id: Id :|
      |nonce| == 8 && m.frame == Seal(g, m.key, iv, EncodeToken(Token(m.pid, nonce, id)));
    OpenSealed(g, m.key, m.key, iv, EncodeToken(Token(m.pid, nonce, id)));
    TokenRoundTrip(Token(m.pid, nonce, id));
  }

  /** A token the kernel issues under agreed keys is accepted for the process it was issued to. */
  lemma TokenAccepted(g: Gcm, s: Sys, pid: bv32, nonce: seq<bv8>, iv: Iv, id: Id)
    requires Ideal(g) && |nonce| == 8 && Agree(s)
    ensures
      var frame := Seal(g, s.lsm.token, iv, EncodeToken(Token(pid, nonce, id)));
      |frame| == SEALED_TOKEN && TokenPid(g, s.enclave.token, frame) == Some(pid)
  {
    OpenSealed(g, s.lsm.token, s.enclave.token, iv, EncodeToken(Token(pid, nonce, id)));
    TokenRoundTrip(Token(pid, nonce, id));
  }

  /** A token that does not open has no signature: aes_decrypt leaves zeros, and is not asked. */
  lemma TokenOpens(g: Gcm, key: Key, token: seq<bv8>)
    requires Ideal(g) && |token| == SEALED_TOKEN
    ensures TokenPid(g, key, token).Some? ==> Unseal(g, key, token).Some?
  {
    if Unseal(g, key, token) == None {
      ZeroToken();
    }
  }

  /** Before the enclave's first answer anybody can make a token for any process, and have a request
      approved with it. */
  lemma EarlyForgery(g: Gcm, s: Sys, pid: bv32, nonce: seq<bv8>, iv: Iv, id: Id)
    requires Ideal(g) && Early(s) && !HasAnswered(s) && |nonce| == 8
    ensures
      var token := Seal(g, Zeros(16), iv, EncodeToken(Token(pid, nonce, id)));
      |token| == SEALED_TOKEN && TokenPid(g, s.enclave.token, token) == Some(pid) && !TokenOf(s, token, pid)
  {
    OpenSealed(g, Zeros(16), Zeros(16), iv, EncodeToken(Token(pid, nonce, id)));
    TokenRoundTrip(Token(pid, nonce, id));
  }

  /** Every token the enclave accepts was issued by the kernel to the process it is accepted for. */
  ghost predicate Authentic(g: Gcm, s: Sys)
    requires Ideal(g)
  {
    forall token: seq<bv8>, pid: bv32 | |token| == SEALED_TOKEN && Accepted(g, s, token, pid) :: TokenOf(s, token, pid)
  }

  ghost predicate Accepted(g: Gcm, s: Sys, token: seq<bv8>, pid: bv32)
    requires Ideal(g) && |token| == SEALED_TOKEN
  {
    (HasAnswered(s) ==> Unforged(g, s, s.enclave.token, token)) && TokenPid(g, s.enclave.token, token) == Some(pid)
  }

  /** ... which is so exactly from the enclave's first answer on. */
  lemma AuthenticExact(g: Gcm, s: Sys)
    requires Ideal(g) && Early(s) && Truthful(g, s.made)
    ensures Authentic(g, s) <==> HasAnswered(s)
  {
    hide Truthful, TokenPid, TokenOf, Unforged, EncodeToken;
    if HasAnswered(s) {
      forall token: seq<bv8>, pid: bv32 | |token| == SEALED_TOKEN && Accepted(g, s, token, pid)
        ensures TokenOf(s, token, pid)
      {
        TokenAuthentic(g, s, token, pid);
      }
    } else {
      var iv: Iv := Zeros(12);
      var token := Seal(g, Zeros(16), iv, EncodeToken(Token(0, Zeros(8), Zeros(16))));
      EarlyForgery(g, s, 0, Zeros(8), iv, Zeros(16));
      assert Accepted(g, s, token, 0);
    }
  }

  /** Request authenticity: a request changes something only if it parses, its token speaks for the process
      at the other end of the socket, and the policy approves. Once the enclave has answered, that token
      was issued by the kernel to that process; before, the kernel stores nothing at all. Every record
      the request makes the kernel store, for tickets or for a terminal, and every record it seals for
      the update file is one the request is good for, with the ID of that process; the labels it seals
      carry none. A token that does not open is INVALID. */
  lemma RequestAuthenticity(g: Gcm, s: Sys, pid: bv32, data: seq<bv8>, buffer: bool, policy: Response,
                            file: Option<nat>, draws: Draws)
    requires Ideal(g) && Clocked(s.mon) && AllFair(draws) && Truthful(g, s.made) && Early(s) && TokenUnforged(g, s, data)
    ensures
      var (t, result) := Handle(g, s, pid, data, buffer, policy, file, draws);
      && (t != s ==> Approves(g, s, pid, data, buffer, policy))
      && (HasAnswered(s) && Approves(g, s, pid, data, buffer, policy) ==>
        TokenOf(s, ParseRequest(data).value.token, pid))
      && (!HasAnswered(s) ==> t.mon == s.mon && t.trace == s.trace)
      && (Approves(g, s, pid, data, buffer, policy) ==>
        var records := Granted(ApprovalOf(pid, ParseRequest(data).value, draws));
        && s.trace <= t.trace && s.made <= t.made
        && (forall k :: |s.trace| <= k < |t.trace| && t.trace[k].Insert? ==>
          t.trace[k].record in records && t.trace[k].record.pid == Signed(pid))
        && (forall m :: m in t.made && m !in s.made ==>
          m.Sent? && Honest(g, m) && ((RecordOf(m.e) in records && RecordOf(m.e).pid == Signed(pid)) || Idle(m.e.op))))
      && (buffer && ParseRequest(data).Some? && Unseal(g, s.enclave.token, ParseRequest(data).value.token) == None ==>
        t == s && result == INVALID)
  {
    hide Ideal, Clocked, Core, TokenPid, Unforged, Truthful, Agree, Turned, Traced, Honest, Granted;
    HandleServed(g, s, pid, data, buffer, policy, file, draws, false);
    var req := ParseRequest(data);
    if req.Some? {
      TokenOpens(g, s.enclave.token, req.value.token);
      if HasAnswered(s) && TokenPid(g, s.enclave.token, req.value.token) == Some(pid) {
        TokenAuthentic(g, s, req.value.token, pid);
      }
      GrantedPid(ApprovalOf(pid, req.value, draws));
    }
  }

  lemma GrantedPid(a: Approval)
    requires Sized(a.req)
    ensures forall r :: r in Granted(a) ==> r.pid == a.pid
  {
  }

  // ----- every step keeps the invariant

  /** What the enclave does within a scope that is vouched for keeps the history sound. */
  lemma ServedStored(g: Gcm, s: Sys, h: Sys, scope: Scope, approvals: set<Approval>)
    requires Served(g, s, h, scope) && Sealed(g, s.made, s.approvals) && Stored(s) && s.approvals <= approvals
    requires forall r :: r in scope.records ==> Vouched(approvals, r)
    requires forall a :: a in approvals && a !in s.approvals ==> Sized(a.req) && HasToken(s.made, a.pid)
    ensures Sealed(g, h.made, approvals) && Stored(h.(approvals := approvals))
  {
    hide Agree, Turned, Traced, Honest, HasToken, Approved;
    forall m | m in h.made && m !in s.made
      ensures Honest(g, m) && (m.Sent? ==> Vouched(approvals, RecordOf(m.e)))
    {
      assert OwnFrame(g, m, scope);
    }
    forall a | a in approvals && a !in s.approvals
      ensures HasToken(h.made, a.pid)
    {
      TokenMore(s.made, h.made, a.pid);
    }
    SealedMore(g, s, h.made, approvals);
    if !h.overrun {
      forall k | 0 <= k < |h.trace| && h.trace[k].Insert?
        ensures Vouched(approvals, h.trace[k].record)
      {
        if k < |s.trace| {
          assert h.trace[k] == s.trace[k];
          VouchedMore(s.approvals, approvals, h.trace[k].record);
        } else {
          assert Allowed(h.trace[k], scope);
        }
      }
    }
  }

  lemma GrantedVouched(a: Approval, approvals: set<Approval>)
    requires a in approvals && Sized(a.req)
    ensures forall r :: r in Granted(a) ==> Vouched(approvals, r)
  {
    hide Granted;
    assert forall r :: r in Granted(a) ==> Approved(approvals, r);
  }

  /** Before the first answer the kernel notices nothing. */
  lemma EarlyInv(g: Gcm, s: Sys, h: Sys, scope: Scope)
    requires SysInv(g, s) && !HasAnswered(s) && Served(g, s, h, scope)
    ensures SysInv(g, h.(made := s.made))
  {
    hide Traced, Sealed, Initial, XorAll, OwnFrame, Allowed, Vouched;
    SameTrace(s, h.(made := s.made));
    StoredMore(s, h.(made := s.made));
  }

  lemma AskedInv(g: Gcm, s: Sys, ev: SysEvent)
    requires Ideal(g) && Clocked(s.mon) && SysInv(g, s) && Possible(g, s, ev) && ev.Asked?
    ensures SysInv(g, Step(g, s, ev))
  {
    hide Ideal, Clocked, Handle, AllFair, ParseRequest, Truthful, Sealed, Stored, Initial, Approves, Traced, Granted,
      Agree, XorAll, TokenUnforged, OwnFrame, Allowed;
    var t, h := Step(g, s, ev), Handle(g, s, ev.pid, ev.data, ev.buffer, ev.policy, ev.file, ev.draws).0;
    SealedTruth(g, s);
    RequestAuthenticity(g, s, ev.pid, ev.data, ev.buffer, ev.policy, ev.file, ev.draws);
    HandleServed(g, s, ev.pid, ev.data, ev.buffer, ev.policy, ev.file, ev.draws, false);
    if !Approves(g, s, ev.pid, ev.data, ev.buffer, ev.policy) {
      assert t == s;
    } else {
      ApprovedParses(g, s, ev);
      var req := ParseRequest(ev.data).value;
      var scope := ScopeOf(ev.pid, req, ev.file, ev.draws, false);
      if !HasAnswered(s) {
        EarlyInv(g, s, h, scope);
      } else {
        assert HasToken(s.made, Signed(ev.pid));
        var a := ApprovalOf(ev.pid, req, ev.draws);
        GrantedVouched(a, s.approvals + {a});
        ServedStored(g, s, h, scope, s.approvals + {a});
        SameTrace(h, t);
      }
    }
  }

  lemma ApprovedParses(g: Gcm, s: Sys, ev: SysEvent)
    requires Ideal(g) && ev.Asked? && Approves(g, s, ev.pid, ev.data, ev.buffer, ev.policy)
    ensures ParseRequest(ev.data).Some?
  {
  }

  lemma SealedTruth(g: Gcm, s: Sys)
    requires Sealed(g, s.made, s.approvals)
    ensures Truthful(g, s.made)
  {
  }

  lemma SocketInv(g: Gcm, s: Sys, file: Option<nat>, d: Draw)
    requires Ideal(g) && Clocked(s.mon) && SysInv(g, s) && Fair(d)
    ensures SysInv(g, Secretly(s, ProtectSocket(g, s, file, d)))
  {
    hide Ideal, Clocked, SendLabel, Sealed, Stored, Initial, Traced, XorAll, Agree, OwnFrame, Allowed;
    var h, scope := ProtectSocket(g, s, file, d), Scope({}, file, false);
    LabelServed(g, s, file, false, d.(id := PUBLIC), scope);
    if HasAnswered(s) {
      ServedStored(g, s, h, scope, s.approvals);
    } else {
      EarlyInv(g, s, h, scope);
    }
  }

  // ----- frames from anywhere

  /** What an update that opens makes the kernel store is vouched for, whoever wrote it and whatever it
      was sealed for: a process token or the kernel's own update carries no operation at all. */
  lemma EntriesVouched(g: Gcm, s: Sys, frame: seq<bv8>)
    requires Ideal(g) && Sealed(g, s.made, s.approvals) && Unforged(g, s, s.lsm.key, frame)
    requires LongEnough(frame) && InBounds(g, s.lsm.key, frame)
    ensures forall e :: e in UpdateEntries(g, s.lsm.key, frame) ==> Vouched(s.approvals, RecordOf(e))
  {
    hide EncodeUpdate, EncodeToken, KernelUpdate, Approved, Proven;
    if Unseal(g, s.lsm.key, frame) == None {
      InertUpdate(g, s.lsm.key, frame);
    } else {
      var m :| m in s.made && m.frame == frame && m.key == s.lsm.key;
      assert Honest(g, m);
      match m
      case Sent(_, key, e) =>
        var iv: Iv, keyUpdate: Key, pad: bv16 :| frame == Seal(g, key, iv, EncodeUpdate(keyUpdate, e, pad));
        SealedUpdate(g, key, iv, keyUpdate, e, pad);
      case Issued(_, key, pid) =>
        var iv: Iv, nonce: seq<bv8>, id: Id :| |nonce| == 8 && frame == Seal(g, key, iv, EncodeToken(Token(pid, nonce, id)));
        SealedToken(g, key, iv, Token(pid, nonce, id));
      case Dumped(_, key) =>
        var iv: Iv :| frame == Seal(g, key, iv, KernelUpdate());
        SealedKernelUpdate(g, key, iv);
    }
  }

  lemma {:induction false} StoreTraced(s: Sys, es: seq<Entry>, dt: nat, mem: Memory)
    requires Clocked(s.mon) && dt > 0 && Traced(s)
    ensures Traced(Store(s, es, dt, mem))
    decreases |es|
  {
    hide Traced, InsertRecord;
    if es != [] {
      var s1 := Do(s, Tick(dt));
      DoTraced(s, Tick(dt));
      DoTraced(s1, Insert(RecordOf(es[0]), mem));
      StoreTraced(Do(s1, Insert(RecordOf(es[0]), mem)), es[1..], dt, mem);
    }
  }

  /** Storing vouched records. */
  lemma {:induction false} StoreStored(s: Sys, es: seq<Entry>, dt: nat, mem: Memory)
    requires Clocked(s.mon) && dt > 0 && Stored(s) && forall e :: e in es ==> Vouched(s.approvals, RecordOf(e))
    ensures Stored(Store(s, es, dt, mem))
    decreases |es|
  {
    hide InsertRecord, Vouched;
    if es != [] {
      var t := Do(Do(s, Tick(dt)), Insert(RecordOf(es[0]), mem));
      assert es[0] in es;
      assert Stored(t);
      StoreStored(t, es[1..], dt, mem);
    }
  }

  lemma UpdateInv(g: Gcm, s: Sys, frame: seq<bv8>, dt: nat, mem: Memory, beyond: seq<bv8>)
    requires Ideal(g) && Clocked(s.mon) && SysInv(g, s) && Possible(g, s, UpdateWritten(frame, dt, mem, beyond))
    ensures SysInv(g, ReceiveUpdate(g, s, frame, dt, mem, beyond))
  {
    hide Ideal, Clocked, Unforged, Sealed, Initial, Traced, UpdateEntries, EntriesRead, Reaches, UpdateKey, InBounds,
      Store, Xor, XorAll, Vouched;
    if s.registered && LongEnough(frame) {
      var es, u := EntriesRead(g, s.lsm.key, frame, beyond), UpdateKey(g, s.lsm.key, frame);
      var s1, t := Store(s, es, dt, mem), ReceiveUpdate(g, s, frame, dt, mem, beyond);
      StoreTraced(s, es, dt, mem);
      XorAllAppend(s.session, s.accepted, u);
      SameTrace(s1, t);
      if !t.overrun {
        ReadWithin(g, s.lsm.key, frame, beyond);
        EntriesVouched(g, s, frame);
        StoreStored(s, es, dt, mem);
      }
    }
  }

  lemma LabelSetInv(g: Gcm, s: Sys, target: nat, frame: seq<bv8>, w: Writes)
    requires Ideal(g) && Clocked(s.mon) && SysInv(g, s) && Possible(g, s, LabelSet(target, frame, w))
    ensures SysInv(g, ReceiveInstall(g, s, target, frame, w).0)
  {
    hide Ideal, Clocked, Unforged, Sealed, Stored, Initial, Traced, UpdateKey, EntryAt, Xor, XorAll, Labels.Install, Next;
    if s.registered && InstallEntry(g, s.lsm.key, frame).Some? {
      var e, u := InstallEntry(g, s.lsm.key, frame).value, UpdateKey(g, s.lsm.key, frame);
      var s1 := Do(s, Event.Install(target, e.op, e.id, w));
      DoTraced(s, Event.Install(target, e.op, e.id, w));
      DoStored(s, Event.Install(target, e.op, e.id, w));
      XorAllAppend(s.session, s.accepted, u);
      SameTrace(s1, Turn(s1, u));
      StoredMore(s1, Turn(s1, u));
    }
  }

  lemma DeliveredInv(g: Gcm, s: Sys, a: Challenge)
    requires SysInv(g, s) && a in s.answers
    ensures SysInv(g, Deliver(s, a))
  {
    hide Traced, Sealed, Initial, Stored;
    if a.signature == SIGNATURE && a.challenge == s.challenge {
      var s1 := Do(s, Register(a.pid));
      DoTraced(s, Register(a.pid));
      DoStored(s, Register(a.pid));
      SameTrace(s1, Deliver(s, a));
      StoredMore(s1, Deliver(s, a));
    }
  }

  lemma LocalInv(g: Gcm, s: Sys, e: Event)
    requires SysInv(g, s) && Enabled(s.mon, e) && !e.Insert? && !e.Install? && !e.Register?
    ensures SysInv(g, Do(s, e))
  {
    hide Traced, Sealed, Initial, Next, Stored, Enabled;
    DoTraced(s, e);
    DoStored(s, e);
  }

  /** The kernel seals a token or an update. */
  lemma KernelSeals(g: Gcm, s: Sys, m: Made)
    requires SysInv(g, s) && Honest(g, m) && !m.Sent? && HasAnswered(s)
    ensures SysInv(g, s.(made := s.made + {m}))
  {
    hide Traced, Initial, Honest, Vouched;
    var t := s.(made := s.made + {m});
    SealedMore(g, s, t.made, t.approvals);
    SameTrace(s, t);
    StoredMore(s, t);
  }

  lemma AnsweredInv(g: Gcm, s: Sys, a: Challenge)
    requires SysInv(g, s)
    ensures SysInv(g, Answering(s, a))
  {
    hide Traced, Initial, Sealed, Vouched;
    assert a in Answering(s, a).answers;
    SameTrace(s, Answering(s, a));
    StoredMore(s, Answering(s, a));
  }

  lemma ChallengedInv(g: Gcm, s: Sys, challenge: seq<bv8>)
    requires SysInv(g, s)
    ensures SysInv(g, s.(challenge := challenge))
  {
    hide Traced, Initial, Sealed, Vouched;
    SameTrace(s, s.(challenge := challenge));
    StoredMore(s, s.(challenge := challenge));
  }

  /** Every step keeps what is known of the history. */
  lemma StepInv(g: Gcm, s: Sys, ev: SysEvent)
    requires Ideal(g) && Clocked(s.mon) && SysInv(g, s) && Possible(g, s, ev)
    ensures SysInv(g, Step(g, s, ev))
  {
    hide Handle, Ideal, Clocked, Traced, Sealed, Initial, Stored, ReceiveUpdate, ReceiveInstall, ProtectSocket, Asking, Do, Deliver,
      EncodeToken, KernelUpdate, XorAll, Answering;
    match ev
    case Challenged(challenge) => ChallengedInv(g, s, challenge);
    case Answered(challenge, key, pid) => AnsweredInv(g, s, Answer(challenge, key, pid));
    case Delivered(a) => DeliveredInv(g, s, a);
    case Asked(_, _, _, _, _, _) => AskedInv(g, s, ev);
    case SocketProtected(file, d) => SocketInv(g, s, file, d);
    case UpdateWritten(frame, dt, mem, beyond) => UpdateInv(g, s, frame, dt, mem, beyond);
    case LabelSet(target, frame, w) => LabelSetInv(g, s, target, frame, w);
    case GetToken(pid, nonce, iv, id) =>
      var frame := Seal(g, s.lsm.token, iv, EncodeToken(Token(pid, nonce, id)));
      assert IsToken(g, frame, s.lsm.token, pid);
      if s.registered {
        KernelSeals(g, s, Issued(frame, s.lsm.token, pid));
      }
    case UpdateRead(iv) =>
      var frame := Seal(g, s.lsm.key, iv, KernelUpdate());
      assert IsDump(g, frame, s.lsm.key);
      if s.registered {
        KernelSeals(g, s, Dumped(frame, s.lsm.key));
      }
    case Local(e) => LocalInv(g, s, e);
  }

  // ----- whole runs

  ghost predicate Run(g: Gcm, s: Sys, evs: seq<SysEvent>)
    requires Ideal(g)
    decreases |evs|
  {
    evs == [] || (Clocked(s.mon) && Possible(g, s, evs[0]) && Run(g, Step(g, s, evs[0]), evs[1..]))
  }

  ghost function Final(g: Gcm, s: Sys, evs: seq<SysEvent>): (r: Sys)
    requires Ideal(g) && Run(g, s, evs)
    decreases |evs|
  {
    if evs == [] then s else Final(g, Step(g, s, evs[0]), evs[1..])
  }

  lemma {:induction false} RunInv(g: Gcm, s: Sys, evs: seq<SysEvent>)
    requires Ideal(g) && SysInv(g, s) && Run(g, s, evs)
    ensures SysInv(g, Final(g, s, evs))
    decreases |evs|
  {
    hide Step, SysInv, Possible, Ideal, Clocked;
    if evs != [] {
      StepInv(g, s, evs[0]);
      RunInv(g, Step(g, s, evs[0]), evs[1..]);
    }
  }

  /** What the monitor did between two states of a run. */
  function Since(s: Sys, t: Sys): (es: seq<Event>)
    requires s.trace <= t.trace
  {
    t.trace[|s.trace|..]
  }

  function RecordsOf(es: seq<Entry>): (r: set<Record>) {
    set e | e in es :: RecordOf(e)
  }

  predicate Extends(s: Sys, t: Sys) {
    t.start == s.start && s.trace <= t.trace
  }

  lemma ServedExtends(g: Gcm, s: Sys, t: Sys, scope: Scope)
    requires Served(g, s, t, scope)
    ensures Extends(s, t)
  {
  }

  lemma AskedExtends(g: Gcm, s: Sys, ev: SysEvent)
    requires Ideal(g) && Clocked(s.mon) && Possible(g, s, ev) && ev.Asked?
    ensures Extends(s, Step(g, s, ev))
  {
    hide Ideal, Clocked, Handle, AllFair, ParseRequest, Approves, Granted, TokenUnforged, Served;
    var h := Handle(g, s, ev.pid, ev.data, ev.buffer, ev.policy, ev.file, ev.draws).0;
    HandleServed(g, s, ev.pid, ev.data, ev.buffer, ev.policy, ev.file, ev.draws, false);
    if Approves(g, s, ev.pid, ev.data, ev.buffer, ev.policy) {
      ApprovedParses(g, s, ev);
      ServedExtends(g, s, h, ScopeOf(ev.pid, ParseRequest(ev.data).value, ev.file, ev.draws, false));
    }
  }

  lemma UpdateExtends(g: Gcm, s: Sys, ev: SysEvent)
    requires Ideal(g) && Clocked(s.mon) && Possible(g, s, ev) && ev.UpdateWritten?
    ensures Extends(s, Step(g, s, ev))
  {
    hide Ideal, Clocked, Unforged, Served, EntriesRead, Reaches, UpdateKey, InBounds, Store, Xor;
    if s.registered && LongEnough(ev.frame) {
      var es := EntriesRead(g, s.lsm.key, ev.frame, ev.beyond);
      var scope := Scope(RecordsOf(es), None, false);
      StoreServed(g, s, es, ev.dt, ev.mem, scope);
      ServedExtends(g, s, Store(s, es, ev.dt, ev.mem), scope);
    }
  }

  lemma StepExtends(g: Gcm, s: Sys, ev: SysEvent)
    requires Ideal(g) && Clocked(s.mon) && Possible(g, s, ev)
    ensures Extends(s, Step(g, s, ev))
  {
    hide Ideal, Clocked, SendLabel, ReceiveUpdate, Asking, Next, Enabled, Served, Labels.Install, UpdateKey, InstallEntry,
      EncodeToken, KernelUpdate;
    match ev
    case Asked(_, _, _, _, _, _) => AskedExtends(g, s, ev);
    case SocketProtected(file, d) =>
      LabelServed(g, s, file, false, d.(id := PUBLIC), Scope({}, file, false));
      ServedExtends(g, s, ProtectSocket(g, s, file, d), Scope({}, file, false));
    case UpdateWritten(_, _, _, _) => UpdateExtends(g, s, ev);
    case _ =>
  }

  lemma {:induction false} RunExtends(g: Gcm, s: Sys, evs: seq<SysEvent>)
    requires Ideal(g) && Run(g, s, evs)
    ensures Extends(s, Final(g, s, evs))
    decreases |evs|
  {
    hide Step, Possible, Ideal, Clocked;
    if evs != [] {
      StepExtends(g, s, evs[0]);
      RunExtends(g, Step(g, s, evs[0]), evs[1..]);
    }
  }

  /** The steps of the monitor along a run lead from one state to the other. */
  lemma RunSince(g: Gcm, s: Sys, evs: seq<SysEvent>)
    requires Ideal(g) && SysInv(g, s) && Run(g, s, evs)
    ensures var t := Final(g, s, evs);
      s.trace <= t.trace && Runs(s.mon, Since(s, t)) && After(s.mon, Since(s, t)) == t.mon
  {
    hide Run, Final, Runs, After, Ideal, Sealed, Stored, Turned, Early, Initial;
    RunInv(g, s, evs);
    RunExtends(g, s, evs);
    var t := Final(g, s, evs);
    assert s.trace + Since(s, t) == t.trace;
    RunsSplit(s.start, s.trace, Since(s, t));
  }

  /** Everything the monitor does within the system is a run of the monitor, so all that holds of those
      holds here; every record ever stored asks for nothing a hook looks for or was approved, for a process
      with a token, unless the kernel has read past an update; and each end's key is its handshake key
      combined with the updates it has made since. */
  lemma SystemIsMonitored(g: Gcm, s: Sys, evs: seq<SysEvent>)
    requires Ideal(g) && Boot(s) && Run(g, s, evs)
    ensures var t := Final(g, s, evs);
      && Initial(t.start) && Runs(t.start, t.trace) && After(t.start, t.trace) == t.mon && Inv(t.mon)
      && (!t.overrun ==> forall k :: 0 <= k < |t.trace| && t.trace[k].Insert? ==>
          Idle(t.trace[k].record.op) || Approved(t.approvals, t.trace[k].record))
      && (forall a :: a in t.approvals ==> HasToken(t.made, a.pid))
      && t.enclave.key == XorAll(t.enclave.token, t.sent)
      && (t.registered ==> t.lsm.token == t.session && t.lsm.key == XorAll(t.session, t.accepted))
  {
    hide Run, Final, Runs, After, Inv, Ideal, HasToken, XorAll, Approved;
    BootInv(g, s);
    RunInv(g, s, evs);
    InvFromTrace(Final(g, s, evs));
  }

  /** Every ticket in the log was stored by a step of the run. */
  lemma {:induction false} LogOrigin(st: State, es: seq<Event>, gr: Grant) returns (k: nat)
    requires Initial(st) && Runs(st, es) && gr in After(st, es).log
    ensures k < |es| && es[k].Insert?
    ensures es[k].record == Record(gr.pid, gr.ticket.id, gr.ticket.op)
    decreases |es|
  {
    hide Runs, After, Initial;
    if es == [] {
      NoLogInitially(st);
    } else {
      var n := |es| - 1;
      RunsLast(st, es);
      var before := After(st, es[..n]);
      LogStep(before, es[n]);
      if gr in before.log {
        k := LogOrigin(st, es[..n], gr);
      } else {
        k := n;
      }
    }
  }

  lemma NoLogInitially(st: State)
    requires Initial(st)
    ensures Runs(st, []) && After(st, []).log == []
  {
  }

  lemma LogStep(st: State, e: Event)
    requires Enabled(st, e)
    ensures var log := Next(st, e).log;
      log == st.log || (e.Insert? && log == st.log + [Grant(e.record.pid, Ticket(e.record.id, e.record.op, st.now))])
  {
    hide Claiming, OpenFile, PermissionFile, InsertRecord, Housekeep, ShmOutcome, Labels.Install, GrantsOf;
  }

  lemma IdleShares(op: bv16)
    ensures Idle(op) ==> !Shares(op, OP_OPEN) && !Shares(op, OP_PTY) && !Shares(op, OP_SHM)
  {
  }

  /** A request was approved for this process and object that is good for `op`, and the process had been
      given a token. */
  ghost predicate Entitled(s: Sys, pid: Int32, id: Id, op: bv16) {
    exists r :: Approved(s.approvals, r) && r.pid == pid && r.id == id && Shares(r.op, op) && HasToken(s.made, pid)
  }

  lemma ApprovedHasToken(g: Gcm, s: Sys, r: Record)
    requires Sealed(g, s.made, s.approvals) && Approved(s.approvals, r)
    ensures HasToken(s.made, r.pid)
  {
    hide Granted, HasToken;
    var a :| a in s.approvals && Sized(a.req) && r in Granted(a);
    GrantedPid(a);
  }

  /** A recently stored ticket that opens something was approved. */
  lemma RecentIsApproved(g: Gcm, s: Sys, pid: Int32, id: Id)
    requires Initial(s.start) && Traced(s) && Stored(s) && Sealed(g, s.made, s.approvals) && !s.overrun
    requires StoredRecently(s.mon, pid, id, OP_OPEN)
    ensures Entitled(s, pid, id, OP_OPEN)
  {
    hide Runs, After, Initial, Approved, Sealed, HasToken;
    var gr :| gr in s.mon.log && gr.pid == pid && gr.ticket.id == id && Shares(gr.ticket.op, OP_OPEN)
      && s.mon.now - EXPIRY < gr.ticket.stamp <= s.mon.now;
    var k := LogOrigin(s.start, s.trace, gr);
    var r := s.trace[k].record;
    IdleShares(r.op);
    assert Vouched(s.approvals, r);
    ApprovedHasToken(g, s, r);
  }

  /** Grant soundness from end to end: in every run, whatever frames anybody writes and whatever the tree
      loses, a process that gets to open a protected object, or passes the permission hook on it, got a
      ticket for that object less than fifteen seconds before. Unless the kernel has read past an update,
      the enclave had approved a request of that process to open that object, which carried a token the
      kernel had given it. */
  lemma SystemSoundness(g: Gcm, s: Sys, evs: seq<SysEvent>, pid: Int32, file: nat, w: Writes)
    requires Ideal(g) && Boot(s) && Run(g, s, evs)
    requires var st := Final(g, s, evs).mon; pid in st.tasks && pid > 1 && Loaded(st, file)
    ensures
      var t := Final(g, s, evs);
      var st1 := TaskHousekeep(t.mon, pid);
      var l, m := Seen(st1, pid, file, w).0, t.mon.files[file].mem.value;
      && (Protected(st1.tasks[pid], t.mon.files[file], l, pid == t.mon.daemon) && OpenHook(t.mon, pid, file, w).1 != Denied ==>
          !l.anonymous && StoredRecently(t.mon, pid, l.id, OP_OPEN) && (!t.overrun ==> Entitled(t, pid, l.id, OP_OPEN)))
      && (Protected(st1.tasks[pid], t.mon.files[file], m, pid == t.mon.daemon) && PermissionHook(t.mon, pid, file).1 != Denied ==>
          !m.anonymous && StoredRecently(t.mon, pid, m.id, OP_OPEN) && (!t.overrun ==> Entitled(t, pid, m.id, OP_OPEN)))
  {
    hide Run, Final, Runs, After, Initial, Seen, Claiming, OpenHook, PermissionHook, Protected, Boot, Sealed, Stored,
      Entitled, StoredRecently, Turned, Ideal, Early;
    BootInv(g, s);
    RunInv(g, s, evs);
    var t := Final(g, s, evs);
    GrantSoundness(t.start, t.trace, pid, file, w);
    var l, m := Seen(TaskHousekeep(t.mon, pid), pid, file, w).0, t.mon.files[file].mem.value;
    if StoredRecently(t.mon, pid, l.id, OP_OPEN) && !t.overrun {
      RecentIsApproved(g, t, pid, l.id);
    }
    if StoredRecently(t.mon, pid, m.id, OP_OPEN) && !t.overrun {
      RecentIsApproved(g, t, pid, m.id);
    }
  }

  /** Terminal soundness from end to end: in every run, a process that holds the right to a terminal, or for
      which it waits, was granted it, or an ancestor was. Unless the kernel has read past an update, that
      was by a request for a terminal that the enclave had approved, of a process with a token. */
  lemma SystemTerminals(g: Gcm, s: Sys, evs: seq<SysEvent>, pid: Int32) returns (p: Int32, r: Record)
    requires Ideal(g) && Boot(s) && Run(g, s, evs) && HasPty(Final(g, s, evs).mon, pid)
    ensures var t := Final(g, s, evs);
      && PtyFrom(t.trace, pid, p) && r.pid == p && Shares(r.op, OP_PTY)
      && (!t.overrun ==> Approved(t.approvals, r) && HasToken(t.made, p))
  {
    hide Run, Final, Runs, After, Initial, Boot, Sealed, HasToken, Turned, Ideal, HasPty, PtyFrom, Approved, Early;
    BootInv(g, s);
    RunInv(g, s, evs);
    var t := Final(g, s, evs);
    p := TerminalOrigin(t.start, t.trace, pid);
    var k := PtyFromRecord(t.trace, pid, p);
    r := t.trace[k].record;
    IdleShares(r.op);
    if !t.overrun {
      assert Vouched(t.approvals, r);
      ApprovedHasToken(g, t, r);
    }
  }

  // ----- taint

  /** Taint persistence from end to end: along every run of the system, every process and segment that
      grants, forks and shared memory connect to a tainted one is in realm, and no other; and so is every
      file such a process creates or that is created in a directory in realm, until it is declassified,
      if its in_realm write succeeds. */
  lemma SystemTaint(g: Gcm, s: Sys, evs: seq<SysEvent>, m: Marked)
    requires Ideal(g) && SysInv(g, s) && Run(g, s, evs) && Reached(s.mon, Unfiled(m))
    ensures var t := Final(g, s, evs);
      && s.trace <= t.trace && Runs(s.mon, Since(s, t))
      && Reached(t.mon, Unfiled(Spreads(s.mon, m, Since(s, t))))
      && (Justified(s.mon, m) ==> Justified(t.mon, Spreads(s.mon, m, Since(s, t))))
      && (Reached(s.mon, m) && MarksWritten(s.mon, Since(s, t)) ==> Reached(t.mon, Spreads(s.mon, m, Since(s, t))))
  {
    hide Run, Final, Runs, After, Ideal, SysInv, Reached, Spreads, MarksWritten, Unfiled, Justified;
    RunSince(g, s, evs);
    var es := Since(s, Final(g, s, evs));
    TaintPersistence(s.mon, m, es);
    if Justified(s.mon, m) {
      RunJustified(s.mon, m, es);
    }
    if Reached(s.mon, m) && MarksWritten(s.mon, es) {
      FileTaintPersistence(s.mon, m, es);
    }
  }

  // ----- labels

  /** The attribute writes that the label of `file` depends on succeed, and a label that opens is one that
      keeps memory and disk together. */
  ghost predicate Careful(g: Gcm, s: Sys, ev: SysEvent, file: nat, named: bool)
    requires Ideal(g) && Clocked(s.mon) && Possible(g, s, ev)
  {
    match ev
    case Asked(_, _, _, _, f, draws) => f == Some(file) ==> AllWritten(draws)
    case SocketProtected(f, d) => f == Some(file) ==> d.w.realm
    case LabelSet(target, frame, w) =>
      s.registered && InstallEntry(g, s.lsm.key, frame).Some? ==>
        var e := InstallEntry(g, s.lsm.key, frame).value;
        LabelSafe(s.mon, Event.Install(target, e.op, e.id, w), file, named)
    case Local(e) => LabelSafe(s.mon, e, file, named)
    case _ => true
  }

  ghost predicate CarefulRun(g: Gcm, s: Sys, evs: seq<SysEvent>, file: nat, named: bool)
    requires Ideal(g) && Run(g, s, evs)
    decreases |evs|
  {
    evs == [] || (Careful(g, s, evs[0], file, named) && CarefulRun(g, Step(g, s, evs[0]), evs[1..], file, named))
  }

  ghost predicate Safe(s: Sys, file: nat, named: bool) {
    Traced(s) && SafeRun(s.start, s.trace, file, named)
  }

  /** A step that keeps the label of `file` in every state. */
  predicate Innocent(e: Event, file: nat) {
    !e.Create? && (e.Install? && e.file == file ==> Declassifies(e.op) || (Registers(e.op) && e.w.realm))
  }

  lemma InnocentSafe(st: State, e: Event, file: nat, named: bool)
    requires Enabled(st, e) && Innocent(e, file)
    ensures LabelSafe(st, e, file, named)
  {
  }

  lemma {:induction false} InnocentRun(st: State, es: seq<Event>, file: nat, named: bool)
    requires Runs(st, es) && forall e :: e in es ==> Innocent(e, file)
    ensures SafeRun(st, es, file, named)
    decreases |es|
  {
    hide LabelSafe, Next, Enabled, Innocent;
    if es != [] {
      assert es[0] in es;
      InnocentSafe(st, es[0], file, named);
      InnocentRun(Next(st, es[0]), es[1..], file, named);
    }
  }

  lemma {:induction false} SafeConcat(st: State, a: seq<Event>, b: seq<Event>, file: nat, named: bool)
    requires Runs(st, a) && Runs(st, a + b) && SafeRun(st, a, file, named)
    requires Runs(After(st, a), b) && SafeRun(After(st, a), b, file, named)
    ensures SafeRun(st, a + b, file, named)
    decreases |a|
  {
    hide LabelSafe, Next, Enabled;
    if a == [] {
      assert a + b == b;
    } else {
      assert (a + b)[1..] == a[1..] + b && (a + b)[0] == a[0];
      SafeConcat(Next(st, a[0]), a[1..], b, file, named);
    }
  }

  /** What happens within a scope is innocent of other files, and of this one if its writes succeed. */
  lemma ServedSafe(g: Gcm, s: Sys, t: Sys, scope: Scope, file: nat, named: bool)
    requires Served(g, s, t, scope) && Safe(s, file, named) && (scope.file == Some(file) ==> scope.written)
    ensures Safe(t, file, named)
  {
    hide Agree, Turned, OwnFrame, Runs, After, SafeRun;
    var es := Since(s, t);
    assert s.trace + es == t.trace;
    RunsSplit(s.start, s.trace, es);
    forall e | e in es
      ensures Innocent(e, file)
    {
      var k :| 0 <= k < |es| && es[k] == e;
      assert Allowed(t.trace[|s.trace| + k], scope);
    }
    InnocentRun(s.mon, es, file, named);
    SafeConcat(s.start, s.trace, es, file, named);
  }

  lemma DoSafe(s: Sys, e: Event, file: nat, named: bool)
    requires Safe(s, file, named) && Enabled(s.mon, e) && LabelSafe(s.mon, e, file, named)
    ensures Safe(Do(s, e), file, named)
  {
    hide Runs, After, SafeRun, LabelSafe, Next, Enabled;
    DoTraced(s, e);
    RunsOne(s.mon, e);
    OneSafe(s.mon, e, file, named);
    SafeConcat(s.start, s.trace, [e], file, named);
  }

  lemma OneSafe(st: State, e: Event, file: nat, named: bool)
    requires Enabled(st, e) && LabelSafe(st, e, file, named) && Runs(st, [e])
    ensures SafeRun(st, [e], file, named)
  {
    hide LabelSafe, Next, Enabled;
    assert [e][1..] == [];
    assert SafeRun(Next(st, e), [], file, named);
  }

  lemma SameSafe(s: Sys, t: Sys, file: nat, named: bool)
    requires Safe(s, file, named) && t.mon == s.mon && t.trace == s.trace && t.start == s.start
    ensures Safe(t, file, named)
  {
  }

  lemma AskedSafe(g: Gcm, s: Sys, ev: SysEvent, file: nat, named: bool)
    requires Ideal(g) && Clocked(s.mon) && Possible(g, s, ev) && ev.Asked?
    requires Safe(s, file, named) && Careful(g, s, ev, file, named)
    ensures Safe(Step(g, s, ev), file, named)
  {
    hide Ideal, Clocked, Handle, AllFair, ParseRequest, Approves, Granted, TokenUnforged, Safe, Served, AllWritten;
    var h := Handle(g, s, ev.pid, ev.data, ev.buffer, ev.policy, ev.file, ev.draws).0;
    HandleServed(g, s, ev.pid, ev.data, ev.buffer, ev.policy, ev.file, ev.draws, ev.file == Some(file));
    if Approves(g, s, ev.pid, ev.data, ev.buffer, ev.policy) {
      ApprovedParses(g, s, ev);
      ServedSafe(g, s, h, ScopeOf(ev.pid, ParseRequest(ev.data).value, ev.file, ev.draws, ev.file == Some(file)), file, named);
    }
    SameSafe(h, Step(g, s, ev), file, named);
  }

  lemma SocketSafe(g: Gcm, s: Sys, f: Option<nat>, d: Draw, file: nat, named: bool)
    requires Ideal(g) && Clocked(s.mon) && Fair(d) && Safe(s, file, named) && (f == Some(file) ==> d.w.realm)
    ensures Safe(Secretly(s, ProtectSocket(g, s, f, d)), file, named)
  {
    hide Ideal, Clocked, SendLabel, Served, Safe;
    var h, scope := ProtectSocket(g, s, f, d), Scope({}, f, f == Some(file));
    LabelServed(g, s, f, false, d.(id := PUBLIC), scope);
    ServedSafe(g, s, h, scope, file, named);
    SameSafe(h, Secretly(s, h), file, named);
  }

  lemma UpdateSafe(g: Gcm, s: Sys, ev: SysEvent, file: nat, named: bool)
    requires Ideal(g) && Clocked(s.mon) && Possible(g, s, ev) && ev.UpdateWritten? && Safe(s, file, named)
    ensures Safe(Step(g, s, ev), file, named)
  {
    hide Ideal, Clocked, Unforged, Safe, Served, EntriesRead, Reaches, UpdateKey, InBounds, Store, Xor;
    if s.registered && LongEnough(ev.frame) {
      var es := EntriesRead(g, s.lsm.key, ev.frame, ev.beyond);
      var s1, scope := Store(s, es, ev.dt, ev.mem), Scope(RecordsOf(es), None, false);
      StoreServed(g, s, es, ev.dt, ev.mem, scope);
      ServedSafe(g, s, s1, scope, file, named);
      SameSafe(s1, Step(g, s, ev), file, named);
    }
  }

  lemma LabelSetSafe(g: Gcm, s: Sys, target: nat, frame: seq<bv8>, w: Writes, file: nat, named: bool)
    requires Ideal(g) && Clocked(s.mon) && Possible(g, s, LabelSet(target, frame, w)) && Safe(s, file, named)
    requires Careful(g, s, LabelSet(target, frame, w), file, named)
    ensures Safe(ReceiveInstall(g, s, target, frame, w).0, file, named)
  {
    hide Ideal, Clocked, Unforged, Traced, Safe, UpdateKey, EntryAt, Xor, Labels.Install, Next, LabelSafe;
    if s.registered && InstallEntry(g, s.lsm.key, frame).Some? {
      var e := InstallEntry(g, s.lsm.key, frame).value;
      var s1 := Do(s, Event.Install(target, e.op, e.id, w));
      DoSafe(s, Event.Install(target, e.op, e.id, w), file, named);
      SameSafe(s1, ReceiveInstall(g, s, target, frame, w).0, file, named);
    }
  }

  lemma StepSafe(g: Gcm, s: Sys, ev: SysEvent, file: nat, named: bool)
    requires Ideal(g) && Clocked(s.mon) && Safe(s, file, named) && Possible(g, s, ev) && Careful(g, s, ev, file, named)
    ensures Safe(Step(g, s, ev), file, named)
  {
    hide Handle, Ideal, Clocked, Safe, ReceiveInstall, ReceiveUpdate, Asking, ProtectSocket, Next, EncodeToken, KernelUpdate,
      LabelSafe, Enabled;
    match ev
    case Asked(_, _, _, _, _, _) => AskedSafe(g, s, ev, file, named);
    case SocketProtected(f, d) => SocketSafe(g, s, f, d, file, named);
    case UpdateWritten(_, _, _, _) => UpdateSafe(g, s, ev, file, named);
    case LabelSet(target, frame, w) => LabelSetSafe(g, s, target, frame, w, file, named);
    case Delivered(a) => DeliveredSafe(s, a, file, named);
    case Local(e) => DoSafe(s, e, file, named);
    case _ => SameSafe(s, Step(g, s, ev), file, named);
  }

  lemma DeliveredSafe(s: Sys, a: Challenge, file: nat, named: bool)
    requires Safe(s, file, named)
    ensures Safe(Deliver(s, a), file, named)
  {
    hide Safe, Next;
    if a.signature == SIGNATURE && a.challenge == s.challenge {
      DoSafe(s, Register(a.pid), file, named);
      SameSafe(Do(s, Register(a.pid)), Deliver(s, a), file, named);
    }
  }

  lemma {:induction false} RunSafe(g: Gcm, s: Sys, evs: seq<SysEvent>, file: nat, named: bool)
    requires Ideal(g) && Safe(s, file, named) && Run(g, s, evs) && CarefulRun(g, s, evs, file, named)
    ensures Safe(Final(g, s, evs), file, named)
    decreases |evs|
  {
    hide Step, Safe, Possible, Ideal, Clocked, Careful;
    if evs != [] {
      StepSafe(g, s, evs[0], file, named);
      RunSafe(g, Step(g, s, evs[0]), evs[1..], file, named);
    }
  }

  /** Label coherence from end to end: in every run whose steps are careful with this one file, whatever
      frames are written, its loaded label has the realm flag that a fresh read of the attributes would
      give, and the identifier too if that was written each time. */
  lemma SystemLabels(g: Gcm, s: Sys, evs: seq<SysEvent>, file: nat)
    requires Ideal(g) && Boot(s) && Run(g, s, evs) && CarefulRun(g, s, evs, file, false)
    requires var st := Final(g, s, evs).mon; Loaded(st, file) && OnDisk(st.files[file])
    ensures
      var f := Final(g, s, evs).mon.files[file];
      var l, read := f.mem.value, Load(FRESH, f.disk);
      && !l.needsUpdate && (l.checked ==> l.inRealm == read.inRealm)
      && (CarefulRun(g, s, evs, file, true) ==>
        && Coherent(l, f.disk)
        && (l.checked && l.inRealm && !l.anonymous ==> !read.anonymous && l.id == read.id))
  {
    hide Run, Final, CarefulRun, Runs, After, SafeRun, Ideal, Sealed, Stored, Turned, Initial, Coherent, Load, OnDisk, Early;
    BootInv(g, s);
    BootSafe(s, file, false);
    BootSafe(s, file, true);
    RunInv(g, s, evs);
    RunSafe(g, s, evs, file, false);
    if CarefulRun(g, s, evs, file, true) {
      RunSafe(g, s, evs, file, true);
    }
    var t := Final(g, s, evs);
    LabelCoherence(t.start, t.trace, file);
  }

  lemma BootSafe(s: Sys, file: nat, named: bool)
    requires Boot(s)
    ensures Safe(s, file, named)
  {
  }
}
