/** What one exchange between the enclave and the kernel keeps: both ends hold the same keys, the
    monitor moves only by its own steps, and tickets are stored only for the process that asked. */
module Protocol {
  import opened Bytes
  import opened Options
  import opened Tickets
  import opened Labels
  import opened Frames
  import opened Wire
  import opened Lsm
  import opened Monitor
  import opened MonitorRuns
  import opened Guarantees
  import opened Citadel

  // ----- exclusive or over a whole session

  function XorAll(k: Key, us: seq<Key>): (r: Key) {
    if us == [] then k else Xor(XorAll(k, us[..|us| - 1]), us[|us| - 1])
  }

  lemma {:induction false} XorAllSplit(k: Key, us: seq<Key>)
    ensures XorAll(k, us) == Xor(k, XorAll(Zeros(16), us))
  {
    if us == [] {
      XorZero(k);
    } else {
      var n := |us| - 1;
      XorAllSplit(k, us[..n]);
      XorAssoc(k, XorAll(Zeros(16), us[..n]), us[n]);
    }
  }

  lemma XorAllAppend(k: Key, us: seq<Key>, u: Key)
    ensures XorAll(k, us + [u]) == Xor(XorAll(k, us), u)
  {
    assert (us + [u])[..|us|] == us;
  }

  /** A message accepted under `key` opens again, after the key updates `us` that it began, exactly
      when those updates cancel out. */
  lemma ReplayExact(g: Gcm, key: Key, iv: Iv, plain: seq<bv8>, us: seq<Key>)
    requires Ideal(g)
    ensures Unseal(g, XorAll(key, us), Seal(g, key, iv, plain)).Some? <==> XorAll(Zeros(16), us) == Zeros(16)
  {
    XorAllSplit(key, us);
    XorCancel(key, XorAll(Zeros(16), us));
    OpenSealed(g, key, XorAll(key, us), iv, plain);
  }

  // ----- what is kept

  /** Both ends hold the same keys: the token key of the handshake, and the handshake key combined
      with every update accepted since. */
  predicate Agree(s: Sys) {
    && s.registered && s.enclave == s.lsm
    && s.lsm.token == s.session
    && s.lsm.key == XorAll(s.session, s.accepted)
  }

  /** Each end's message key is its token key combined with every update that end has made since. */
  predicate Turned(s: Sys) {
    && s.enclave.key == XorAll(s.enclave.token, s.sent)
    && (s.registered ==> s.lsm.token == s.session && s.lsm.key == XorAll(s.session, s.accepted))
  }

  /** The monitor's state is what its trace leads to. */
  ghost predicate Traced(s: Sys) {
    Runs(s.start, s.trace) && After(s.start, s.trace) == s.mon
  }

  lemma SameTrace(s: Sys, t: Sys)
    requires t.mon == s.mon && t.trace == s.trace && t.start == s.start
    ensures Traced(s) ==> Traced(t)
  {
  }

  lemma DoTraced(s: Sys, e: Event)
    requires Traced(s) && Enabled(s.mon, e)
    ensures Traced(Do(s, e))
  {
    hide Runs, After, Next, Enabled;
    RunsOne(s.mon, e);
    RunsConcat(s.start, s.trace, [e]);
  }

  /** Operations that no hook looks for. */
  predicate Idle(op: bv16) {
    op == 0 || op == OP_REGISTER || op == OP_DECLASSIFY
  }

  /** The frame is what its record in the history says. */
  ghost predicate Honest(g: Gcm, m: Made) {
    match m
    case Sent(frame, key, e) => IsUpdate(g, frame, key, e)
    case Issued(frame, key, pid) => IsToken(g, frame, key, pid)
    case Dumped(frame, key) => IsDump(g, frame, key)
  }

  ghost predicate IsUpdate(g: Gcm, frame: seq<bv8>, key: Key, e: Entry) {
    exists iv: Iv, keyUpdate: Key, pad: bv16 :: frame == Seal(g, key, iv, EncodeUpdate(keyUpdate, e, pad))
  }

  ghost predicate IsToken(g: Gcm, frame: seq<bv8>, key: Key, pid: bv32) {
    exists iv: Iv, nonce: seq<bv8>, id: Id :: |nonce| == 8 && frame == Seal(g, key, iv, EncodeToken(Token(pid, nonce, id)))
  }

  ghost predicate IsDump(g: Gcm, frame: seq<bv8>, key: Key) {
    exists iv: Iv :: frame == Seal(g, key, iv, KernelUpdate())
  }

  /** What serving a request may touch: the records it may store, the file it may label, and whether the
      in_realm writes of those labels succeed. */
  datatype Scope = Scope(records: set<Record>, file: Option<nat>, written: bool)

  /** A frame the enclave sealed while serving a request. */
  ghost predicate OwnFrame(g: Gcm, m: Made, scope: Scope) {
    m.Sent? && Honest(g, m) && (RecordOf(m.e) in scope.records || Idle(m.e.op))
  }

  /** A step of the monitor that serving a request may cause. */
  predicate Allowed(e: Event, scope: Scope) {
    match e
    case Tick(_) => true
    case Insert(r, _) => r in scope.records
    case Install(file, op, _, w) =>
      Some(file) == scope.file && (Declassifies(op) || Registers(op)) && (scope.written ==> w.realm)
    case _ => false
  }

  predicate Within(trace: seq<Event>, n: nat, scope: Scope) {
    forall k :: n <= k < |trace| ==> Allowed(trace[k], scope)
  }

  /** What the enclave does within a scope takes the system from `s` to `t`: keys stay in step, the monitor
      only moves by its own steps, and whatever is stored, labelled or sealed is in the scope. A kernel
      that is not registered does not notice. */
  ghost predicate Served(g: Gcm, s: Sys, t: Sys, scope: Scope) {
    && (Agree(s) ==> Agree(t)) && (Turned(s) ==> Turned(t)) && (Traced(s) ==> Traced(t))
    && t.start == s.start && t.registered == s.registered && t.challenge == s.challenge && t.session == s.session
    && t.answer == s.answer && t.answers == s.answers && t.approvals == s.approvals && t.overrun == s.overrun
    && t.enclave.token == s.enclave.token && t.lsm.token == s.lsm.token
    && s.trace <= t.trace && Within(t.trace, |s.trace|, scope)
    && (!s.registered ==> t.mon == s.mon && t.trace == s.trace)
    && s.made <= t.made && (forall m :: m in t.made && m !in s.made ==> OwnFrame(g, m, scope))
  }

  lemma ServedTwice(g: Gcm, s: Sys, t: Sys, u: Sys, scope: Scope)
    requires Served(g, s, t, scope) && Served(g, t, u, scope)
    ensures Served(g, s, u, scope)
  {
    hide Agree, Turned, Traced, OwnFrame, Allowed;
    forall k | |s.trace| <= k < |u.trace|
      ensures Allowed(u.trace[k], scope)
    {
      if k < |t.trace| {
        assert u.trace[k] == t.trace[k];
      }
    }
  }

  lemma ServedNow(g: Gcm, s: Sys, scope: Scope)
    ensures Served(g, s, s, scope)
  {
    hide Agree, Turned, Traced, OwnFrame, Allowed;
  }

  // ----- one message

  lemma SealingServed(g: Gcm, s: Sys, e: Entry, d: Draw, scope: Scope)
    requires RecordOf(e) in scope.records || Idle(e.op)
    ensures Served(g, s, Sealing(g, s, e, d), scope)
  {
    hide Runs, After, EncodeUpdate, Allowed;
    assert IsUpdate(g, TicketFrame(g, s, e, d), s.enclave.key, e);
  }

  lemma StoreOne(g: Gcm, s: Sys, e: Entry, dt: nat, mem: Memory, scope: Scope)
    requires Clocked(s.mon) && dt > 0 && RecordOf(e) in scope.records && s.registered
    ensures
      var s1 := Do(s, Tick(dt));
      var t := Do(s1, Insert(RecordOf(e), mem));
      Clocked(t.mon) && Served(g, s, t, scope)
  {
    hide Runs, After, Traced, InsertRecord;
    var s1 := Do(s, Tick(dt));
    if Traced(s) {
      DoTraced(s, Tick(dt));
      DoTraced(s1, Insert(RecordOf(e), mem));
    }
  }

  /** Storing records changes the monitor alone. */
  lemma {:induction false} StoreServed(g: Gcm, s: Sys, es: seq<Entry>, dt: nat, mem: Memory, scope: Scope)
    requires Clocked(s.mon) && dt > 0 && s.registered && forall e :: e in es ==> RecordOf(e) in scope.records
    ensures Served(g, s, Store(s, es, dt, mem), scope)
    decreases |es|
  {
    hide Served, InsertRecord;
    ServedNow(g, s, scope);
    if es != [] {
      StoreOne(g, s, es[0], dt, mem, scope);
      var t := Do(Do(s, Tick(dt)), Insert(RecordOf(es[0]), mem));
      StoreServed(g, t, es[1..], dt, mem, scope);
      ServedTwice(g, s, t, Store(s, es, dt, mem), scope);
    }
  }

  /** Both ends turn their key with the same value. */
  lemma TurnServed(g: Gcm, s: Sys, u: Key, scope: Scope)
    ensures Served(g, s, TurnEnclave(Turn(s, u), u), scope)
  {
    hide Traced, OwnFrame, Xor, XorAll, Allowed;
    XorAllAppend(s.session, s.accepted, u);
    XorAllAppend(s.enclave.token, s.sent, u);
    SameTrace(s, TurnEnclave(Turn(s, u), u));
  }

  /** A message under a key the kernel does not hold: only the enclave's key moves. */
  lemma MissedServed(g: Gcm, s: Sys, u: Key, scope: Scope)
    requires s.enclave.key != s.lsm.key
    ensures Served(g, s, TurnEnclave(Turn(s, Zeros(16)), u), scope)
  {
    hide Traced, OwnFrame, Xor, XorAll, Allowed;
    XorAllAppend(s.session, s.accepted, Zeros(16));
    XorAllAppend(s.enclave.token, s.sent, u);
    XorZero(s.lsm.key);
    SameTrace(s, TurnEnclave(Turn(s, Zeros(16)), u));
  }

  lemma UnregisteredServed(g: Gcm, s: Sys, u: Key, scope: Scope)
    requires !s.registered
    ensures Served(g, s, TurnEnclave(s, u), scope)
  {
    hide Traced, OwnFrame, Xor, XorAll, Allowed;
    XorAllAppend(s.enclave.token, s.sent, u);
    SameTrace(s, TurnEnclave(s, u));
  }

  /** The kernel reads the enclave's frame as sent when the keys agree, and as nothing otherwise. */
  lemma FrameRead(g: Gcm, s: Sys, e: Entry, d: Draw)
    requires Ideal(g)
    ensures var f := TicketFrame(g, s, e, d);
      && LongEnough(f) && InBounds(g, s.lsm.key, f)
      && (s.lsm.key == s.enclave.key ==>
        UpdateEntries(g, s.lsm.key, f) == [e] && UpdateKey(g, s.lsm.key, f) == d.keyUpdate)
      && (s.lsm.key != s.enclave.key ==>
        UpdateEntries(g, s.lsm.key, f) == [] && UpdateKey(g, s.lsm.key, f) == Zeros(16))
  {
    hide EncodeUpdate, EntriesFrom;
    TicketInBounds(g, s, e, d);
    SealedUpdate(g, s.enclave.key, d.iv, d.keyUpdate, e, d.pad);
    if s.lsm.key != s.enclave.key {
      OpenSealed(g, s.enclave.key, s.lsm.key, d.iv, EncodeUpdate(d.keyUpdate, e, d.pad));
      InertUpdate(g, s.lsm.key, TicketFrame(g, s, e, d));
    }
  }

  lemma TicketServed(g: Gcm, s: Sys, pid: bv32, id: Id, op: bv16, d: Draw, scope: Scope)
    requires Ideal(g) && Clocked(s.mon) && Fair(d) && Record(Signed(pid), id, op) in scope.records
    ensures Served(g, s, SendTicket(g, s, pid, id, op, d).0, scope)
  {
    hide Served, UpdateEntries, EntriesRead, UpdateKey, InBounds, Reaches, Ideal, TicketFrame, EncodeUpdate, Clocked, Store;
    var e := Entry(pid, id, op);
    var s0 := Sealing(g, s, e, d);
    SealingServed(g, s, e, d, scope);
    if d.written {
      var f := TicketFrame(g, s, e, d);
      TicketInBounds(g, s, e, d);
      ReadWithin(g, s.lsm.key, f, []);
      var t := SendTicket(g, s, pid, id, op, d).0;
      if !s.registered {
        UnregisteredServed(g, s0, d.keyUpdate, scope);
        ServedTwice(g, s, s0, t, scope);
      } else {
        FrameRead(g, s, e, d);
        var es := UpdateEntries(g, s.lsm.key, f);
        var s1 := Store(s0, es, d.dt, d.mem);
        StoreServed(g, s0, es, d.dt, d.mem, scope);
        ServedTwice(g, s, s0, s1, scope);
        if s.lsm.key == s.enclave.key {
          TurnServed(g, s1, d.keyUpdate, scope);
        } else {
          MissedServed(g, s1, d.keyUpdate, scope);
        }
        ServedTwice(g, s, s1, t, scope);
      }
    }
  }

  /** An installation by itself: the monitor takes one step, nothing is stored. */
  lemma InstallServed(g: Gcm, s: Sys, e: Event, scope: Scope)
    requires e.Install? && Enabled(s.mon, e) && Allowed(e, scope) && s.registered
    ensures var t := Do(s, e); Served(g, s, t, scope) && t == s.(mon := t.mon, trace := t.trace)
  {
    hide Runs, After, Traced, Labels.Install;
    if Traced(s) {
      DoTraced(s, e);
    }
  }

  lemma LabelServed(g: Gcm, s: Sys, file: Option<nat>, declassify: bool, d: Draw, scope: Scope)
    requires Ideal(g) && Clocked(s.mon) && Fair(d) && scope.file == file && (scope.written ==> d.w.realm)
    ensures Served(g, s, SendLabel(g, s, file, declassify, d).0, scope)
  {
    hide Served, Labels.Install, UpdateKey, Ideal, EncodeUpdate, TicketFrame, RecordInBounds, InstallEntry, Clocked, Next;
    var op := if declassify then OP_DECLASSIFY else OP_REGISTER;
    var e := Entry(0, d.id, op);
    var s0 := Sealing(g, s, e, d);
    SealingServed(g, s, e, d, scope);
    if file.Some? && Loaded(s.mon, file.value) && s.registered {
      TicketInBounds(g, s, e, d);
      if s.lsm.key == s.enclave.key {
        FrameRead(g, s, e, d);
        assert Declassifies(OP_DECLASSIFY) && Registers(OP_REGISTER);
        var ev := Event.Install(file.value, op, d.id, d.w);
        var s1 := Do(s0, ev);
        InstallServed(g, s0, ev, scope);
        ServedTwice(g, s, s0, s1, scope);
        TurnServed(g, s1, d.keyUpdate, scope);
        ServedTwice(g, s, s1, TurnEnclave(Turn(s1, d.keyUpdate), d.keyUpdate), scope);
      }
    }
  }

  // ----- one request

  lemma ClaimServed(g: Gcm, s: Sys, pid: bv32, op: bv16, file: Option<nat>, label_: Draw, open: Draw, scope: Scope)
    requires Ideal(g) && Clocked(s.mon) && Fair(label_) && Fair(open)
    requires scope.file == file && (scope.written ==> label_.w.realm)
    requires Wants(op, OP_OPEN) ==> Record(Signed(pid), label_.id, OP_OPEN) in scope.records
    ensures Served(g, s, ClaimStep(g, s, pid, op, file, label_, open).0, scope)
  {
    hide Served, Ideal, Clocked, SendTicket, SendLabel, Wants;
    LabelServed(g, s, file, false, label_, scope);
    var (t, ok) := SendLabel(g, s, file, false, label_);
    if Wants(op, OP_OPEN) {
      TicketServed(g, t, pid, label_.id, OP_OPEN, open, scope);
      ServedTwice(g, s, t, SendTicket(g, t, pid, label_.id, OP_OPEN, open).0, scope);
    }
  }

  lemma OpenServed(g: Gcm, s: Sys, pid: bv32, req: Request, file: Option<nat>, label_: Draw, open: Draw, result: Response,
                   scope: Scope)
    requires Ideal(g) && Clocked(s.mon) && Fair(label_) && Fair(open) && Sized(req)
    requires scope.file == file && (scope.written ==> label_.w.realm)
    requires Record(Signed(pid), if Inducts(req) then label_.id else NamedId(req), req.op) in scope.records
    ensures Served(g, s, OpenStep(g, s, pid, req, file, label_, open, result).0, scope)
  {
    hide Served, Ideal, Clocked, SendTicket, SendLabel;
    ServedNow(g, s, scope);
    LabelServed(g, s, file, false, label_, scope);
    var (t, ok) := if Inducts(req) then SendLabel(g, s, file, false, label_) else (s, true);
    var id := if Inducts(req) then label_.id else NamedId(req);
    TicketServed(g, t, pid, id, req.op, open, scope);
    ServedTwice(g, s, t, SendTicket(g, t, pid, id, req.op, open).0, scope);
  }

  lemma SubjectServed(g: Gcm, s: Sys, r: (Sys, Response), pid: bv32, req: Request, d: Draw, wanted: bool, scope: Scope)
    requires Ideal(g) && Clocked(r.0.mon) && Fair(d) && Served(g, s, r.0, scope)
    requires wanted ==> Record(Signed(pid), req.subject, req.op) in scope.records
    ensures Served(g, s, (if wanted then SubjectStep(g, r.0, pid, req, d, r.1) else r).0, scope)
  {
    hide Served, Ideal, Clocked, SendTicket;
    if wanted {
      TicketServed(g, r.0, pid, req.subject, req.op, d, scope);
      ServedTwice(g, s, r.0, SubjectStep(g, r.0, pid, req, d, r.1).0, scope);
    }
  }

  /** The in_realm writes of all labels succeed. */
  ghost predicate AllWritten(draws: Draws) {
    forall i :: draws(i).w.realm
  }

  /** What a request is approved for. */
  function ApprovalOf(pid: bv32, req: Request, draws: Draws): (a: Approval) {
    Approval(Signed(pid), req, draws(0).id, draws(2).id)
  }

  function ScopeOf(pid: bv32, req: Request, file: Option<nat>, draws: Draws, written: bool): (scope: Scope)
    requires Sized(req)
  {
    Scope(Granted(ApprovalOf(pid, req, draws)), file, written)
  }

  /** Clearing the OPEN bit leaves the others. */
  lemma RestBits(op: bv16)
    ensures Wants(Rest(op), OP_PTY | OP_SOCKET) == Wants(op, OP_PTY | OP_SOCKET)
    ensures Wants(Rest(op), OP_SHM) == Wants(op, OP_SHM)
    ensures Wants(Rest(op), OP_DECLASSIFY) == Wants(op, OP_DECLASSIFY)
    ensures Wants(Rest(op), OP_OPEN) <==> Wants(op, OP_OPEN) && !Wants(op, OP_CLAIM)
  {
  }

  lemma FileServed(g: Gcm, s: Sys, pid: bv32, req: Request, file: Option<nat>, draws: Draws, written: bool)
    requires Ideal(g) && Clocked(s.mon) && AllFair(draws) && (written ==> AllWritten(draws)) && Sized(req)
    ensures Served(g, s, FileStep(g, s, pid, req, file, draws).0, ScopeOf(pid, req, file, draws, written))
  {
    hide Served, Ideal, Clocked, ClaimStep, OpenStep, Wants, Rest, Inducts, NamedId;
    var scope := ScopeOf(pid, req, file, draws, written);
    RestBits(req.op);
    ServedNow(g, s, scope);
    if Wants(req.op, OP_CLAIM) {
      ClaimServed(g, s, pid, req.op, file, draws(0), draws(1), scope);
    }
    var r1 := if Wants(req.op, OP_CLAIM) then ClaimStep(g, s, pid, req.op, file, draws(0), draws(1)) else (s, APPROVED);
    if Wants(Rest(req.op), OP_OPEN) {
      OpenServed(g, r1.0, pid, req, file, draws(2), draws(3), r1.1, scope);
      ServedTwice(g, s, r1.0, OpenStep(g, r1.0, pid, req, file, draws(2), draws(3), r1.1).0, scope);
    }
  }

  lemma CoreServed(g: Gcm, s: Sys, pid: bv32, req: Request, file: Option<nat>, draws: Draws, written: bool)
    requires Ideal(g) && Clocked(s.mon) && AllFair(draws) && (written ==> AllWritten(draws)) && Sized(req)
    ensures Served(g, s, Core(g, s, pid, req, file, draws).0, ScopeOf(pid, req, file, draws, written))
  {
    hide Served, Ideal, Clocked, FileStep, SubjectStep, SendLabel, Wants, Rest, Inducts, NamedId;
    var scope := ScopeOf(pid, req, file, draws, written);
    RestBits(req.op);
    FileServed(g, s, pid, req, file, draws, written);
    var op, r2 := Rest(req.op), FileStep(g, s, pid, req, file, draws);
    SubjectServed(g, s, r2, pid, req, draws(4), Wants(op, OP_PTY | OP_SOCKET), scope);
    var r3 := if Wants(op, OP_PTY | OP_SOCKET) then SubjectStep(g, r2.0, pid, req, draws(4), r2.1) else r2;
    SubjectServed(g, s, r3, pid, req, draws(5), Wants(op, OP_SHM), scope);
    var r4 := if Wants(op, OP_SHM) then SubjectStep(g, r3.0, pid, req, draws(5), r3.1) else r3;
    LabelServed(g, r4.0, file, true, draws(6), scope);
    ServedTwice(g, s, r4.0, DeclassifyStep(g, r4.0, file, draws(6), r4.1).0, scope);
  }

  /** Any request is served within what it may be granted; one that is not approved changes nothing. */
  lemma HandleServed(g: Gcm, s: Sys, pid: bv32, data: seq<bv8>, buffer: bool, policy: Response, file: Option<nat>,
                     draws: Draws, written: bool)
    requires Ideal(g) && Clocked(s.mon) && AllFair(draws) && (written ==> AllWritten(draws))
    ensures var t := Handle(g, s, pid, data, buffer, policy, file, draws).0;
      && (ParseRequest(data).Some? ==> Served(g, s, t, ScopeOf(pid, ParseRequest(data).value, file, draws, written)))
      && (!Approves(g, s, pid, data, buffer, policy) ==> t == s)
  {
    hide Served, Ideal, Clocked, Core, TokenPid;
    var req := ParseRequest(data);
    if req.Some? {
      ServedNow(g, s, ScopeOf(pid, req.value, file, draws, written));
      CoreServed(g, s, pid, req.value, file, draws, written);
    }
  }

  // ----- the record loop, in place and by steps

  lemma {:induction false} StoreSplit(s: Sys, a: seq<Entry>, e: Entry, dt: nat, mem: Memory)
    requires Clocked(s.mon) && dt > 0
    ensures Store(s, a + [e], dt, mem) == Do(Do(Store(s, a, dt, mem), Tick(dt)), Insert(RecordOf(e), mem))
    decreases |a|
  {
    hide InsertRecord;
    if a == [] {
      assert a + [e] == [e] && [e][1..] == [];
    } else {
      assert (a + [e])[1..] == a[1..] + [e] && (a + [e])[0] == a[0];
      StoreSplit(Do(Do(s, Tick(dt)), Insert(RecordOf(a[0]), mem)), a[1..], e, dt, mem);
    }
  }

  /** Storing by steps of the monitor is what the kernel's record loop does, record i at the time
      of its tick. */
  lemma {:induction false} StoreIsInsertAll(s: Sys, es: seq<Entry>, dt: nat, mem: Memory, clock: nat -> int)
    requires Clocked(s.mon) && dt > 0 && forall i: nat :: clock(i) == s.mon.now + (i + 1) * dt
    ensures var t := Store(s, es, dt, mem);
      t.mon.pending == InsertAll(s.mon.pending, es, clock, mem) && t.mon.now == s.mon.now + |es| * dt
    decreases |es|
  {
    hide InsertRecord, Clocked, Store;
    if es != [] {
      var n := |es| - 1;
      assert es == es[..n] + [es[n]];
      StoreSplit(s, es[..n], es[n], dt, mem);
      StoreIsInsertAll(s, es[..n], dt, mem, clock);
      StoreStep(Store(s, es[..n], dt, mem), es[n], dt, mem);
      assert clock(n) == s.mon.now + n * dt + dt;
    } else {
      StoreNone(s, dt, mem);
    }
  }

  lemma StoreTwoSteps(s: Sys, e: Entry, dt: nat, mem: Memory)
    requires Clocked(s.mon) && dt > 0
    ensures Store(s, [e], dt, mem) == Do(Do(s, Tick(dt)), Insert(RecordOf(e), mem))
  {
    assert [e][1..] == [];
  }

  lemma StoreNone(s: Sys, dt: nat, mem: Memory)
    requires Clocked(s.mon) && dt > 0
    ensures Store(s, [], dt, mem) == s
  {
  }

  lemma StoreStep(s: Sys, e: Entry, dt: nat, mem: Memory)
    requires Clocked(s.mon) && dt > 0
    ensures var t := Do(Do(s, Tick(dt)), Insert(RecordOf(e), mem));
      && t.mon.now == s.mon.now + dt
      && t.mon.pending == InsertRecord(s.mon.pending, RecordOf(e), s.mon.now + dt, mem).0
  {
    hide InsertRecord;
  }
}
