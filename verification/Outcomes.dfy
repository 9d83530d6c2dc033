/** What becomes of a request, message by message: exactly when it is approved, what the kernel then holds,
    and what its bytes have to do with it. */
module Outcomes {
  import opened Bytes
  import opened Options
  import opened Tickets
  import opened Labels
  import opened Frames
  import opened Wire
  import opened Lsm
  import opened Monitor
  import opened MonitorRuns
  import opened Guarantees
  import opened Decisions
  import opened Terminals
  import opened Citadel
  import opened Protocol
  import opened SystemRuns
  import opened SearchTree

  // ----- one message

  /** The monitor after a ticket reached it. */
  function Ticketed(st: State, pid: bv32, id: Id, op: bv16, d: Draw): (r: State)
    requires Clocked(st) && Fair(d)
  {
    Next(Next(st, Tick(d.dt)), Insert(Record(Signed(pid), id, op), d.mem))
  }

  /** Between ends that agree, a ticket that is written is a clock tick and an insertion, and one that is
      not is nothing. The enclave knows which, and knows no more. */
  lemma TicketExact(g: Gcm, s: Sys, pid: bv32, id: Id, op: bv16, d: Draw)
    requires Ideal(g) && Clocked(s.mon) && Fair(d) && Agree(s)
    ensures var (t, sent) := SendTicket(g, s, pid, id, op, d);
      && Agree(t) && sent == d.written
      && t.mon == (if d.written then Ticketed(s.mon, pid, id, op, d) else s.mon)
      && t.mon.files == s.mon.files
  {
    hide Ideal, EncodeUpdate, UpdateKey, UpdateEntries, EntriesRead, Reaches, TicketFrame, InBounds, Runs, After, Traced, Allowed,
      OwnFrame, Turned, Xor, XorAll, Store, InsertRecord;
    TicketServed(g, s, pid, id, op, d, Scope({Record(Signed(pid), id, op)}, None, false));
    FrameRead(g, s, Entry(pid, id, op), d);
    ReadWithin(g, s.lsm.key, TicketFrame(g, s, Entry(pid, id, op), d), []);
    StoreTwoSteps(Sealing(g, s, Entry(pid, id, op), d), Entry(pid, id, op), d.dt, d.mem);
  }

  /** The file is there to be labelled. */
  predicate Present(st: State, file: Option<nat>) {
    file.Some? && Loaded(st, file.value)
  }

  function LabelOp(declassify: bool): (op: bv16) {
    if declassify then OP_DECLASSIFY else OP_REGISTER
  }

  /** The monitor after a label reached it. */
  function LabelledBy(st: State, file: Option<nat>, declassify: bool, d: Draw): (r: State) {
    if Present(st, file) then Next(st, Event.Install(file.value, LabelOp(declassify), d.id, d.w)) else st
  }

  /** Between ends that agree, a label for a loaded file is an installation. It is accepted when its
      identifier is written, and a declassification when the file was not in realm or its attribute is
      removed. */
  lemma LabelExact(g: Gcm, s: Sys, file: Option<nat>, declassify: bool, d: Draw)
    requires Ideal(g) && Clocked(s.mon) && Fair(d) && Agree(s)
    ensures var (t, ok) := SendLabel(g, s, file, declassify, d);
      && Agree(t) && t.mon == LabelledBy(s.mon, file, declassify, d)
      && (ok <==>
        && Present(s.mon, file)
        && if declassify then s.mon.files[file.value].mem.value.inRealm ==> d.w.remove else d.w.id)
  {
    hide Ideal, EncodeUpdate, UpdateKey, Runs, After, Traced, HexOf, Allowed, OwnFrame, Turned, Xor, XorAll, RecordInBounds,
      InstallEntry, EntryAt, TicketFrame;
    LabelServed(g, s, file, declassify, d, Scope({}, file, false));
    TicketInBounds(g, s, Entry(0, d.id, LabelOp(declassify)), d);
    assert Declassifies(OP_DECLASSIFY) && !Declassifies(OP_REGISTER) && Registers(OP_REGISTER);
  }

  // ----- one request

  /** The request opens a path that has no identifier yet. */
  predicate Inducting(req: Request) {
    Wants(req.op, OP_OPEN) && !Wants(req.op, OP_CLAIM) && Inducts(req)
  }

  /** Every message that the request needs gets as far as the enclave can see: tickets are written, labels
      are accepted. */
  predicate Succeeds(st: State, req: Request, file: Option<nat>, draws: Draws) {
    && FileSucceeds(st, req, file, draws)
    && (Wants(req.op, OP_PTY | OP_SOCKET) ==> draws(4).written)
    && (Wants(req.op, OP_SHM) ==> draws(5).written)
    && (Wants(req.op, OP_DECLASSIFY) ==>
      && Present(st, file)
      && (Wants(req.op, OP_CLAIM) || Inducting(req) || st.files[file.value].mem.value.inRealm ==> draws(6).w.remove))
  }

  predicate FileSucceeds(st: State, req: Request, file: Option<nat>, draws: Draws) {
    && (Wants(req.op, OP_CLAIM) ==> Present(st, file) && draws(0).w.id)
    && (Wants(req.op, OP_CLAIM) && Wants(req.op, OP_OPEN) ==> draws(1).written)
    && (Inducting(req) ==> Present(st, file) && draws(2).w.id)
    && (Wants(req.op, OP_OPEN) && !Wants(req.op, OP_CLAIM) ==> draws(3).written)
  }

  /** The files after CLAIM and OPEN. */
  function FilesAfter(st: State, req: Request, file: Option<nat>, draws: Draws): (r: map<nat, File>) {
    if Wants(req.op, OP_CLAIM) then LabelledBy(st, file, false, draws(0)).files
    else if Inducting(req) then LabelledBy(st, file, false, draws(2)).files
    else st.files
  }

  lemma ClaimOutcome(g: Gcm, s: Sys, pid: bv32, op: bv16, file: Option<nat>, label_: Draw, open: Draw)
    requires Ideal(g) && Clocked(s.mon) && Fair(label_) && Fair(open) && Agree(s)
    ensures var (t, result) := ClaimStep(g, s, pid, op, file, label_, open);
      && Agree(t) && t.mon.files == LabelledBy(s.mon, file, false, label_).files
      && (result == APPROVED <==> Present(s.mon, file) && label_.w.id && (Wants(op, OP_OPEN) ==> open.written))
  {
    hide SendLabel, SendTicket, Ideal, Clocked, Agree, LabelledBy, Wants, Ticketed;
    LabelExact(g, s, file, false, label_);
    TicketExact(g, SendLabel(g, s, file, false, label_).0, pid, label_.id, OP_OPEN, open);
  }

  lemma OpenOutcome(g: Gcm, s: Sys, pid: bv32, req: Request, file: Option<nat>, label_: Draw, open: Draw)
    requires Ideal(g) && Clocked(s.mon) && Fair(label_) && Fair(open) && Agree(s) && Sized(req)
    ensures var (t, result) := OpenStep(g, s, pid, req, file, label_, open, APPROVED);
      && Agree(t) && t.mon.files == (if Inducts(req) then LabelledBy(s.mon, file, false, label_) else s.mon).files
      && (result == APPROVED <==> (Inducts(req) ==> Present(s.mon, file) && label_.w.id) && open.written)
  {
    hide SendLabel, SendTicket, Ideal, Clocked, Agree, LabelledBy, Inducts, NamedId, Ticketed;
    LabelExact(g, s, file, false, label_);
    var t := if Inducts(req) then SendLabel(g, s, file, false, label_).0 else s;
    TicketExact(g, t, pid, if Inducts(req) then label_.id else NamedId(req), req.op, open);
  }

  lemma FileOutcome(g: Gcm, s: Sys, pid: bv32, req: Request, file: Option<nat>, draws: Draws)
    requires Ideal(g) && Clocked(s.mon) && AllFair(draws) && Agree(s) && Sized(req)
    ensures var (t, result) := FileStep(g, s, pid, req, file, draws);
      && Agree(t) && t.mon.files == FilesAfter(s.mon, req, file, draws)
      && (result == APPROVED <==> FileSucceeds(s.mon, req, file, draws))
  {
    hide ClaimStep, OpenStep, Ideal, Clocked, Agree, LabelledBy, Inducts, NamedId, Wants, Rest, Present;
    RestBits(req.op);
    if Wants(req.op, OP_CLAIM) {
      ClaimOutcome(g, s, pid, req.op, file, draws(0), draws(1));
    } else if Wants(req.op, OP_OPEN) {
      OpenOutcome(g, s, pid, req, file, draws(2), draws(3));
    }
  }

  /** A registration that is accepted names the file, in memory and on disk, and puts it in realm. */
  lemma RegisteredFile(st: State, file: Option<nat>, d: Draw)
    requires Present(st, file)
    ensures var f := LabelledBy(st, file, false, d).files[file.value];
      && f.mem.Some?
      && (d.w.id ==>
        && f.mem.value.inRealm && !f.mem.value.anonymous && f.mem.value.id == d.id && ReadId(f.disk.id) == Some(d.id)
        && (d.w.realm ==> f.disk.inRealm))
  {
    assert !Declassifies(OP_REGISTER) && Registers(OP_REGISTER);
    ReadBack(d.id);
  }

  lemma SubjectOutcome(g: Gcm, s: Sys, pid: bv32, req: Request, d: Draw, result: Response, wanted: bool)
    requires Ideal(g) && Clocked(s.mon) && Fair(d) && Agree(s)
    ensures var (t, r) := if wanted then SubjectStep(g, s, pid, req, d, result) else (s, result);
      && Agree(t) && Clocked(t.mon) && t.mon.files == s.mon.files
      && (r == APPROVED <==> result == APPROVED && (wanted ==> d.written))
      && t.mon == if wanted && d.written then Ticketed(s.mon, pid, req.subject, req.op, d) else s.mon
  {
    hide SendTicket, Ideal, Clocked, Agree, Ticketed;
    if wanted {
      TicketExact(g, s, pid, req.subject, req.op, d);
    }
  }

  /** The state after CLAIM and OPEN, and after the terminal or socket ticket, and after the one for shared
      memory. */
  ghost function Middle(g: Gcm, s: Sys, pid: bv32, req: Request, file: Option<nat>, draws: Draws, n: nat): (r: (Sys, Response))
    requires Ideal(g) && Clocked(s.mon) && AllFair(draws) && Sized(req)
    ensures Clocked(r.0.mon)
  {
    var op, r2 := Rest(req.op), FileStep(g, s, pid, req, file, draws);
    var r3 := if Wants(op, OP_PTY | OP_SOCKET) then SubjectStep(g, r2.0, pid, req, draws(4), r2.1) else r2;
    if n == 0 then r2
    else if n == 1 then r3
    else if Wants(op, OP_SHM) then SubjectStep(g, r3.0, pid, req, draws(5), r3.1) else r3
  }

  lemma CoreMiddle(g: Gcm, s: Sys, pid: bv32, req: Request, file: Option<nat>, draws: Draws)
    requires Ideal(g) && Clocked(s.mon) && AllFair(draws) && Sized(req)
    ensures var r := Middle(g, s, pid, req, file, draws, 2);
      Core(g, s, pid, req, file, draws) ==
        if Wants(req.op, OP_DECLASSIFY) then DeclassifyStep(g, r.0, file, draws(6), r.1) else r
  {
    hide FileStep, SubjectStep, DeclassifyStep, Ideal, Clocked, Wants, Rest;
    RestBits(req.op);
  }

  lemma MiddleOutcome(g: Gcm, s: Sys, pid: bv32, req: Request, file: Option<nat>, draws: Draws)
    requires Ideal(g) && Clocked(s.mon) && AllFair(draws) && Agree(s) && Sized(req)
    ensures forall n :: 0 <= n <= 2 ==>
      var (t, _) := Middle(g, s, pid, req, file, draws, n);
      Agree(t) && t.mon.files == FilesAfter(s.mon, req, file, draws)
    ensures Middle(g, s, pid, req, file, draws, 2).1 == APPROVED <==>
      && FileSucceeds(s.mon, req, file, draws)
      && (Wants(req.op, OP_PTY | OP_SOCKET) ==> draws(4).written) && (Wants(req.op, OP_SHM) ==> draws(5).written)
  {
    hide FileStep, SubjectStep, FilesAfter, FileSucceeds, Ideal, Clocked, Wants, Rest, Agree, Ticketed;
    RestBits(req.op);
    FileOutcome(g, s, pid, req, file, draws);
    var op, r2 := Rest(req.op), FileStep(g, s, pid, req, file, draws);
    SubjectOutcome(g, r2.0, pid, req, draws(4), r2.1, Wants(op, OP_PTY | OP_SOCKET));
    var r3 := if Wants(op, OP_PTY | OP_SOCKET) then SubjectStep(g, r2.0, pid, req, draws(4), r2.1) else r2;
    SubjectOutcome(g, r3.0, pid, req, draws(5), r3.1, Wants(op, OP_SHM));
  }

  /** The file before DECLASSIFY: it is there exactly if it was, and in realm if CLAIM or OPEN put it
      there. */
  lemma FileBefore(st: State, req: Request, file: Option<nat>, draws: Draws, st': State)
    requires st'.files == FilesAfter(st, req, file, draws) && FileSucceeds(st, req, file, draws)
    ensures Present(st', file) <==> Present(st, file)
    ensures Present(st, file) ==>
      var f, f' := st.files[file.value], st'.files[file.value];
      && (f'.mem.value.inRealm <==> Wants(req.op, OP_CLAIM) || Inducting(req) || f.mem.value.inRealm)
      && (Wants(req.op, OP_CLAIM) || Inducting(req) || f' == f)
      && (Inducting(req) ==> ReadId(f'.disk.id) == Some(draws(2).id))
  {
    hide Wants, Inducts, ReadId;
    if Present(st, file) {
      RegisteredFile(st, file, draws(0));
      RegisteredFile(st, file, draws(2));
    }
  }

  /** Between ends that agree, a request gets the answer APPROVED exactly when it passes every check and
      every message that it needs gets through. */
  lemma ApprovedExact(g: Gcm, s: Sys, pid: bv32, data: seq<bv8>, buffer: bool, policy: Response, file: Option<nat>, draws: Draws)
    requires Ideal(g) && Clocked(s.mon) && AllFair(draws) && Agree(s)
    ensures var (t, result) := Handle(g, s, pid, data, buffer, policy, file, draws);
      && Agree(t)
      && (result == APPROVED <==>
        Approves(g, s, pid, data, buffer, policy) && Succeeds(s.mon, ParseRequest(data).value, file, draws))
  {
    hide Core, Ideal, Clocked, Agree, Succeeds, TokenPid;
    if Approves(g, s, pid, data, buffer, policy) {
      CoreOutcome(g, s, pid, ParseRequest(data).value, file, draws);
    }
  }

  lemma CoreOutcome(g: Gcm, s: Sys, pid: bv32, req: Request, file: Option<nat>, draws: Draws)
    requires Ideal(g) && Clocked(s.mon) && AllFair(draws) && Agree(s) && Sized(req)
    ensures var (t, result) := Core(g, s, pid, req, file, draws);
      Agree(t) && (result == APPROVED <==> Succeeds(s.mon, req, file, draws))
  {
    hide Core, Middle, SendLabel, FilesAfter, FileSucceeds, Inducting, Ideal, Clocked, Agree, Wants, LabelledBy, Present;
    CoreMiddle(g, s, pid, req, file, draws);
    MiddleOutcome(g, s, pid, req, file, draws);
    var r := Middle(g, s, pid, req, file, draws, 2);
    LabelExact(g, r.0, file, true, draws(6));
    if FileSucceeds(s.mon, req, file, draws) {
      FileBefore(s.mon, req, file, draws, r.0.mon);
    }
  }

  /** Where a request is turned away, and with what answer; nothing has happened then. The token that
      counts is the one at byte 26. */
  lemma HandleVerdict(g: Gcm, s: Sys, pid: bv32, data: seq<bv8>, buffer: bool, policy: Response, file: Option<nat>, draws: Draws,
                      token: Token, iv: Iv)
    requires Ideal(g) && Clocked(s.mon) && AllFair(draws) && |token.nonce| == 8
    ensures
      var (t, result) := Handle(g, s, pid, data, buffer, policy, file, draws);
      var shaped := (|data| == 90 || |data| == 4188) && data[..8] == [0x80, 0x70, 0x60, 0x50, 0x40, 0x30, 0x20, 0x10];
      && (!buffer ==> result == ERROR && t == s)
      && (buffer && !shaped ==> result == INVALID && t == s)
      && (buffer && shaped && Unseal(g, s.enclave.token, data[26..90]) == None ==> result == INVALID && t == s)
      && (buffer && shaped && data[26..90] == Seal(g, s.enclave.token, iv, EncodeToken(token)) ==>
        && (token.pid != pid ==> result == FORGED && t == s)
        && (token.pid == pid && policy != APPROVED ==> result == policy && t == s)
        && (token.pid == pid && policy == APPROVED ==> Approves(g, s, pid, data, buffer, policy)))
  {
    hide Core, Ideal, Clocked, Unseal, EncodeToken, DecodeToken;
    OpenSealed(g, s.enclave.token, s.enclave.token, iv, EncodeToken(token));
    TokenRoundTrip(token);
    if ParseRequest(data).Some? {
      TokenOpens(g, s.enclave.token, data[26..90]);
    }
  }

  /** The monitor at the end of an approved request. */
  lemma CoreMonitor(g: Gcm, s: Sys, pid: bv32, req: Request, file: Option<nat>, draws: Draws)
    requires Ideal(g) && Clocked(s.mon) && AllFair(draws) && Agree(s) && Sized(req)
    ensures var r := Middle(g, s, pid, req, file, draws, 2);
      Core(g, s, pid, req, file, draws).0.mon ==
        if Wants(req.op, OP_DECLASSIFY) then LabelledBy(r.0.mon, file, true, draws(6)) else r.0.mon
  {
    hide Core, Middle, SendLabel, FilesAfter, FileSucceeds, Inducting, Ideal, Clocked, Agree, Wants, LabelledBy, Present;
    CoreMiddle(g, s, pid, req, file, draws);
    MiddleOutcome(g, s, pid, req, file, draws);
    LabelExact(g, Middle(g, s, pid, req, file, draws, 2).0, file, true, draws(6));
  }

  // ----- declassification

  lemma DeclassifiedFile(st: State, file: Option<nat>, d: Draw)
    requires Present(st, file) && (st.files[file.value].mem.value.inRealm ==> d.w.remove)
    ensures var f, st' := st.files[file.value], LabelledBy(st, file, true, d);
      && Present(st', file) && st'.files[file.value].disk.id == f.disk.id
      && (OutOfRealm(st', file.value) <==> f.mem.value.inRealm || !f.disk.inRealm)
  {
    hide Labels.Install;
    var f := st.files[file.value];
    assert Declassifies(OP_DECLASSIFY);
    DeclassifyExact(f.mem.value, f.disk, OP_DECLASSIFY, d.id, d.w);
  }

  /** After an approved request with the DECLASSIFY bit the file is out of realm, in memory and on disk,
      exactly unless it was out of realm in memory and in realm on disk when the label arrived. */
  lemma DeclassifyTakesOut(g: Gcm, s: Sys, pid: bv32, data: seq<bv8>, buffer: bool, policy: Response, file: nat, draws: Draws)
    requires Ideal(g) && Clocked(s.mon) && AllFair(draws) && Agree(s)
    requires Handle(g, s, pid, data, buffer, policy, Some(file), draws).1 == APPROVED
    requires Wants(ParseRequest(data).value.op, OP_DECLASSIFY)
    ensures var req, t := ParseRequest(data).value, Handle(g, s, pid, data, buffer, policy, Some(file), draws).0;
      && Loaded(s.mon, file) && Loaded(t.mon, file)
      && (OutOfRealm(t.mon, file) <==>
        || Wants(req.op, OP_CLAIM) || Inducting(req)
        || s.mon.files[file].mem.value.inRealm || !s.mon.files[file].disk.inRealm)
  {
    hide Core, Middle, FilesAfter, FileSucceeds, Inducting, Ideal, Clocked, Agree, Wants, LabelledBy, TokenPid, OutOfRealm;
    ApprovedExact(g, s, pid, data, buffer, policy, Some(file), draws);
    var req := ParseRequest(data).value;
    CoreMonitor(g, s, pid, req, Some(file), draws);
    MiddleOutcome(g, s, pid, req, Some(file), draws);
    var st := Middle(g, s, pid, req, Some(file), draws, 2).0.mon;
    FileBefore(s.mon, req, Some(file), draws, st);
    DeclassifiedFile(st, Some(file), draws(6));
  }

  /** Declassification from end to end. Keys agree, the label of the file in memory is in step with its
      attribute, and the enclave approves a request with the DECLASSIFY bit: then, along every run in
      which no registration arrives for the file, every process out of realm gets it, with no ticket. */
  lemma DeclassifyOpens(g: Gcm, s: Sys, pid: bv32, data: seq<bv8>, buffer: bool, policy: Response, file: nat, draws: Draws,
                        es: seq<Event>, p: Int32, w: Writes)
    requires Ideal(g) && Clocked(s.mon) && AllFair(draws) && Agree(s)
    requires Loaded(s.mon, file) && (s.mon.files[file].disk.inRealm ==> s.mon.files[file].mem.value.inRealm)
    requires Handle(g, s, pid, data, buffer, policy, Some(file), draws).1 == APPROVED
    requires Wants(ParseRequest(data).value.op, OP_DECLASSIFY)
    requires var t := Handle(g, s, pid, data, buffer, policy, Some(file), draws).0;
      Runs(t.mon, es) && Unregistered(es, file)
    requires var st := After(Handle(g, s, pid, data, buffer, policy, Some(file), draws).0.mon, es);
      p in st.tasks && !st.tasks[p].inRealm && Loaded(st, file)
    ensures var st := After(Handle(g, s, pid, data, buffer, policy, Some(file), draws).0.mon, es);
      OpenHook(st, p, file, w).1 == Exempt && PermissionHook(st, p, file).1 == Exempt
  {
    hide Handle, Ideal, Clocked, Agree, Wants, OutOfRealm, Runs, After, OpenHook, PermissionHook, Unregistered, Inducting;
    DeclassifyTakesOut(g, s, pid, data, buffer, policy, file, draws);
    OutOfRealmOpens(Handle(g, s, pid, data, buffer, policy, Some(file), draws).0.mon, es, file, p, w);
  }

  /** ... along every run of the whole system. */
  lemma SystemDeclassifies(g: Gcm, s: Sys, pid: bv32, data: seq<bv8>, buffer: bool, policy: Response, file: nat, draws: Draws,
                           evs: seq<SysEvent>, p: Int32, w: Writes)
    requires Ideal(g) && SysInv(g, s) && Clocked(s.mon) && AllFair(draws) && Agree(s)
    requires Loaded(s.mon, file) && (s.mon.files[file].disk.inRealm ==> s.mon.files[file].mem.value.inRealm)
    requires TokenUnforged(g, s, data) && Handle(g, s, pid, data, buffer, policy, Some(file), draws).1 == APPROVED
    requires Wants(ParseRequest(data).value.op, OP_DECLASSIFY)
    requires Run(g, Asking(g, s, pid, data, buffer, policy, Some(file), draws), evs)
    ensures
      var t := Asking(g, s, pid, data, buffer, policy, Some(file), draws);
      var u := Final(g, t, evs);
      && t.trace <= u.trace
      && (Unregistered(Since(t, u), file) && p in u.mon.tasks && !u.mon.tasks[p].inRealm && Loaded(u.mon, file) ==>
          OpenHook(u.mon, p, file, w).1 == Exempt && PermissionHook(u.mon, p, file).1 == Exempt)
  {
    hide Handle, Ideal, Agree, Wants, Runs, After, OpenHook, PermissionHook, Unregistered, TokenUnforged, Run, Final, SysInv, Approves;
    var ev := Asked(pid, data, buffer, policy, Some(file), draws);
    AskedInv(g, s, ev);
    var t := Step(g, s, ev);
    var u := Final(g, t, evs);
    RunSince(g, t, evs);
    if Unregistered(Since(t, u), file) && p in u.mon.tasks && !u.mon.tasks[p].inRealm && Loaded(u.mon, file) {
      DeclassifyOpens(g, s, pid, data, buffer, policy, file, draws, Since(t, u), p, w);
    }
  }

  // ----- terminals

  lemma TicketGivesPty(st: State, pid: bv32, id: Id, op: bv16, d: Draw)
    requires Clocked(st) && Fair(d) && Wants(op, OP_PTY) && (d.mem.node || Signed(pid) in st.pending)
    ensures PtyDue(Ticketed(st, pid, id, op, d), Signed(pid))
  {
    hide PtyDue;
    RecordGives(Next(st, Tick(d.dt)), Record(Signed(pid), id, op), d.mem);
  }

  lemma TicketKeepsPty(st: State, pid: bv32, id: Id, op: bv16, d: Draw, p: Int32)
    requires Clocked(st) && Fair(d) && PtyDue(st, p)
    ensures PtyDue(Ticketed(st, pid, id, op, d), p)
  {
  }

  lemma LabelKeepsPty(st: State, file: Option<nat>, declassify: bool, d: Draw, p: Int32)
    requires PtyDue(st, p)
    ensures PtyDue(LabelledBy(st, file, declassify, d), p)
  {
    hide Labels.Install;
  }

  lemma TerminalBits(op: bv16)
    requires Wants(op, OP_PTY)
    ensures Wants(op, OP_PTY | OP_SOCKET)
  {
  }

  /** An approved request with the PTY bit gives the process the right to a terminal. */
  lemma RequestGivesPty(g: Gcm, s: Sys, pid: bv32, data: seq<bv8>, buffer: bool, policy: Response, file: Option<nat>, draws: Draws)
    requires Ideal(g) && Clocked(s.mon) && AllFair(draws) && Agree(s) && draws(4).mem.node
    requires Handle(g, s, pid, data, buffer, policy, file, draws).1 == APPROVED
    requires Wants(ParseRequest(data).value.op, OP_PTY)
    ensures PtyDue(Handle(g, s, pid, data, buffer, policy, file, draws).0.mon, Signed(pid))
  {
    hide Core, FileStep, SubjectStep, FileSucceeds, FilesAfter, Inducting, Ideal, Clocked, Agree, Wants, LabelledBy, TokenPid,
      PtyDue, Rest, Ticketed, Present;
    ApprovedExact(g, s, pid, data, buffer, policy, file, draws);
    var req := ParseRequest(data).value;
    RestBits(req.op);
    TerminalBits(req.op);
    CoreMonitor(g, s, pid, req, file, draws);
    MiddleOutcome(g, s, pid, req, file, draws);
    var s2, s3, s4 := Middle(g, s, pid, req, file, draws, 0), Middle(g, s, pid, req, file, draws, 1), Middle(g, s, pid, req, file, draws, 2);
    SubjectOutcome(g, s2.0, pid, req, draws(4), s2.1, true);
    TicketGivesPty(s2.0.mon, pid, req.subject, req.op, draws(4));
    SubjectOutcome(g, s3.0, pid, req, draws(5), s3.1, Wants(Rest(req.op), OP_SHM));
    TicketKeepsPty(s3.0.mon, pid, req.subject, req.op, draws(5), Signed(pid));
    LabelKeepsPty(s4.0.mon, file, true, draws(6), Signed(pid));
  }

  /** Terminal completeness from end to end: after such a request, along every run of the whole system,
      every object of the terminal file system is open to the process for as long as it lives, unless a
      process ID is stored that the tree cannot order with the others. */
  lemma SystemTerminal(g: Gcm, s: Sys, pid: bv32, data: seq<bv8>, buffer: bool, policy: Response, file: Option<nat>, draws: Draws,
                       evs: seq<SysEvent>, pts: nat, w: Writes)
    requires Ideal(g) && SysInv(g, s) && Clocked(s.mon) && AllFair(draws) && Agree(s) && draws(4).mem.node && 1 < Signed(pid)
    requires TokenUnforged(g, s, data) && Handle(g, s, pid, data, buffer, policy, file, draws).1 == APPROVED
    requires Wants(ParseRequest(data).value.op, OP_PTY)
    requires Run(g, Asking(g, s, pid, data, buffer, policy, file, draws), evs)
    ensures
      var t, p := Asking(g, s, pid, data, buffer, policy, file, draws), Signed(pid);
      var u := Final(g, t, evs);
      && t.trace <= u.trace
      && (Lives(Since(t, u), p) && Orderable(TreeKeys(u.mon)) && p in u.mon.tasks && Loaded(u.mon, pts) && u.mon.files[pts].fs == DevPts ==>
          OpenHook(u.mon, p, pts, w).1 == Exempt && PermissionHook(u.mon, p, pts).1 == Exempt)
  {
    hide Handle, Ideal, Agree, Wants, Runs, After, OpenHook, PermissionHook, Lives, TokenUnforged, Run, Final, SysInv, Approves,
      PtyDue, Orderable, TreeKeys;
    var ev := Asked(pid, data, buffer, policy, file, draws);
    AskedInv(g, s, ev);
    var t, p := Step(g, s, ev), Signed(pid);
    var u := Final(g, t, evs);
    RunSince(g, t, evs);
    RequestGivesPty(g, s, pid, data, buffer, policy, file, draws);
    if Lives(Since(t, u), p) && Orderable(TreeKeys(u.mon)) && p in u.mon.tasks && Loaded(u.mon, pts) && u.mon.files[pts].fs == DevPts {
      KeepsPty(t.mon, Since(t, u), p);
      DueIsOpen(u.mon, p, pts, w);
    }
  }

  // ----- the daemon's socket

  lemma {:induction false} KeepsName(st: State, es: seq<Event>, file: nat, id: Id)
    requires Steady(st, file, id) && Runs(st, es) && KeepsLabel(es, file)
    ensures Steady(After(st, es), file, id)
    decreases |es|
  {
    hide Steady, Next, Enabled, Refused;
    if es != [] {
      assert es[0] in es;
      StepKeepsName(st, es[0], file, id);
      KeepsName(Next(st, es[0]), es[1..], file, id);
    }
  }

  lemma PublicIsOpen(st: State, file: nat, p: Int32, w: Writes)
    requires Steady(st, file, PUBLIC) && Loaded(st, file) && p in st.tasks && p > 1
    ensures OpenHook(st, p, file, w).1 == Exempt && PermissionHook(st, p, file).1 == Exempt
  {
    hide Housekeep, OpenHook, PermissionHook, ReadId, Cached;
    var f := st.files[file];
    HousekeepNamed(f.mem.value, f.disk, w, PUBLIC);
    PublicId(PUBLIC);
    ExemptAlways(st, p, file, w);
  }

  /** The daemon's socket file, once it has been labelled, is open to every process, tainted or not, along
      every run in which it gets no other label. */
  lemma SocketIsPublic(g: Gcm, s: Sys, file: nat, d: Draw, es: seq<Event>, p: Int32, w: Writes)
    requires Ideal(g) && Clocked(s.mon) && Fair(d) && Agree(s) && Tidy(s.mon)
    requires Loaded(s.mon, file) && OnDisk(s.mon.files[file]) && d.w.id && d.w.realm
    requires var t := ProtectSocket(g, s, Some(file), d); Runs(t.mon, es) && KeepsLabel(es, file)
    requires var st := After(ProtectSocket(g, s, Some(file), d).mon, es); p in st.tasks && p > 1 && Loaded(st, file)
    ensures var st := After(ProtectSocket(g, s, Some(file), d).mon, es);
      OpenHook(st, p, file, w).1 == Exempt && PermissionHook(st, p, file).1 == Exempt
  {
    hide SendLabel, Ideal, Clocked, Agree, Runs, After, OpenHook, PermissionHook, KeepsLabel, Steady, LabelledBy;
    LabelExact(g, s, Some(file), false, d.(id := PUBLIC));
    var st := ProtectSocket(g, s, Some(file), d).mon;
    SocketSteady(s.mon, file, d.(id := PUBLIC));
    KeepsName(st, es, file, PUBLIC);
    PublicIsOpen(After(st, es), file, p, w);
  }

  lemma SocketSteady(st: State, file: nat, d: Draw)
    requires Tidy(st) && Loaded(st, file) && OnDisk(st.files[file]) && d.w.id && d.w.realm
    ensures Steady(LabelledBy(st, Some(file), false, d), file, d.id)
  {
    hide ReadId, HexOf;
    assert !Declassifies(OP_REGISTER) && Registers(OP_REGISTER);
    ReadBack(d.id);
  }
}
