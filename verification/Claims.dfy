/** Completeness from end to end: an approved claim opens the file, whatever else the system does. */
module Claims {
  import opened Bytes
  import opened Options
  import opened Tickets
  import opened Labels
  import opened Frames
  import opened Wire
  import opened Lsm
  import opened Monitor
  import opened MonitorRuns
  import opened Guarantees
  import opened Citadel
  import opened Protocol
  import opened SystemRuns
  import opened SearchTree

  // ----- an approved claim opens the file

  /** The ticket a claim obtains, and the file it is for. */
  ghost predicate Holding(st: State, gr: Grant, file: nat) {
    && gr in st.log && gr !in st.lost && Shares(gr.ticket.op, OP_OPEN)
    && Steady(st, file, gr.ticket.id)
  }

  /** An accepted registration names the file, on disk and in memory. */
  lemma LabelNames(g: Gcm, s: Sys, file: nat, d: Draw)
    requires Ideal(g) && Clocked(s.mon) && Fair(d) && Agree(s) && Loaded(s.mon, file) && OnDisk(s.mon.files[file])
    requires Tidy(s.mon) && d.w.realm && SendLabel(g, s, Some(file), false, d).1
    ensures var t := SendLabel(g, s, Some(file), false, d).0;
      && Agree(t) && Steady(t.mon, file, d.id)
      && t.mon.log == s.mon.log && t.mon.lost == s.mon.lost && t.mon.now == s.mon.now
  {
    hide Ideal, EncodeUpdate, UpdateKey, Runs, After, HexOf, ReadId, Xor, XorAll, Allowed, OwnFrame, InstallEntry;
    LabelServed(g, s, Some(file), false, d, Scope({}, Some(file), false));
    TicketInBounds(g, s, Entry(0, d.id, OP_REGISTER), d);
    ReadBack(d.id);
  }

  /** A ticket that is written and stored is held, unless the process loses it. */
  lemma TicketHeld(g: Gcm, s: Sys, pid: bv32, id: Id, d: Draw, file: nat)
    requires Ideal(g) && Inv(s.mon) && Fair(d) && Agree(s)
    requires d.written && d.mem.node && d.mem.ticket && Steady(s.mon, file, id)
    ensures
      var t := SendTicket(g, s, pid, id, OP_OPEN, d).0;
      && t.mon.now == s.mon.now + d.dt
      && Holding(t.mon, Grant(Signed(pid), Ticket(id, OP_OPEN, t.mon.now)), file)
  {
    hide Ideal, EncodeUpdate, UpdateKey, UpdateEntries, EntriesRead, Reaches, TicketFrame, InBounds, Runs, After, ReadId, Store, XorAll,
      Orderable, Logged, StrayLogged;
    var e := Entry(pid, id, OP_OPEN);
    FrameRead(g, s, e, d);
    ReadWithin(g, s.lsm.key, TicketFrame(g, s, e, d), []);
    StoreTwoSteps(Sealing(g, s, Entry(pid, id, OP_OPEN), d), Entry(pid, id, OP_OPEN), d.dt, d.mem);
  }

  lemma {:induction false} StoreHolds(s: Sys, es: seq<Entry>, dt: nat, mem: Memory, gr: Grant, file: nat)
    requires Clocked(s.mon) && dt > 0 && Holding(s.mon, gr, file)
    ensures Holding(Store(s, es, dt, mem).mon, gr, file)
    decreases |es|
  {
    hide ReadId, InsertRecord;
    if es != [] {
      var t := Do(Do(s, Tick(dt)), Insert(RecordOf(es[0]), mem));
      StoreHolds(t, es[1..], dt, mem, gr, file);
    }
  }

  /** Further tickets take nothing away. */
  lemma TicketHolds(g: Gcm, s: Sys, pid: bv32, id: Id, op: bv16, d: Draw, gr: Grant, file: nat)
    requires Ideal(g) && Clocked(s.mon) && Fair(d) && Holding(s.mon, gr, file)
    ensures Holding(SendTicket(g, s, pid, id, op, d).0.mon, gr, file)
  {
    hide Holding, Ideal, Clocked, UpdateEntries, EntriesRead, Reaches, UpdateKey, InBounds, TicketFrame;
    if d.written && s.registered {
      FrameRead(g, s, Entry(pid, id, op), d);
      ReadWithin(g, s.lsm.key, TicketFrame(g, s, Entry(pid, id, op), d), []);
      StoreHolds(Sealing(g, s, Entry(pid, id, op), d), UpdateEntries(g, s.lsm.key, TicketFrame(g, s, Entry(pid, id, op), d)), d.dt, d.mem, gr, file);
    }
  }

  lemma OperationBits(op: bv16)
    ensures !Wants(Without(op, OP_OPEN), OP_OPEN)
    ensures Wants(Without(op, OP_OPEN), OP_DECLASSIFY) == Wants(op, OP_DECLASSIFY)
  {
  }

  /** The ticket of a claim. */
  function Claim(s: Sys, pid: bv32, draws: Draws): (gr: Grant) {
    Grant(Signed(pid), Ticket(draws(0).id, OP_OPEN, s.mon.now + draws(1).dt))
  }

  lemma ClaimHolds(g: Gcm, s: Sys, pid: bv32, op: bv16, file: nat, draws: Draws)
    requires Ideal(g) && Inv(s.mon) && Traced(s) && Initial(s.start) && Agree(s)
    requires AllFair(draws) && draws(0).w.realm && draws(1).mem.node && draws(1).mem.ticket
    requires Loaded(s.mon, file) && OnDisk(s.mon.files[file]) && Wants(op, OP_OPEN)
    requires ClaimStep(g, s, pid, op, Some(file), draws(0), draws(1)).1 == APPROVED
    ensures Holding(ClaimStep(g, s, pid, op, Some(file), draws(0), draws(1)).0.mon, Claim(s, pid, draws), file)
  {
    hide SendLabel, SendTicket, Holding, Steady, Ideal, Traced, Initial, Agree, Allowed, OwnFrame, Turned;
    LabelServed(g, s, Some(file), false, draws(0), Scope({}, Some(file), false));
    LabelNames(g, s, file, draws(0));
    var t := SendLabel(g, s, Some(file), false, draws(0)).0;
    InvFromTrace(t);
    assert draws(1).written by {
      UnwrittenFails(g, t, pid, draws(0).id, draws(1));
    }
    TicketHeld(g, t, pid, draws(0).id, draws(1), file);
  }

  lemma UnwrittenFails(g: Gcm, s: Sys, pid: bv32, id: Id, d: Draw)
    requires Ideal(g) && Clocked(s.mon) && Fair(d)
    ensures SendTicket(g, s, pid, id, OP_OPEN, d).1 == d.written
  {
  }

  lemma CoreHolds(g: Gcm, s: Sys, pid: bv32, req: Request, file: nat, draws: Draws)
    requires Ideal(g) && Inv(s.mon) && Traced(s) && Initial(s.start) && Agree(s)
    requires AllFair(draws) && draws(0).w.realm && draws(1).mem.node && draws(1).mem.ticket
    requires Sized(req)
    requires Loaded(s.mon, file) && OnDisk(s.mon.files[file])
    requires Wants(req.op, OP_CLAIM) && Wants(req.op, OP_OPEN) && !Wants(req.op, OP_DECLASSIFY)
    requires Core(g, s, pid, req, Some(file), draws).1 == APPROVED
    ensures Holding(Core(g, s, pid, req, Some(file), draws).0.mon, Claim(s, pid, draws), file)
  {
    hide SendTicket, ClaimStep, Holding, Ideal, Traced, Initial, Agree, Wants, OnDisk;
    OperationBits(req.op);
    var r1 := ClaimStep(g, s, pid, req.op, Some(file), draws(0), draws(1));
    var op, gr := Without(req.op, OP_OPEN), Claim(s, pid, draws);
    ClaimHolds(g, s, pid, req.op, file, draws);
    TicketHolds(g, r1.0, pid, req.subject, req.op, draws(4), gr, file);
    var r3 := if Wants(op, OP_PTY | OP_SOCKET) then SubjectStep(g, r1.0, pid, req, draws(4), r1.1) else r1;
    TicketHolds(g, r3.0, pid, req.subject, req.op, draws(5), gr, file);
  }

  /** Grant completeness from end to end. Keys agree, the process asks to claim and open a file, the
      enclave approves, and no allocation fails: then, whatever happens next, the process can open the
      file, and passes the permission hook on it, until its ticket is fifteen seconds old, unless the file
      is relabelled, the process loses its credential, or a process ID is stored that the tree cannot
      order with the others. */
  lemma ClaimOpens(g: Gcm, s: Sys, pid: bv32, data: seq<bv8>, buffer: bool, policy: Response, file: nat, draws: Draws,
                   es: seq<Event>, w: Writes)
    requires Ideal(g) && SysInv(g, s) && Clocked(s.mon) && Agree(s)
    requires 1 < Signed(pid) && AllFair(draws) && draws(0).w.realm && draws(1).mem.node && draws(1).mem.ticket
    requires Loaded(s.mon, file) && OnDisk(s.mon.files[file])
    requires ParseRequest(data).Some? && var op := ParseRequest(data).value.op;
      Wants(op, OP_CLAIM) && Wants(op, OP_OPEN) && !Wants(op, OP_DECLASSIFY)
    requires var (t, result) := Handle(g, s, pid, data, buffer, policy, Some(file), draws);
      && result == APPROVED
      && Runs(t.mon, es) && KeepsCred(es, Signed(pid)) && KeepsLabel(es, file) && Orderable(TreeKeys(After(t.mon, es)))
    ensures
      var st := After(Handle(g, s, pid, data, buffer, policy, Some(file), draws).0.mon, es);
      Signed(pid) in st.tasks && Loaded(st, file) && st.now < s.mon.now + draws(1).dt + EXPIRY ==>
        OpenHook(st, Signed(pid), file, w).1 != Denied && PermissionHook(st, Signed(pid), file).1 != Denied
  {
    hide Core, Ideal, Traced, Initial, Agree, Wants, OnDisk, Runs, After, OpenHook, PermissionHook, KeepsCred, KeepsLabel,
      TokenPid, Orderable, TreeKeys, Sealed, Stored, Turned, Early, Allowed, OwnFrame, TicketInv, Inv, Granted;
    var t := Handle(g, s, pid, data, buffer, policy, Some(file), draws).0;
    HandleServed(g, s, pid, data, buffer, policy, Some(file), draws, false);
    InvFromTrace(s);
    KeysGrowRun(t.mon, es);
    SubsetOrderable(TreeKeys(t.mon), TreeKeys(After(t.mon, es)));
    TicketsFromTrace(t);
    CoreHolds(g, s, pid, ParseRequest(data).value, file, draws);
    GrantCompleteness(t.mon, es, Claim(s, pid, draws), file, w);
  }

  lemma TicketsFromTrace(s: Sys)
    requires Initial(s.start) && Traced(s) && Orderable(TreeKeys(s.mon))
    ensures TicketInv(s.mon)
  {
    hide Runs, After, TicketInv, Orderable, TreeKeys, Inv;
    InitialInv(s.start);
    ReachableTickets(s.start, s.trace);
  }

  /** ... along every run of the whole system. */
  lemma SystemCompleteness(g: Gcm, s: Sys, pid: bv32, data: seq<bv8>, buffer: bool, policy: Response, file: nat,
                           draws: Draws, evs: seq<SysEvent>, w: Writes)
    requires Ideal(g) && SysInv(g, s) && Clocked(s.mon) && Agree(s)
    requires 1 < Signed(pid) && AllFair(draws) && draws(0).w.realm && draws(1).mem.node && draws(1).mem.ticket
    requires Loaded(s.mon, file) && OnDisk(s.mon.files[file])
    requires ParseRequest(data).Some? && var op := ParseRequest(data).value.op;
      Wants(op, OP_CLAIM) && Wants(op, OP_OPEN) && !Wants(op, OP_DECLASSIFY)
    requires TokenUnforged(g, s, data) && Handle(g, s, pid, data, buffer, policy, Some(file), draws).1 == APPROVED
    requires Run(g, Asking(g, s, pid, data, buffer, policy, Some(file), draws), evs)
    ensures
      var t := Asking(g, s, pid, data, buffer, policy, Some(file), draws);
      var u := Final(g, t, evs);
      && t.trace <= u.trace
      && (KeepsCred(Since(t, u), Signed(pid)) && KeepsLabel(Since(t, u), file) && Orderable(TreeKeys(u.mon)) ==>
        (Signed(pid) in u.mon.tasks && Loaded(u.mon, file) && u.mon.now < s.mon.now + draws(1).dt + EXPIRY ==>
          OpenHook(u.mon, Signed(pid), file, w).1 != Denied && PermissionHook(u.mon, Signed(pid), file).1 != Denied))
  {
    hide Handle, Ideal, Agree, Wants, OnDisk, Runs, After, OpenHook, PermissionHook, KeepsCred, KeepsLabel, TokenUnforged,
      Run, Final, Orderable, TreeKeys, SysInv, Approves, Granted;
    var ev := Asked(pid, data, buffer, policy, Some(file), draws);
    AskedInv(g, s, ev);
    var t := Step(g, s, ev);
    var u := Final(g, t, evs);
    RunSince(g, t, evs);
    if KeepsCred(Since(t, u), Signed(pid)) && KeepsLabel(Since(t, u), file) && Orderable(TreeKeys(u.mon)) {
      ClaimOpens(g, s, pid, data, buffer, policy, file, draws, Since(t, u), w);
    }
  }
}
