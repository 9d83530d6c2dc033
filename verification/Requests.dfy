/** The tickets of an approved request, from the bytes that ask for them to the kernel's store. */
module Requests {
  import opened Bytes
  import opened Options
  import opened Tickets
  import opened Labels
  import opened Frames
  import opened Wire
  import opened Lsm
  import opened Monitor
  import opened MonitorRuns
  import opened Citadel
  import opened Protocol
  import opened Outcomes

  /** The kernel has the memory that a ticket needs. The enclave does not learn whether it does. */
  predicate Stores(d: Draw) {
    d.mem.node && d.mem.ticket
  }

  ghost predicate AllStore(draws: Draws) {
    forall i :: Stores(draws(i))
  }

  /** What a ticket is for. */
  datatype Item = Item(id: Id, op: bv16)

  /** A record with nothing but the terminal bit sets a flag instead of making a ticket. */
  function ItemsOf(id: Id, op: bv16): (r: seq<Item>) {
    if OnlyPty(op) then [] else [Item(id, op)]
  }

  /** The tickets a request is good for, in the order they are stored: OPEN on a claimed file is for
      the new identifier and OPEN alone; any other OPEN is for the object named, or for the new
      identifier of a file that had none; terminals, sockets and shared memory are for the subject. */
  function Expected(req: Request, draws: Draws): (r: seq<Item>)
    requires Sized(req)
  {
    FileItems(req, draws)
    + (if Wants(req.op, OP_PTY | OP_SOCKET) then ItemsOf(req.subject, req.op) else [])
    + (if Wants(req.op, OP_SHM) then ItemsOf(req.subject, req.op) else [])
  }

  function FileItems(req: Request, draws: Draws): (r: seq<Item>)
    requires Sized(req)
  {
    if !Wants(req.op, OP_OPEN) then []
    else if Wants(req.op, OP_CLAIM) then ItemsOf(draws(0).id, OP_OPEN)
    else ItemsOf(if Inducts(req) then draws(2).id else NamedId(req), req.op)
  }

  predicate For(gr: Grant, pid: Int32, item: Item) {
    gr.pid == pid && gr.ticket.id == item.id && gr.ticket.op == item.op
  }

  /** From `s` to `t` exactly the tickets `items` were stored, all for `pid`, and keys stayed agreed. */
  ghost predicate Grew(s: Sys, t: Sys, pid: Int32, items: seq<Item>) {
    && Agree(t) && Clocked(t.mon)
    && |t.mon.log| == |s.mon.log| + |items| && s.mon.log <= t.mon.log
    && (forall i :: 0 <= i < |items| ==> For(t.mon.log[|s.mon.log| + i], pid, items[i]))
    && (forall f :: Loaded(s.mon, f) ==> Loaded(t.mon, f))
  }

  lemma GrewTwice(s: Sys, t: Sys, u: Sys, pid: Int32, a: seq<Item>, b: seq<Item>)
    requires Grew(s, t, pid, a) && Grew(t, u, pid, b)
    ensures Grew(s, u, pid, a + b)
  {
    var n, m := |s.mon.log|, |t.mon.log|;
    forall i | 0 <= i < |a + b|
      ensures For(u.mon.log[n + i], pid, (a + b)[i])
    {
      if i < |a| {
        assert For(t.mon.log[n + i], pid, a[i]);
      } else {
        assert For(u.mon.log[m + (i - |a|)], pid, b[i - |a|]);
      }
    }
  }

  lemma GrewNothing(s: Sys, pid: Int32)
    requires Agree(s) && Clocked(s.mon)
    ensures Grew(s, s, pid, [])
  {
  }

  lemma TicketGrew(g: Gcm, s: Sys, pid: bv32, id: Id, op: bv16, d: Draw)
    requires Ideal(g) && Clocked(s.mon) && Fair(d) && d.written && Stores(d) && Agree(s)
    ensures Grew(s, SendTicket(g, s, pid, id, op, d).0, Signed(pid), ItemsOf(id, op))
  {
    hide SendTicket, Ideal, Agree;
    TicketExact(g, s, pid, id, op, d);
  }

  lemma LabelGrew(g: Gcm, s: Sys, file: Option<nat>, declassify: bool, d: Draw, pid: bv32)
    requires Ideal(g) && Clocked(s.mon) && Fair(d) && Agree(s)
    ensures Grew(s, SendLabel(g, s, file, declassify, d).0, Signed(pid), [])
  {
    hide SendLabel, Ideal, Agree, Labels.Install;
    LabelExact(g, s, file, declassify, d);
  }

  lemma ClaimGrew(g: Gcm, s: Sys, pid: bv32, op: bv16, file: Option<nat>, label_: Draw, open: Draw)
    requires Ideal(g) && Clocked(s.mon) && Fair(label_) && Fair(open) && Stores(open) && Agree(s)
    requires ClaimStep(g, s, pid, op, file, label_, open).1 == APPROVED
    ensures Grew(s, ClaimStep(g, s, pid, op, file, label_, open).0, Signed(pid), if Wants(op, OP_OPEN) then ItemsOf(label_.id, OP_OPEN) else [])
  {
    hide SendLabel, SendTicket, Ideal, Clocked, ItemsOf, Wants, Agree, LabelledBy;
    ClaimOutcome(g, s, pid, op, file, label_, open);
    LabelGrew(g, s, file, false, label_, pid);
    if Wants(op, OP_OPEN) {
      var t := SendLabel(g, s, file, false, label_).0;
      TicketGrew(g, t, pid, label_.id, OP_OPEN, open);
      GrewTwice(s, t, SendTicket(g, t, pid, label_.id, OP_OPEN, open).0, Signed(pid), [], ItemsOf(label_.id, OP_OPEN));
      assert [] + ItemsOf(label_.id, OP_OPEN) == ItemsOf(label_.id, OP_OPEN);
    }
  }

  lemma OpenGrew(g: Gcm, s: Sys, pid: bv32, req: Request, file: Option<nat>, label_: Draw, open: Draw)
    requires Ideal(g) && Clocked(s.mon) && Fair(label_) && Fair(open) && Stores(open) && Agree(s) && Sized(req)
    requires OpenStep(g, s, pid, req, file, label_, open, APPROVED).1 == APPROVED
    ensures Grew(s, OpenStep(g, s, pid, req, file, label_, open, APPROVED).0, Signed(pid),
                 ItemsOf(if Inducts(req) then label_.id else NamedId(req), req.op))
  {
    hide SendLabel, SendTicket, Ideal, Clocked, ItemsOf, Inducts, Agree, LabelledBy, NamedId;
    OpenOutcome(g, s, pid, req, file, label_, open);
    var t := if Inducts(req) then SendLabel(g, s, file, false, label_).0 else s;
    if Inducts(req) {
      LabelGrew(g, s, file, false, label_, pid);
    } else {
      GrewNothing(s, Signed(pid));
    }
    var id := if Inducts(req) then label_.id else NamedId(req);
    TicketGrew(g, t, pid, id, req.op, open);
    GrewTwice(s, t, SendTicket(g, t, pid, id, req.op, open).0, Signed(pid), [], ItemsOf(id, req.op));
    assert [] + ItemsOf(id, req.op) == ItemsOf(id, req.op);
  }

  lemma SubjectGrew(g: Gcm, s: Sys, r: (Sys, Response), pid: bv32, req: Request, d: Draw, items: seq<Item>, wanted: bool)
    requires Ideal(g) && Fair(d) && Stores(d) && Clocked(r.0.mon) && Grew(s, r.0, Signed(pid), items) && (wanted ==> d.written)
    ensures
      var (u, _) := if wanted then SubjectStep(g, r.0, pid, req, d, r.1) else r;
      Grew(s, u, Signed(pid), items + if wanted then ItemsOf(req.subject, req.op) else [])
  {
    hide SendTicket, Ideal, Clocked, ItemsOf, Agree;
    if wanted {
      TicketGrew(g, r.0, pid, req.subject, req.op, d);
      GrewTwice(s, r.0, SendTicket(g, r.0, pid, req.subject, req.op, d).0, Signed(pid), items, ItemsOf(req.subject, req.op));
    } else {
      assert items + [] == items;
    }
  }

  lemma FileGrew(g: Gcm, s: Sys, pid: bv32, req: Request, file: Option<nat>, draws: Draws)
    requires Ideal(g) && Clocked(s.mon) && AllFair(draws) && AllStore(draws) && Agree(s) && Sized(req)
    requires FileStep(g, s, pid, req, file, draws).1 == APPROVED
    ensures Grew(s, FileStep(g, s, pid, req, file, draws).0, Signed(pid), FileItems(req, draws))
  {
    hide ClaimStep, OpenStep, Ideal, Clocked, ItemsOf, Inducts, Agree, Wants, Grew, Rest, NamedId;
    RestBits(req.op);
    GrewNothing(s, Signed(pid));
    if Wants(req.op, OP_CLAIM) {
      ClaimGrew(g, s, pid, req.op, file, draws(0), draws(1));
    } else if Wants(req.op, OP_OPEN) {
      OpenGrew(g, s, pid, req, file, draws(2), draws(3));
    }
  }

  lemma CoreTickets(g: Gcm, s: Sys, pid: bv32, req: Request, file: Option<nat>, draws: Draws)
    requires Ideal(g) && Clocked(s.mon) && AllFair(draws) && AllStore(draws) && Agree(s) && Sized(req)
    requires Core(g, s, pid, req, file, draws).1 == APPROVED
    ensures Grew(s, Core(g, s, pid, req, file, draws).0, Signed(pid), Expected(req, draws))
  {
    hide Core, FileStep, SubjectStep, SendLabel, FileSucceeds, FilesAfter, Ideal, ItemsOf, FileItems, Agree, Wants, Grew, Clocked,
      Rest, Present, Inducting;
    CoreOutcome(g, s, pid, req, file, draws);
    FileOutcome(g, s, pid, req, file, draws);
    RestBits(req.op);
    FileGrew(g, s, pid, req, file, draws);
    var op, r2, a := Rest(req.op), FileStep(g, s, pid, req, file, draws), FileItems(req, draws);
    SubjectGrew(g, s, r2, pid, req, draws(4), a, Wants(op, OP_PTY | OP_SOCKET));
    var r3 := if Wants(op, OP_PTY | OP_SOCKET) then SubjectStep(g, r2.0, pid, req, draws(4), r2.1) else r2;
    var b := a + if Wants(op, OP_PTY | OP_SOCKET) then ItemsOf(req.subject, req.op) else [];
    SubjectGrew(g, s, r3, pid, req, draws(5), b, Wants(op, OP_SHM));
    var r4 := if Wants(op, OP_SHM) then SubjectStep(g, r3.0, pid, req, draws(5), r3.1) else r3;
    assert b + (if Wants(op, OP_SHM) then ItemsOf(req.subject, req.op) else []) == Expected(req, draws);
    CoreMiddle(g, s, pid, req, file, draws);
    MiddleOutcome(g, s, pid, req, file, draws);
    if Wants(req.op, OP_DECLASSIFY) {
      LabelGrew(g, r4.0, file, true, draws(6), pid);
      GrewTwice(s, r4.0, SendLabel(g, r4.0, file, true, draws(6)).0, Signed(pid), Expected(req, draws), []);
      assert Expected(req, draws) + [] == Expected(req, draws);
    }
  }

  // ----- from the bytes

  /** The byte has the bit. */
  predicate Has(b: bv8, bit: bv8) {
    b & bit != 0
  }

  function Operation(lo: bv8, hi: bv8): (op: bv16) {
    (hi as bv16 << 8) | lo as bv16
  }

  /** The tickets that a request asks for, read off its bytes: operation bits at 8 and 9, the subject at
      10, the flags of a translated path at 90 and 91, and the identifier it was translated to at 92. */
  function Asks(data: seq<bv8>, claimed: Id, inducted: Id): (r: seq<Item>)
    requires |data| == 90 || |data| == 4188
  {
    var op := Operation(data[8], data[9]);
    var subject := [Item(data[10..26], op)];
    (if !Has(data[8], 0x40) then []
     else if Has(data[8], 0x10) then [Item(claimed, 0x40)]
     else if |data| == 90 || data[90] == 0 then subject
     else if data[91] != 0 then [Item(data[92..108], op)]
     else [Item(inducted, op)])
    + (if op != 0x02 && (Has(data[8], 0x02) || Has(data[9], 0x03)) then subject else [])
    + (if Has(data[9], 0x04) then subject else [])
  }

  lemma OperationBytes(lo: bv8, hi: bv8)
    ensures var op := Operation(lo, hi);
      && FromLe16([lo, hi]) == op
      && (Wants(op, OP_OPEN) <==> Has(lo, 0x40)) && (Wants(op, OP_CLAIM) <==> Has(lo, 0x10))
      && (Wants(op, OP_PTY | OP_SOCKET) <==> Has(lo, 0x02) || Has(hi, 0x03)) && (Wants(op, OP_SHM) <==> Has(hi, 0x04))
      && (OnlyPty(op) ==> !Has(lo, 0x40) && !Has(hi, 0x04))
      && !OnlyPty(OP_OPEN)
  {
  }

  lemma ExpectedAsked(data: seq<bv8>, draws: Draws)
    requires ParseRequest(data).Some?
    ensures Expected(ParseRequest(data).value, draws) == Asks(data, draws(0).id, draws(2).id)
  {
    hide Wants, Has, Operation, FromLe16;
    var req := ParseRequest(data).value;
    OperationBytes(data[8], data[9]);
    assert data[8..10] == [data[8], data[9]];
    if req.extended.Some? {
      assert req.extended.value.metadata[..ID_LENGTH] == data[92..108];
    }
  }

  /** An approved request keeps the keys agreed and makes the kernel, if it has the memory, store exactly
      the tickets that its bytes ask for, in order and for the requesting process. The ticket of an
      OPEN is for the subject; with a translated path it is for the identifier that the path was
      translated to, or, if it had none, for the one that was drawn and is now written on the file. */
  lemma RequestTickets(g: Gcm, s: Sys, pid: bv32, data: seq<bv8>, buffer: bool, policy: Response, file: Option<nat>, draws: Draws)
    requires Ideal(g) && Clocked(s.mon) && AllFair(draws) && AllStore(draws) && Agree(s)
    requires Handle(g, s, pid, data, buffer, policy, file, draws).1 == APPROVED
    ensures |data| == 90 || |data| == 4188
    ensures var t := Handle(g, s, pid, data, buffer, policy, file, draws).0;
      Grew(s, t, Signed(pid), Asks(data, draws(0).id, draws(2).id))
    ensures var t, n := Handle(g, s, pid, data, buffer, policy, file, draws).0, |s.mon.log|;
      Has(data[8], 0x40) && !Has(data[8], 0x10) ==>
        && n < |t.mon.log| && t.mon.log[n].pid == Signed(pid)
        && (|data| == 90 ==> t.mon.log[n].ticket.id == data[10..26])
        && (|data| == 4188 && data[90] != 0 && data[91] != 0 ==> t.mon.log[n].ticket.id == data[92..108])
        && (|data| == 4188 && data[90] != 0 && data[91] == 0 ==>
          Present(t.mon, file) && ReadId(t.mon.files[file.value].disk.id) == Some(t.mon.log[n].ticket.id))
  {
    hide Core, Expected, Ideal, Agree, Clocked, TokenPid, Succeeds, Present, ReadId, Has, Operation, FromLe16, Wants;
    ApprovedExact(g, s, pid, data, buffer, policy, file, draws);
    var req, t := ParseRequest(data).value, Handle(g, s, pid, data, buffer, policy, file, draws).0;
    CoreTickets(g, s, pid, req, file, draws);
    ExpectedAsked(data, draws);
    if Has(data[8], 0x40) && !Has(data[8], 0x10) {
      assert For(t.mon.log[|s.mon.log|], Signed(pid), Asks(data, draws(0).id, draws(2).id)[0]);
      if |data| == 4188 && data[90] != 0 && data[91] == 0 {
        OperationBytes(data[8], data[9]);
        assert data[8..10] == [data[8], data[9]];
        InductedName(g, s, pid, req, file, draws);
      }
    }
  }

  /** The path that had no identifier has the new one, declassified or not. */
  lemma InductedName(g: Gcm, s: Sys, pid: bv32, req: Request, file: Option<nat>, draws: Draws)
    requires Ideal(g) && Clocked(s.mon) && AllFair(draws) && Agree(s) && Sized(req) && Inducting(req)
    requires Core(g, s, pid, req, file, draws).1 == APPROVED
    ensures var st := Core(g, s, pid, req, file, draws).0.mon;
      Present(st, file) && ReadId(st.files[file.value].disk.id) == Some(draws(2).id)
  {
    hide Core, Middle, FilesAfter, Ideal, Clocked, Agree, Wants, LabelledBy, Inducts, ReadId;
    CoreOutcome(g, s, pid, req, file, draws);
    CoreMonitor(g, s, pid, req, file, draws);
    MiddleOutcome(g, s, pid, req, file, draws);
    var st := Middle(g, s, pid, req, file, draws, 2).0.mon;
    FileBefore(s.mon, req, file, draws, st);
    if Wants(req.op, OP_DECLASSIFY) {
      DeclassifiedFile(st, file, draws(6));
    }
  }
}
