/** What the monitor promises over whole runs: access decisions are exactly the stored, live
    tickets; labels in memory agree with the disk; taint never goes away by itself. */
module Guarantees {
  import opened Bytes
  import opened Tickets
  import opened Options
  import opened Labels
  import opened Monitor
  import opened MonitorRuns
  import opened SearchTree

  // ----- access

  /** insert_ticket stored, less than fifteen seconds ago, a ticket for this process and this object
      that shares an operation bit with `op`, and the process still has the credential it went to. */
  ghost predicate Backed(st: State, pid: Int32, id: Id, op: bv16) {
    exists g :: g in st.log && g.pid == pid && Matches(g.ticket, id, op) && !Expired(g.ticket, st.now) && g !in st.lost
  }

  ghost predicate StoredRecently(st: State, pid: Int32, id: Id, op: bv16) {
    exists g :: g in st.log && g.pid == pid && g.ticket.id == id && Shares(g.ticket.op, op)
      && st.now - 15_000_000_000 < g.ticket.stamp <= st.now
  }

  /** After housekeeping, the ring scan succeeds exactly when a stored ticket backs the access. */
  lemma ScanIsBacked(st: State, pid: Int32, id: Id, op: bv16)
    requires TicketInv(st) && pid in st.tasks && pid > 1
    ensures Scan(TaskHousekeep(st, pid).tasks[pid].tickets, id, op) <==> Backed(st, pid, id, op)
  {
    hide TaskHousekeep, Expire, Live, Scan;
    var q := Queue(st, pid);
    var live := Live(q, st.now);
    HousekeepQueues(st, pid);
    QueueOf(st, pid);
    ExpiryOrdered(q, st.now);
    IncreasingSuffix(q, Freed(q, st.now));
    ScanOrdered(live, id, op);
    if Grants(live, id, op) {
      var t :| t in live && Matches(t, id, op);
      assert Grant(pid, t) in st.log && Grant(pid, t) !in st.lost;
    }
    if Backed(st, pid, id, op) {
      var g :| g in st.log && g.pid == pid && Matches(g.ticket, id, op) && !Expired(g.ticket, st.now) && g !in st.lost;
      assert Kept(st, g);
      assert g.ticket in live;
    }
  }

  /** The open hook on a protected object: granted by a ticket exactly when the object has an
      identifier and a stored, live ticket backs the access; otherwise denied. */
  lemma OpenExact(st: State, pid: Int32, file: nat, w: Writes)
    requires TicketInv(st) && pid in st.tasks && pid > 1 && Loaded(st, file)
    ensures
      var st1 := TaskHousekeep(st, pid);
      var l := Seen(st1, pid, file, w).0;
      Protected(st1.tasks[pid], st.files[file], l, pid == st.daemon) ==>
        OpenHook(st, pid, file, w).1 ==
          if !l.anonymous && Backed(st, pid, l.id, OP_OPEN) then ByTicket else Denied
  {
    var st1 := TaskHousekeep(st, pid);
    var l := Seen(st1, pid, file, w).0;
    ScanIsBacked(st, pid, l.id, OP_OPEN);
  }

  /** The same for the inode permission hook, which decides on the label in memory. */
  lemma PermissionExact(st: State, pid: Int32, file: nat)
    requires TicketInv(st) && pid in st.tasks && pid > 1 && Loaded(st, file)
    ensures
      var st1 := TaskHousekeep(st, pid);
      var l := st.files[file].mem.value;
      Protected(st1.tasks[pid], st.files[file], l, pid == st.daemon) ==>
        PermissionHook(st, pid, file).1 ==
          if !l.anonymous && Backed(st, pid, l.id, OP_OPEN) then ByTicket else Denied
  {
    ScanIsBacked(st, pid, st.files[file].mem.value.id, OP_OPEN);
  }

  /** Whatever the tree has lost and in whatever order tickets come back, what the scan finds after
      housekeeping was stored for this process less than fifteen seconds ago. */
  lemma ScanRecent(st: State, pid: Int32, id: Id, op: bv16)
    requires Recorded(st) && pid in st.tasks && pid > 1
    requires Scan(TaskHousekeep(st, pid).tasks[pid].tickets, id, op)
    ensures StoredRecently(st, pid, id, op)
  {
    hide Expire, Scan;
    var t := ScanSound(Queue(st, pid), st.now, id, op);
    assert Logged(st, pid);
    var gr := Grant(pid, t);
    assert gr in st.log && 0 < gr.ticket.stamp <= st.now;
  }

  /** A protected object that a hook lets a process through to is one the scan found. */
  lemma LetThrough(st: State, pid: Int32, file: nat, w: Writes)
    requires pid in st.tasks && pid > 1 && Loaded(st, file)
    ensures
      var st1 := TaskHousekeep(st, pid);
      var l, m := Seen(st1, pid, file, w).0, st.files[file].mem.value;
      && (Protected(st1.tasks[pid], st.files[file], l, pid == st.daemon) && OpenHook(st, pid, file, w).1 != Denied ==>
          !l.anonymous && Scan(st1.tasks[pid].tickets, l.id, OP_OPEN))
      && (Protected(st1.tasks[pid], st.files[file], m, pid == st.daemon) && PermissionHook(st, pid, file).1 != Denied ==>
          !m.anonymous && Scan(st1.tasks[pid].tickets, m.id, OP_OPEN))
  {
    hide Expire, Scan, Housekeep;
  }

  /** Grant soundness: in every run, whatever the tree loses and attribute writes fail, a protected object
      that a process gets to open, or passes the permission hook on, was granted to that process by a
      ticket stored less than fifteen seconds before. The permission hook goes by the label in
      memory. */
  lemma GrantSoundness(st0: State, es: seq<Event>, pid: Int32, file: nat, w: Writes)
    requires Initial(st0) && Runs(st0, es)
    requires var st := After(st0, es); pid in st.tasks && pid > 1 && Loaded(st, file)
    ensures
      var st := After(st0, es);
      var st1 := TaskHousekeep(st, pid);
      var l, m := Seen(st1, pid, file, w).0, st.files[file].mem.value;
      && (Protected(st1.tasks[pid], st.files[file], l, pid == st.daemon) && OpenHook(st, pid, file, w).1 != Denied ==>
          !l.anonymous && StoredRecently(st, pid, l.id, OP_OPEN))
      && (Protected(st1.tasks[pid], st.files[file], m, pid == st.daemon) && PermissionHook(st, pid, file).1 != Denied ==>
          !m.anonymous && StoredRecently(st, pid, m.id, OP_OPEN))
  {
    hide OpenHook, PermissionHook, Seen, Protected, Runs, After, Initial, Claiming, TicketInv, Recorded, StoredRecently, Scan;
    var st := After(st0, es);
    InitialInv(st0);
    Reachable(st0, es);
    LetThrough(st, pid, file, w);
    var st1 := TaskHousekeep(st, pid);
    var l, m := Seen(st1, pid, file, w).0, st.files[file].mem.value;
    if Scan(st1.tasks[pid].tickets, l.id, OP_OPEN) {
      ScanRecent(st, pid, l.id, OP_OPEN);
    }
    if Scan(st1.tasks[pid].tickets, m.id, OP_OPEN) {
      ScanRecent(st, pid, m.id, OP_OPEN);
    }
  }

  // ----- how long a grant lasts

  /** The process keeps its credential. */
  predicate KeepsCred(es: seq<Event>, pid: Int32) {
    forall e :: e in es ==> e != Exit(pid) && !(e.Replace? && e.pid == pid)
  }

  /** An installation on a file in realm that is refused, for want of an attribute write. */
  predicate Refused(e: Event)
    requires e.Install?
  {
    if Declassifies(e.op) then !e.w.remove else !e.w.id
  }

  /** No label is installed on the file; one may be refused. */
  predicate KeepsLabel(es: seq<Event>, file: nat) {
    forall e :: e in es && e.Install? && e.file == file ==> Refused(e)
  }

  lemma StepKeepsGrant(st: State, e: Event, g: Grant)
    requires TicketInv(st) && Enabled(st, e) && g in st.log && g !in st.lost
    requires e != Exit(g.pid) && !(e.Replace? && e.pid == g.pid)
    ensures g in Next(st, e).log && g !in Next(st, e).lost && st.now <= Next(st, e).now
  {
  }

  /** The file carries the identifier `id`, on disk and in memory. */
  predicate Named(st: State, file: nat, id: Id) {
    && file in st.files && OnDisk(st.files[file])
    && st.files[file].disk.inRealm && ReadId(st.files[file].disk.id) == Some(id)
    && (st.files[file].mem.Some? ==>
      var l := st.files[file].mem.value; !l.anonymous && l.id == id && l.inRealm)
  }

  lemma HousekeepNamed(l: Label, d: Xattrs, w: Writes, id: Id)
    requires Cached(l, d) && !l.anonymous && l.id == id && l.inRealm && ReadId(d.id) == Some(id)
    ensures var (l', d') := Housekeep(l, d, w); d' == d && !l'.anonymous && l'.id == id && l'.inRealm && Cached(l', d)
  {
  }

  lemma ReloadNamed(d: Xattrs, w: Writes, id: Id)
    requires d.inRealm && ReadId(d.id) == Some(id)
    ensures var (l, d') := Housekeep(FRESH, d, w); d' == d && !l.anonymous && l.id == id && l.inRealm && Cached(l, d)
  {
  }

  lemma RefusedNamed(l: Label, d: Xattrs, e: Event, id: Id)
    requires e.Install? && Refused(e)
    requires Cached(l, d) && !l.anonymous && l.id == id && l.inRealm && ReadId(d.id) == Some(id)
    ensures var (l', d', accepted) := Labels.Install(l, d, e.op, e.id, e.w);
      !accepted && d'.inRealm && d'.id == d.id && !l'.anonymous && l'.id == id && l'.inRealm && Cached(l', d')
  {
    hide ReadId, HexOf;
  }

  /** The file is named, and its label in memory is what the disk says. */
  predicate Steady(st: State, file: nat, id: Id) {
    && Named(st, file, id)
    && (st.files[file].mem.Some? ==> Cached(st.files[file].mem.value, st.files[file].disk))
  }

  /** No step but an installation on this very file disturbs it, whatever attribute writes fail. */
  lemma StepKeepsName(st: State, e: Event, file: nat, id: Id)
    requires Enabled(st, e) && Steady(st, file, id)
    requires e.Install? && e.file == file ==> Refused(e)
    ensures Steady(Next(st, e), file, id)
  {
    hide Claiming, CanAccess, Housekeep, InsertRecord, ReadId, GrantsOf, ShmOutcome, Cached, Labels.Install, Orderable;
    if !TouchesFiles(e) {
      FilesSame(st, e);
    } else if e.Open? && e.file == file {
      NamedIsNoPipe(st, e.pid, file, id);
      HousekeepNamed(st.files[file].mem.value, st.files[file].disk, e.w, id);
    } else if e.Permission? && e.file == file {
      NamedIsNoPipe(st, e.pid, file, id);
    } else if e.Install? && e.file == file {
      RefusedNamed(st.files[file].mem.value, st.files[file].disk, e, id);
    } else if e.Reload? && e.file == file {
      ReloadNamed(st.files[file].disk, e.w, id);
    }
  }

  lemma NamedIsNoPipe(st: State, pid: Int32, file: nat, id: Id)
    requires Named(st, file, id) && Loaded(st, file) && pid in st.tasks
    ensures TaggedLabel(st, pid, file) == st.files[file].mem.value
  {
  }

  /** Grant completeness: a ticket for a named file opens it, and passes the permission hook on it, at
      every moment before it is fifteen seconds old, whatever else happens, unless the file is
      relabelled, the credential goes, or a process ID was stored that the tree cannot order with the
      others. */
  lemma {:induction false} GrantCompleteness(st: State, es: seq<Event>, g: Grant, file: nat, w: Writes)
    requires TicketInv(st) && Runs(st, es) && KeepsCred(es, g.pid) && KeepsLabel(es, file)
    requires g in st.log && g !in st.lost && Shares(g.ticket.op, OP_OPEN) && g.pid > 1
    requires Steady(st, file, g.ticket.id) && Orderable(TreeKeys(After(st, es)))
    ensures var st' := After(st, es);
      g.pid in st'.tasks && Loaded(st', file) && st'.now < g.ticket.stamp + EXPIRY ==>
        OpenHook(st', g.pid, file, w).1 != Denied && PermissionHook(st', g.pid, file).1 != Denied
    decreases |es|
  {
    hide TicketInv, Steady, Next, Enabled, OpenHook, PermissionHook, TreeKeys, Orderable;
    if es != [] {
      var e := es[0];
      assert e in es;
      KeysGrowRun(Next(st, e), es[1..]);
      SubsetOrderable(TreeKeys(Next(st, e)), TreeKeys(After(st, es)));
      StepTickets(st, e);
      StepKeepsGrant(st, e, g);
      StepKeepsName(st, e, file, g.ticket.id);
      GrantCompleteness(Next(st, e), es[1..], g, file, w);
    } else if g.pid in st.tasks && Loaded(st, file) && st.now < g.ticket.stamp + EXPIRY {
      GrantedNow(st, g, file, w);
    }
  }

  lemma GrantedNow(st: State, g: Grant, file: nat, w: Writes)
    requires TicketInv(st) && g in st.log && g !in st.lost && Shares(g.ticket.op, OP_OPEN) && g.pid > 1
    requires Steady(st, file, g.ticket.id) && g.pid in st.tasks && Loaded(st, file)
    requires !Expired(g.ticket, st.now)
    ensures OpenHook(st, g.pid, file, w).1 != Denied && PermissionHook(st, g.pid, file).1 != Denied
  {
    hide TicketInv, Housekeep, Expire, Scan;
    var f := st.files[file];
    HousekeepNamed(f.mem.value, f.disk, w, g.ticket.id);
    assert Backed(st, g.pid, g.ticket.id, OP_OPEN);
    OpenExact(st, g.pid, file, w);
    PermissionExact(st, g.pid, file);
  }

  /** A ticket belongs to a process ID. When a process ends before it has claimed what waits for it, the
      next process with its ID does. */
  lemma SuccessorClaims(st: State, pid: Int32, parent: Int32, id: Id)
    requires pid in st.tasks && parent in st.tasks && parent != pid && pid > 1
    ensures Runs(st, [Exit(pid), Fork(parent, pid, id)])
    ensures var st' := After(st, [Exit(pid), Fork(parent, pid, id)]);
      && pid in st'.tasks && st'.tasks[pid].tickets == []
      && TaskHousekeep(st', pid).tasks[pid].tickets == Expire(PendingFor(st.pending, pid).tickets, st.now)
  {
    hide GrantsOf, Expire;
    var es := [Exit(pid), Fork(parent, pid, id)];
    var st1 := Next(st, es[0]);
    var st2 := Next(st1, es[1]);
    assert es[1..] == [es[1]] && [es[1]][1..] == [];
    assert Runs(st2, []) && After(st2, []) == st2;
    assert Runs(st1, [es[1]]) && After(st1, [es[1]]) == st2;
    assert [] + PendingFor(st.pending, pid).tickets == PendingFor(st.pending, pid).tickets;
  }

  /** A reservation that the tree has lost is as good as none: the process is denied, although its ticket
      is live and was never taken from it. */
  lemma LostIsDenied(st: State, pid: Int32, file: nat, w: Writes)
    requires Enabled(st, Hide(pid)) && pid in st.tasks && pid > 1 && st.tasks[pid].tickets == [] && Loaded(st, file)
    ensures var st' := Next(st, Hide(pid));
      var st1 := TaskHousekeep(st', pid);
      && st'.log == st.log && st'.lost == st.lost
      && (Protected(st1.tasks[pid], st.files[file], Seen(st1, pid, file, w).0, pid == st.daemon) ==>
          OpenHook(st', pid, file, w).1 == Denied)
  {
    hide Orderable, Housekeep;
    var st' := Next(st, Hide(pid));
    assert Queue(st', pid) == [];
  }

  // ----- labels

  /** Label coherence: in every state reached by steps that are safe for the file, its loaded label says
      what a fresh read of the attributes would say: the realm flag if the in_realm writes it needs
      succeed, the identifier if that write does too. What happens to other files does not matter. */
  lemma LabelCoherence(st0: State, es: seq<Event>, file: nat)
    requires Initial(st0) && Runs(st0, es) && SafeRun(st0, es, file, false)
    requires var st := After(st0, es); Loaded(st, file) && OnDisk(st.files[file])
    ensures
      var f := After(st0, es).files[file];
      var l, read := f.mem.value, Load(FRESH, f.disk);
      && !l.needsUpdate && (l.checked ==> l.inRealm == read.inRealm)
      && (SafeRun(st0, es, file, true) ==>
        && Coherent(l, f.disk)
        && (l.checked && l.inRealm && !l.anonymous ==> !read.anonymous && l.id == read.id))
  {
    hide Runs, After, SafeRun;
    InitialInv(st0);
    ReachableLabels(st0, es, file, false);
    if SafeRun(st0, es, file, true) {
      ReachableLabels(st0, es, file, true);
    }
  }

  // ----- taint

  /** Processes, segments and files that taint must have reached. */
  datatype Marked = Marked(procs: set<Int32>, segs: set<Int32>, files: set<nat>)

  /** How marks travel. A ticket grant on an object in realm marks the reader; a child inherits the
      mark, and so does a file the process creates, or anybody creates in a directory in realm; a ticket grant on shared memory marks both sides
      when either is marked. Only an accepted declassification unmarks a file, and only the end of
      a process or segment removes it. */
  function Spread(st: State, m: Marked, e: Event): (r: Marked)
    requires Enabled(st, e)
  {
    match e
    case Open(pid, file, w) =>
      if OpenHook(st, pid, file, w).1 == ByTicket && Seen(TaskHousekeep(st, pid), pid, file, w).0.inRealm
      then m.(procs := m.procs + {pid}) else m
    case Permission(pid, file) =>
      if PermissionHook(st, pid, file).1 == ByTicket && st.files[file].mem.value.inRealm
      then m.(procs := m.procs + {pid}) else m
    case Fork(pid, child, _) =>
      if pid in m.procs then m.(procs := m.procs + {child}) else m.(procs := m.procs - {child})
    case Exit(pid) => m.(procs := m.procs - {pid})
    case Create(pid, dir, file, _, _, _, _) =>
      if pid in m.procs || st.files[dir].mem.value.inRealm then m.(files := m.files + {file}) else m.(files := m.files - {file})
    case Install(file, op, id, w) =>
      if Declassifies(op) && Labels.Install(st.files[file].mem.value, st.files[file].disk, op, id, w).2
      then m.(files := m.files - {file}) else m
    case ShmCreate(seg, _) => m.(segs := m.segs - {seg})
    case ShmRemove(seg) => m.(segs := m.segs - {seg})
    case ShmAccess(pid, seg) =>
      if ShmHook(st, pid, seg).1 == ByTicket && (pid in m.procs || seg in m.segs)
      then m.(procs := m.procs + {pid}, segs := m.segs + {seg}) else m
    case _ => m
  }

  function Spreads(st: State, m: Marked, es: seq<Event>): (r: Marked)
    requires Runs(st, es)
    decreases |es|
  {
    if es == [] then m else Spreads(Next(st, es[0]), Spread(st, m, es[0]), es[1..])
  }

  /** Everything marked is in realm: a file on disk, so that every later load finds it there. */
  predicate Reached(st: State, m: Marked) {
    && (forall p :: p in m.procs && p in st.tasks ==> st.tasks[p].inRealm)
    && (forall s :: s in m.segs && s in st.segments ==> st.segments[s].inRealm)
    && (forall f :: f in m.files ==> f in st.files && OnDisk(st.files[f]) && st.files[f].disk.inRealm)
  }

  /** The part both hooks share: a task changes its tickets and may become tainted, a file keeps its
      realm attribute. */
  lemma HookReached(st: State, st': State, m: Marked, pid: Int32, file: nat)
    requires Reached(st, m) && pid in st.tasks && file in st.files
    requires pid in st'.tasks && st'.tasks == st.tasks[pid := st'.tasks[pid]] && st'.segments == st.segments
    requires file in st'.files && st'.files == st.files[file := st'.files[file]]
    requires st.tasks[pid].inRealm ==> st'.tasks[pid].inRealm
    requires OnDisk(st.files[file]) ==>
      OnDisk(st'.files[file]) && (st.files[file].disk.inRealm ==> st'.files[file].disk.inRealm)
    ensures Reached(st', m)
    ensures st'.tasks[pid].inRealm ==> Reached(st', m.(procs := m.procs + {pid}))
  {
  }

  /** Housekeeping never takes a file out of realm. */
  lemma HousekeepMarked(l: Label, d: Xattrs, w: Writes)
    ensures d.inRealm ==> Housekeep(l, d, w).1.inRealm
  {
  }

  lemma OpenTaint(st: State, m: Marked, pid: Int32, file: nat, w: Writes)
    requires Reached(st, m) && pid in st.tasks && Loaded(st, file)
    ensures Reached(OpenHook(st, pid, file, w).0, Spread(st, m, Open(pid, file, w)))
  {
    hide Expire, CanAccess, Housekeep, Reached;
    HousekeepMarked(TaggedLabel(st, pid, file), st.files[file].disk, w);
    HookReached(st, OpenHook(st, pid, file, w).0, m, pid, file);
  }

  lemma PermissionTaint(st: State, m: Marked, pid: Int32, file: nat)
    requires Reached(st, m) && pid in st.tasks && Loaded(st, file)
    ensures Reached(PermissionHook(st, pid, file).0, Spread(st, m, Permission(pid, file)))
  {
    hide Expire, CanAccess, Reached;
    HookReached(st, PermissionHook(st, pid, file).0, m, pid, file);
  }

  /** The in_realm write of a file that is born in realm succeeds. */
  predicate MarkWritten(st: State, e: Event)
    requires Enabled(st, e)
  {
    e.Create? && (st.tasks[e.pid].inRealm || st.files[e.dir].mem.value.inRealm) ==> e.w.realm
  }

  predicate MarksWritten(st: State, es: seq<Event>)
    requires Runs(st, es)
    decreases |es|
  {
    es == [] || (MarkWritten(st, es[0]) && MarksWritten(Next(st, es[0]), es[1..]))
  }

  lemma CreateTaint(st: State, m: Marked, e: Event)
    requires Reached(st, m) && Enabled(st, e) && e.Create? && MarkWritten(st, e)
    ensures Reached(Next(st, e), Spread(st, m, e))
  {
  }

  lemma StepTaint(st: State, m: Marked, e: Event)
    requires Reached(st, m) && Enabled(st, e) && MarkWritten(st, e)
    ensures Reached(Next(st, e), Spread(st, m, e))
  {
    hide Reached, OpenHook, PermissionHook, ShmHook, Housekeep, InsertRecord, Labels.Install, MarkWritten, Orderable;
    match e
    case Open(pid, file, w) => OpenTaint(st, m, pid, file, w);
    case Permission(pid, file) => PermissionTaint(st, m, pid, file);
    case Create(_, _, _, _, _, _, _) => CreateTaint(st, m, e);
    case Reload(file, w) => ReloadTaint(st, m, file, w);
    case ShmAccess(pid, seg) => ShmTaint(st, m, pid, seg);
    case _ => QuietTaint(st, m, e);
  }

  /** The marks on files set aside. */
  function Unfiled(m: Marked): (r: Marked) {
    m.(files := {})
  }

  /** Marks on processes and segments travel without regard to those on files. */
  lemma SpreadUnfiled(st: State, m: Marked, e: Event)
    requires Enabled(st, e)
    ensures Unfiled(Spread(st, Unfiled(m), e)) == Unfiled(Spread(st, m, e))
  {
    hide OpenHook, PermissionHook, ShmHook, Labels.Install, Seen, Orderable;
  }

  lemma StepUnfiled(st: State, m: Marked, e: Event)
    requires Reached(st, Unfiled(m)) && Enabled(st, e)
    ensures Reached(Next(st, e), Unfiled(Spread(st, m, e)))
  {
    hide Reached, OpenHook, PermissionHook, ShmHook, Spread, Next, Enabled, MarkWritten;
    SpreadUnfiled(st, m, e);
    if e.Create? {
      CreateUnfiled(st, m, e);
    } else {
      NotCreated(st, e);
      StepTaint(st, Unfiled(m), e);
      ForgetFiles(Next(st, e), Spread(st, Unfiled(m), e));
    }
  }

  lemma NotCreated(st: State, e: Event)
    requires Enabled(st, e) && !e.Create?
    ensures MarkWritten(st, e)
  {
  }

  lemma ForgetFiles(st: State, m: Marked)
    requires Reached(st, m)
    ensures Reached(st, Unfiled(m))
  {
  }

  lemma CreateUnfiled(st: State, m: Marked, e: Event)
    requires Reached(st, Unfiled(m)) && Enabled(st, e) && e.Create?
    ensures Reached(Next(st, e), Unfiled(Spread(st, m, e)))
  {
    hide Housekeep;
  }

  lemma ReloadTaint(st: State, m: Marked, file: nat, w: Writes)
    requires Reached(st, m) && Enabled(st, Reload(file, w))
    ensures Reached(Next(st, Reload(file, w)), Spread(st, m, Reload(file, w)))
  {
    hide Housekeep;
    ReloadCached(st.files[file].disk, w);
  }

  lemma ShmTaint(st: State, m: Marked, pid: Int32, seg: Int32)
    requires Reached(st, m) && Enabled(st, ShmAccess(pid, seg))
    ensures Reached(Next(st, ShmAccess(pid, seg)), Spread(st, m, ShmAccess(pid, seg)))
  {
    hide Scan;
  }

  lemma QuietTaint(st: State, m: Marked, e: Event)
    requires Reached(st, m) && Enabled(st, e)
    requires !e.Open? && !e.Permission? && !e.Create? && !e.Reload? && !e.ShmAccess?
    ensures Reached(Next(st, e), Spread(st, m, e))
  {
    hide Housekeep, InsertRecord, Expire;
  }

  /** Taint persistence and closure: along every run, whatever attribute writes fail and labels are set,
      every process and segment that a chain of grants, forks and shared-memory accesses connects to
      a tainted one is in realm. */
  lemma {:induction false} TaintPersistence(st: State, m: Marked, es: seq<Event>)
    requires Runs(st, es) && Reached(st, Unfiled(m))
    ensures Reached(After(st, es), Unfiled(Spreads(st, m, es)))
    decreases |es|
  {
    hide Reached, Next, Enabled, Spread, Unfiled;
    if es != [] {
      StepUnfiled(st, m, es[0]);
      TaintPersistence(Next(st, es[0]), Spread(st, m, es[0]), es[1..]);
    }
  }

  /** Everything in realm is marked: taint comes from nowhere else. */
  predicate Justified(st: State, m: Marked) {
    && (forall p :: p in st.tasks && st.tasks[p].inRealm ==> p in m.procs)
    && (forall s :: s in st.segments && st.segments[s].inRealm ==> s in m.segs)
  }

  lemma HookJustified(st: State, m: Marked, e: Event)
    requires Justified(st, m) && Enabled(st, e) && (e.Open? || e.Permission?)
    ensures Justified(Next(st, e), Spread(st, m, e))
  {
    hide Expire, CanAccess, Housekeep;
  }

  lemma ShmJustified(st: State, m: Marked, e: Event)
    requires Justified(st, m) && Enabled(st, e) && e.ShmAccess?
    ensures Justified(Next(st, e), Spread(st, m, e))
  {
    hide Scan;
  }

  lemma StepJustified(st: State, m: Marked, e: Event)
    requires Justified(st, m) && Enabled(st, e)
    ensures Justified(Next(st, e), Spread(st, m, e))
  {
    if e.Open? || e.Permission? {
      hide Next, Spread, Justified;
      HookJustified(st, m, e);
    } else if e.ShmAccess? {
      hide Next, Spread, Justified;
      ShmJustified(st, m, e);
    } else {
      hide Housekeep, InsertRecord, Expire, Labels.Install, GrantsOf, Orderable;
    }
  }

  lemma {:induction false} RunJustified(st: State, m: Marked, es: seq<Event>)
    requires Runs(st, es) && Justified(st, m)
    ensures Justified(After(st, es), Spreads(st, m, es))
    decreases |es|
  {
    hide Justified, Next, Enabled, Spread;
    if es != [] {
      StepJustified(st, m, es[0]);
      RunJustified(Next(st, es[0]), Spread(st, m, es[0]), es[1..]);
    }
  }

  /** Taint is exactly that: along every run a process or a segment is in realm if and only if such a
      chain connects it to one that was at the start. */
  lemma TaintExact(st: State, m: Marked, es: seq<Event>)
    requires Runs(st, es) && Reached(st, Unfiled(m)) && Justified(st, m)
    ensures var st', m' := After(st, es), Spreads(st, m, es);
      && (forall p :: p in st'.tasks ==> (st'.tasks[p].inRealm <==> p in m'.procs))
      && (forall s :: s in st'.segments ==> (st'.segments[s].inRealm <==> s in m'.segs))
  {
    hide Runs, After, Spreads;
    TaintPersistence(st, m, es);
    RunJustified(st, m, es);
  }

  /** ... and so is, until it is declassified, every file that such a process creates or that is created
      in a directory in realm, if its in_realm write succeeds each time. */
  lemma {:induction false} FileTaintPersistence(st: State, m: Marked, es: seq<Event>)
    requires Runs(st, es) && MarksWritten(st, es) && Reached(st, m)
    ensures Reached(After(st, es), Spreads(st, m, es))
    decreases |es|
  {
    hide Reached, Next, Enabled, MarkWritten, Spread;
    if es != [] {
      StepTaint(st, m, es[0]);
      FileTaintPersistence(Next(st, es[0]), Spread(st, m, es[0]), es[1..]);
    }
  }

  /** A marked file whose label is in step with the disk is in realm for the open hook. */
  lemma MarkedFileIsProtected(st: State, m: Marked, pid: Int32, file: nat, w: Writes)
    requires LabelInv(st, file, false) && Reached(st, m) && file in m.files && pid in st.tasks && Loaded(st, file)
    ensures Seen(st, pid, file, w).0.inRealm
  {
    HousekeepCached(st.files[file].mem.value, st.files[file].disk, w);
  }

  // ----- shared memory

  /** shm_can_access follows a null pointer exactly when a decision by ticket is due and the process
      holds no ticket: either side is in realm, it is not the daemon, and its ring is empty. */
  lemma ShmFaultExact(st: State, pid: Int32, seg: Int32)
    requires pid in st.tasks && seg in st.segments
    ensures ShmHook(st, pid, seg).1 == Faulted <==>
      (st.tasks[pid].inRealm || st.segments[seg].inRealm) && pid != st.daemon && st.tasks[pid].tickets == []
    ensures ShmHook(st, pid, seg).1 == Exempt <==>
      (!st.tasks[pid].inRealm && !st.segments[seg].inRealm) || pid == st.daemon
  {
  }

  /** Two steps from any tainted process: its child has no ticket, and faults at the first segment. */
  lemma ChildFaults(st: State, pid: Int32, child: Int32, id: Id, seg: Int32)
    requires pid in st.tasks && st.tasks[pid].inRealm && child !in st.tasks && seg in st.segments && child != st.daemon
    ensures Enabled(st, Fork(pid, child, id))
    ensures var st' := Next(st, Fork(pid, child, id));
      Enabled(st', ShmAccess(child, seg)) && ShmHook(st', child, seg).1 == Faulted
  {
  }

  /** A process that holds tickets is granted shared memory by any that matches, however old: this
      hook does no housekeeping first. */
  lemma ShmExact(st: State, pid: Int32, seg: Int32)
    requires TicketInv(st) && pid in st.tasks && seg in st.segments && pid != st.daemon
    requires st.tasks[pid].inRealm || st.segments[seg].inRealm
    ensures ShmHook(st, pid, seg).1 ==
      if st.tasks[pid].tickets == [] then Faulted
      else if Grants(st.tasks[pid].tickets, st.segments[seg].id, OP_SHM) then ByTicket else Denied
    ensures forall t :: t in st.tasks[pid].tickets ==> Grant(pid, t) in st.log
  {
    hide TicketInv, Scan, Grants, Increasing;
    HeldOrdered(st, pid);
    ScanOrdered(st.tasks[pid].tickets, st.segments[seg].id, OP_SHM);
  }

  /** Whatever the tree has lost: shared memory is granted only by a ticket once stored for the process. */
  lemma ShmSound(st: State, pid: Int32, seg: Int32)
    requires Recorded(st) && pid in st.tasks && seg in st.segments && ShmHook(st, pid, seg).1 == ByTicket
    ensures exists g :: g in st.log && g.pid == pid && Matches(g.ticket, st.segments[seg].id, OP_SHM)
  {
    var held := st.tasks[pid].tickets;
    var i :| 0 <= i < Reach(held) && Matches(held[i], st.segments[seg].id, OP_SHM);
    assert Logged(st, pid);
    assert held[i] == Queue(st, pid)[i];
    assert Grant(pid, held[i]) in st.log;
  }

  /** The tickets a process holds are in time order and were all stored. */
  lemma HeldOrdered(st: State, pid: Int32)
    requires TicketInv(st) && pid in st.tasks
    ensures var held := st.tasks[pid].tickets;
      && Increasing(held) && (held != [] ==> held[0].stamp > 0)
      && (forall t :: t in held ==> Grant(pid, t) in st.log)
  {
    hide TicketInv;
    var held := st.tasks[pid].tickets;
    QueueOf(st, pid);
    assert forall i :: 0 <= i < |held| ==> held[i] == Queue(st, pid)[i];
  }
}
