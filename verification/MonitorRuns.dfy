/** What every run of the monitor keeps, and what follows for access, labels and taint. */
module MonitorRuns {
  import opened Bytes
  import opened Tickets
  import opened Options
  import opened Labels
  import opened Monitor
  import opened SearchTree

  // ----- the invariant

  function TicketsOf(st: State, pid: Int32): (r: seq<Ticket>) {
    if pid in st.tasks then st.tasks[pid].tickets else []
  }

  /** All tickets of a process: those it holds, then those that wait for it. */
  function Queue(st: State, pid: Int32): (r: seq<Ticket>) {
    TicketsOf(st, pid) + PendingFor(st.pending, pid).tickets
  }

  predicate Clocked(st: State) {
    st.now > 0 && forall g :: g in st.log ==> 0 < g.ticket.stamp <= st.now
  }

  /** All tickets a process holds or waits for were stored for it. */
  predicate Logged(st: State, pid: Int32) {
    forall t :: t in Queue(st, pid) ==> Grant(pid, t) in st.log
  }

  /** ... and so were those that the search does not find. */
  predicate StrayLogged(st: State, s: Stray) {
    forall t :: t in s.kept.tickets ==> Grant(s.pid, t) in st.log
  }

  /** Wherever a ticket is, it was stored for the process. */
  ghost predicate Recorded(st: State) {
    && Clocked(st) && (forall g :: g in st.lost ==> g in st.log)
    && (forall pid :: Logged(st, pid)) && (forall s :: s in st.strays ==> StrayLogged(st, s))
  }

  /** The search finds every reservation, and goes on doing so. */
  predicate Orderly(st: State) {
    st.strays == multiset{} && Orderable(st.pending.Keys)
  }

  /** Held and pending tickets are in strict time order across both rings, and all were stored. */
  predicate Queued(st: State, pid: Int32) {
    && Increasing(Queue(st, pid))
    && (forall t :: t in Queue(st, pid) ==> Grant(pid, t) in st.log && Grant(pid, t) !in st.lost)
  }

  /** No live ticket has disappeared, but for those of a replaced credential. */
  predicate Kept(st: State, g: Grant) {
    !Expired(g.ticket, st.now) && g !in st.lost ==> g.ticket in Queue(st, g.pid)
  }

  /** What runs keep as long as the tree's comparison can order all process IDs in it. */
  ghost predicate TicketInv(st: State) {
    && Clocked(st) && Orderly(st)
    && (forall g :: g in st.lost ==> g in st.log)
    && (forall pid :: Queued(st, pid))
    && (forall g :: g in st.log ==> Kept(st, g))
  }

  /** No label waits to be written, whatever the attribute writes did. */
  predicate Tidy(st: State) {
    forall file :: file in st.files && st.files[file].mem.Some? ==>
      !st.files[file].mem.value.isSocket && !st.files[file].mem.value.needsUpdate
  }

  /** The label of an ordinary file, when it is loaded, is in step with the disk. */
  predicate LabelInv(st: State, file: nat, named: bool) {
    file in st.files && OnDisk(st.files[file]) && st.files[file].mem.Some? ==>
      var l, d := st.files[file].mem.value, st.files[file].disk;
      Flagged(l, d) && (named ==> Cached(l, d))
  }

  /** What every run keeps. */
  ghost predicate Inv(st: State) {
    Recorded(st) && Tidy(st)
  }

  /** A monitor that has just started: no process holds a ticket, no file is labelled. */
  predicate Initial(st: State) {
    && st.now > 0 && st.pending == map[] && st.strays == multiset{} && st.log == [] && st.lost == {}
    && (forall pid :: pid in st.tasks ==> st.tasks[pid].tickets == [] && !st.tasks[pid].pty)
    && (forall file :: file in st.files ==> st.files[file].mem == None)
  }

  lemma InitialInv(st: State)
    requires Initial(st)
    ensures Inv(st) && TicketInv(st)
    ensures forall file, named :: LabelInv(st, file, named)
  {
  }

  // ----- the keys of the tree

  predicate SameTree(st: State, st': State) {
    st'.strays == st.strays && st'.pending.Keys == st.pending.Keys
  }

  /** Only insertion adds to the tree, and only a tree out of order loses and finds. */
  lemma TreeSame(st: State, e: Event)
    requires Enabled(st, e) && !e.Insert? && !e.Hide? && !e.Show?
    ensures SameTree(st, Next(st, e))
  {
    hide OpenFile, PermissionFile, Claiming, Housekeep, GrantsOf, Labels.Install, ShmOutcome, Orderable;
  }

  lemma InsertKeys(st: State, e: Event)
    requires Enabled(st, e) && e.Insert?
    ensures TreeKeys(st) <= TreeKeys(Next(st, e))
  {
    hide StoreIn;
    assert st.pending.Keys <= Next(st, e).pending.Keys;
  }

  lemma HideKeys(st: State, e: Event)
    requires Enabled(st, e) && e.Hide?
    ensures TreeKeys(st) <= TreeKeys(Next(st, e))
  {
    hide Orderable;
    assert Stray(e.pid, st.pending[e.pid]) in Next(st, e).strays;
  }

  lemma ShowKeys(st: State, e: Event)
    requires Enabled(st, e) && e.Show?
    ensures TreeKeys(st) <= TreeKeys(Next(st, e))
  {
    hide Orderable;
    var st' := Next(st, e);
    forall s | s in st.strays
      ensures s.pid in TreeKeys(st')
    {
      assert e.stray == s || s in st'.strays;
    }
  }

  /** No process ID ever leaves the tree. */
  lemma KeysGrow(st: State, e: Event)
    requires Enabled(st, e)
    ensures TreeKeys(st) <= TreeKeys(Next(st, e))
  {
    hide Next, Enabled;
    match e
    case Insert(_, _) => InsertKeys(st, e);
    case Hide(_) => HideKeys(st, e);
    case Show(_) => ShowKeys(st, e);
    case _ => TreeSame(st, e);
  }

  lemma {:induction false} KeysGrowRun(st: State, es: seq<Event>)
    requires Runs(st, es)
    ensures TreeKeys(st) <= TreeKeys(After(st, es))
    decreases |es|
  {
    hide Next, Enabled, TreeKeys;
    if es != [] {
      KeysGrow(st, es[0]);
      KeysGrowRun(Next(st, es[0]), es[1..]);
    }
  }

  /** As long as the comparison can order the keys, no reservation is lost. */
  lemma OrderlyNext(st: State, e: Event)
    requires Orderly(st) && Enabled(st, e) && Orderable(TreeKeys(Next(st, e)))
    ensures Orderly(Next(st, e)) && !e.Hide? && !e.Show?
  {
    hide Orderable;
    assert TreeKeys(st) == st.pending.Keys;
    var st' := Next(st, e);
    if e.Insert? {
      assert TreeKeys(st') == st'.pending.Keys;
    } else if !e.Hide? && !e.Show? {
      hide Next, Enabled;
      TreeSame(st, e);
    }
  }

  lemma OrderlySame(st: State, st': State)
    requires TicketInv(st) && SameTree(st, st')
    ensures Orderly(st')
  {
  }

  // ----- tickets: one lemma for each way a step touches them

  /** Steps that leave queues and history alone only let time pass. */
  lemma SameQueues(st: State, st': State)
    requires TicketInv(st) && Orderly(st') && st.now <= st'.now && st'.log == st.log && st'.lost == st.lost
    requires forall pid :: Queue(st', pid) == Queue(st, pid)
    ensures TicketInv(st')
  {
    forall pid
      ensures Queued(st', pid)
    {
      assert Queued(st, pid);
    }
    forall g | g in st'.log
      ensures Kept(st', g)
    {
      assert Kept(st, g);
    }
  }

  lemma QueueOf(st: State, pid: Int32)
    requires TicketInv(st)
    ensures Increasing(Queue(st, pid))
    ensures forall t :: t in Queue(st, pid) ==> Grant(pid, t) in st.log && Grant(pid, t) !in st.lost && 0 < t.stamp <= st.now
  {
    assert Queued(st, pid);
  }

  lemma IncreasingSuffix(s: seq<Ticket>, k: nat)
    requires Increasing(s) && k <= |s|
    ensures Increasing(s[k..])
    ensures forall t :: t in s[k..] ==> t in s
  {
    var r := s[k..];
    assert forall i :: 0 <= i < |r| ==> r[i] == s[k + i];
  }

  /** The queue of one process loses its oldest tickets: those that have expired or are lost. */
  lemma ShorterQueue(st: State, st': State, pid: Int32, k: nat)
    requires TicketInv(st) && Orderly(st') && st'.now == st.now && st'.log == st.log
    requires k <= |Queue(st, pid)| && Queue(st', pid) == Queue(st, pid)[k..]
    requires forall p :: p != pid ==> Queue(st', p) == Queue(st, p)
    requires exists gone :: gone <= GrantsOf(pid, Queue(st, pid)[..k]) && st'.lost == st.lost + gone
    requires forall t :: t in Queue(st, pid) && t !in Queue(st', pid) ==> Expired(t, st.now) || Grant(pid, t) in st'.lost
    ensures TicketInv(st')
  {
    var q := Queue(st, pid);
    assert Queued(st, pid);
    IncreasingSuffix(q, k);
    assert forall t :: t in q[..k] ==> t in q && t !in q[k..];
    forall p
      ensures Queued(st', p)
    {
      assert Queued(st, p);
    }
    forall g | g in st'.log
      ensures Kept(st', g)
    {
      assert Kept(st, g);
    }
  }

  lemma HousekeepQueues(st: State, pid: Int32)
    requires TicketInv(st) && pid in st.tasks
    ensures TicketInv(TaskHousekeep(st, pid))
    ensures pid > 1 ==> TaskHousekeep(st, pid).tasks[pid].tickets == Live(Queue(st, pid), st.now)
  {
    hide Expire, Freed, Live, TicketInv;
    if pid > 1 {
      var st', q := TaskHousekeep(st, pid), Queue(st, pid);
      QueueOf(st, pid);
      ExpiryOrdered(q, st.now);
      assert Queue(st', pid) == Live(q, st.now);
      assert st'.lost == st.lost + {};
      OrderlySame(st, st');
      ShorterQueue(st, st', pid, Freed(q, st.now));
    }
  }

  lemma InsertQueues(st: State, r: Record, mem: Memory)
    requires TicketInv(st) && Enabled(st, Insert(r, mem)) && Orderly(Next(st, Insert(r, mem)))
    ensures TicketInv(Next(st, Insert(r, mem)))
  {
    var st' := Next(st, Insert(r, mem));
    var t := Ticket(r.id, r.op, st.now);
    assert forall pid :: pid != r.pid ==> Queue(st', pid) == Queue(st, pid);
    if st'.log == st.log {
      assert Queue(st', r.pid) == Queue(st, r.pid);
      SameQueues(st, st');
    } else {
      assert Queue(st', r.pid) == Queue(st, r.pid) + [t];
      LongerQueue(st, st', r.pid, t);
    }
  }

  /** The queue of one process gains a ticket, newer than all others. */
  lemma LongerQueue(st: State, st': State, pid: Int32, t: Ticket)
    requires TicketInv(st) && Orderly(st') && ClockMoved(st) && t.stamp == st.now
    requires st'.now == st.now && st'.lost == st.lost && st'.log == st.log + [Grant(pid, t)]
    requires Queue(st', pid) == Queue(st, pid) + [t]
    requires forall p :: p != pid ==> Queue(st', p) == Queue(st, p)
    ensures TicketInv(st')
  {
    forall p
      ensures Queued(st', p)
    {
      assert Queued(st, p);
      if p == pid {
        var q := Queue(st, pid);
        forall i | 0 <= i < |q|
          ensures q[i].stamp < t.stamp
        {
          assert Grant(pid, q[i]) in st.log;
        }
      }
    }
    forall g | g in st'.log
      ensures Kept(st', g)
    {
      if g in st.log {
        assert Kept(st, g);
      }
    }
  }

  /** A credential goes: its tickets are lost, what is pending stays. */
  lemma DropQueues(st: State, st': State, pid: Int32)
    requires TicketInv(st) && Orderly(st') && pid in st.tasks
    requires st'.now == st.now && st'.log == st.log && st'.pending == st.pending
    requires st'.lost == st.lost + GrantsOf(pid, st.tasks[pid].tickets)
    requires TicketsOf(st', pid) == []
    requires forall p :: p != pid ==> TicketsOf(st', p) == TicketsOf(st, p)
    ensures TicketInv(st')
  {
    var held, waiting := st.tasks[pid].tickets, PendingFor(st.pending, pid).tickets;
    assert Queue(st', pid) == waiting == (held + waiting)[|held|..];
    forall t | t in Queue(st, pid) && t !in Queue(st', pid)
      ensures Grant(pid, t) in st'.lost
    {
      assert t in held;
    }
    assert (held + waiting)[..|held|] == held;
    ShorterQueue(st, st', pid, |held|);
  }

  /** The decision changes nothing of a task but its taint. */
  lemma DecisionKeeps(t: Task, f: File, isDaemon: bool, w: Writes)
    requires f.mem.Some?
    ensures var t' := OpenFile(t, f, isDaemon, w).0; t'.tickets == t.tickets && t'.pty == t.pty
    ensures var t' := PermissionFile(t, f, isDaemon).0; t'.tickets == t.tickets && t'.pty == t.pty
  {
    hide Housekeep, PipeTagged, CanAccess;
  }

  lemma HookQueues(st: State, pid: Int32, file: nat, w: Writes)
    requires TicketInv(st) && pid in st.tasks && Loaded(st, file)
    ensures TicketInv(OpenHook(st, pid, file, w).0)
    ensures TicketInv(PermissionHook(st, pid, file).0)
  {
    hide TicketInv, OpenFile, PermissionFile, Claiming, Orderly;
    HousekeepQueues(st, pid);
    var st1 := TaskHousekeep(st, pid);
    DecisionKeeps(st1.tasks[pid], st1.files[file], pid == st.daemon, w);
    var t := OpenHook(st, pid, file, w).0;
    assert forall p :: TicketsOf(t, p) == TicketsOf(st1, p);
    OrderlySame(st1, t);
    SameQueues(st1, t);
    var u := PermissionHook(st, pid, file).0;
    assert forall p :: TicketsOf(u, p) == TicketsOf(st1, p);
    OrderlySame(st1, u);
    SameQueues(st1, u);
  }

  lemma HookStep(st: State, e: Event)
    requires TicketInv(st) && Enabled(st, e) && (e.Open? || e.Permission? || e.Prctl?)
    ensures TicketInv(Next(st, e))
  {
    hide TaskHousekeep, OpenHook, PermissionHook, TicketInv;
    match e
    case Open(pid, file, w) => HookQueues(st, pid, file, w);
    case Permission(pid, file) => HookQueues(st, pid, file, Writes(true, true, true));
    case Prctl(pid) => HousekeepQueues(st, pid);
  }

  lemma DropStep(st: State, e: Event)
    requires TicketInv(st) && Enabled(st, e) && (e.Replace? || e.Exit?)
    ensures TicketInv(Next(st, e))
  {
    hide TicketInv, GrantsOf, Orderly;
    OrderlySame(st, Next(st, e));
    DropQueues(st, Next(st, e), e.pid);
  }

  /** Steps that leave all tickets where they are. */
  lemma QuietStep(st: State, e: Event)
    requires TicketInv(st) && Enabled(st, e)
    requires !e.Insert? && !e.Open? && !e.Permission? && !e.Prctl? && !e.Replace? && !e.Exit? && !e.Hide? && !e.Show?
    ensures TicketInv(Next(st, e))
  {
    hide TicketInv, Housekeep, Labels.Install, ShmVerdict, Orderly, Orderable;
    var st' := Next(st, e);
    assert st'.pending == st.pending;
    assert forall pid :: TicketsOf(st', pid) == TicketsOf(st, pid);
    OrderlySame(st, st');
    SameQueues(st, st');
  }

  /** Every step keeps the order of tickets, if it leaves keys that the tree can order. */
  lemma StepTickets(st: State, e: Event)
    requires TicketInv(st) && Enabled(st, e) && Orderable(TreeKeys(Next(st, e)))
    ensures TicketInv(Next(st, e))
  {
    hide Next, TicketInv, Enabled, Orderly, Orderable;
    OrderlySame(st, st);
    OrderlyNext(st, e);
    match e
    case Insert(r, mem) => InsertQueues(st, r, mem);
    case Open(_, _, _) => HookStep(st, e);
    case Permission(_, _) => HookStep(st, e);
    case Prctl(_) => HookStep(st, e);
    case Replace(_, _) => DropStep(st, e);
    case Exit(_) => DropStep(st, e);
    case _ => QuietStep(st, e);
  }

  // ----- tickets in a tree that loses reservations

  lemma ExpireFewer(s: seq<Ticket>, now: int)
    ensures forall t :: t in Expire(s, now) ==> t in s
  {
  }

  /** Steps that store nothing and at most drop tickets. */
  lemma FewerTickets(st: State, st': State)
    requires Recorded(st) && st'.log == st.log && st.now <= st'.now && st'.strays == st.strays
    requires forall g :: g in st'.lost ==> g in st.log
    requires forall pid, t :: t in Queue(st', pid) ==> t in Queue(st, pid)
    ensures Recorded(st')
  {
    forall pid
      ensures Logged(st', pid)
    {
      assert Logged(st, pid);
    }
    forall s | s in st'.strays
      ensures StrayLogged(st', s)
    {
      assert StrayLogged(st, s);
    }
  }

  lemma HousekeepFewer(st: State, pid: Int32, p: Int32, t: Ticket)
    requires pid in st.tasks && t in Queue(TaskHousekeep(st, pid), p)
    ensures t in Queue(st, p)
  {
    hide Expire;
    if pid > 1 {
      ExpireFewer(Queue(st, pid), st.now);
    }
  }

  lemma HookRecorded(st: State, e: Event)
    requires Recorded(st) && Enabled(st, e) && (e.Open? || e.Permission? || e.Prctl?)
    ensures Recorded(Next(st, e))
  {
    hide OpenFile, PermissionFile, Claiming, Logged, StrayLogged;
    var st1, st' := TaskHousekeep(st, e.pid), Next(st, e);
    if e.Open? || e.Permission? {
      DecisionKeeps(st1.tasks[e.pid], st1.files[e.file], e.pid == st.daemon, if e.Open? then e.w else Writes(true, true, true));
    }
    forall pid, t | t in Queue(st', pid)
      ensures t in Queue(st, pid)
    {
      assert TicketsOf(st', pid) == TicketsOf(st1, pid);
      HousekeepFewer(st, e.pid, pid, t);
    }
    FewerTickets(st, st');
  }

  lemma InsertRecorded(st: State, r: Record, mem: Memory)
    requires Recorded(st) && Enabled(st, Insert(r, mem))
    ensures Recorded(Next(st, Insert(r, mem)))
  {
    var st' := Next(st, Insert(r, mem));
    forall pid
      ensures Logged(st', pid)
    {
      assert Logged(st, pid);
    }
    forall s | s in st'.strays
      ensures StrayLogged(st', s)
    {
      assert StrayLogged(st, s);
    }
  }

  lemma StrayRecorded(st: State, e: Event)
    requires Recorded(st) && Enabled(st, e) && (e.Hide? || e.Show?)
    ensures Recorded(Next(st, e))
  {
    hide Orderable;
    var st' := Next(st, e);
    forall pid
      ensures Logged(st', pid)
    {
      assert Logged(st, pid);
      assert e.Show? ==> StrayLogged(st, e.stray);
    }
    forall s | s in st'.strays
      ensures StrayLogged(st', s)
    {
      if s in st.strays {
        assert StrayLogged(st, s);
      } else {
        assert Logged(st, e.pid);
      }
    }
  }

  lemma OwnGrants(pid: Int32, s: seq<Ticket>, log: seq<Grant>)
    requires forall t :: t in s ==> Grant(pid, t) in log
    ensures forall g :: g in GrantsOf(pid, s) ==> g in log
  {
  }

  /** Steps that leave tickets where they are, or drop them with a credential. */
  lemma QuietRecorded(st: State, e: Event)
    requires Recorded(st) && Enabled(st, e)
    requires !e.Insert? && !e.Open? && !e.Permission? && !e.Prctl? && !e.Hide? && !e.Show?
    ensures Recorded(Next(st, e))
  {
    hide Housekeep, Labels.Install, ShmVerdict, GrantsOf, Orderable, StrayLogged;
    var st' := Next(st, e);
    assert forall pid, t :: t in TicketsOf(st', pid) ==> t in TicketsOf(st, pid);
    if e.Replace? || e.Exit? {
      assert Logged(st, e.pid);
      assert forall t :: t in st.tasks[e.pid].tickets ==> t in Queue(st, e.pid);
      OwnGrants(e.pid, st.tasks[e.pid].tickets, st.log);
    }
    FewerTickets(st, st');
  }

  /** Every step keeps it, whatever the tree loses. */
  lemma StepRecorded(st: State, e: Event)
    requires Recorded(st) && Enabled(st, e)
    ensures Recorded(Next(st, e))
  {
    hide Next, Recorded, Enabled;
    match e
    case Insert(r, mem) => InsertRecorded(st, r, mem);
    case Open(_, _, _) => HookRecorded(st, e);
    case Permission(_, _) => HookRecorded(st, e);
    case Prctl(_) => HookRecorded(st, e);
    case Hide(_) => StrayRecorded(st, e);
    case Show(_) => StrayRecorded(st, e);
    case _ => QuietRecorded(st, e);
  }

  // ----- labels

  lemma HousekeepTidy(l: Label, d: Xattrs, w: Writes)
    requires !l.isSocket && (l.needsUpdate ==> l.inRealm)
    ensures var l' := Housekeep(l, d, w).0; !l'.isSocket && !l'.needsUpdate
  {
  }

  predicate TouchesFiles(e: Event) {
    e.Open? || e.Permission? || e.Create? || e.NewPipe? || e.Install? || e.Evict? || e.Reload?
  }

  lemma FilesSame(st: State, e: Event)
    requires Enabled(st, e) && !TouchesFiles(e)
    ensures Next(st, e).files == st.files
  {
    hide Claiming, InsertRecord, ShmVerdict, GrantsOf;
  }

  lemma StepTidy(st: State, e: Event)
    requires Tidy(st) && Enabled(st, e)
    ensures Tidy(Next(st, e))
  {
    hide Housekeep, CanAccess, Claiming, InsertRecord, ShmOutcome, GrantsOf, Orderable;
    if !TouchesFiles(e) {
      hide Next;
      FilesSame(st, e);
    } else if e.Open? {
      HousekeepTidy(TaggedLabel(st, e.pid, e.file), st.files[e.file].disk, e.w);
    } else if e.Create? {
      var t := st.tasks[e.pid];
      HousekeepTidy(Born(st.files[e.dir].mem.value.inRealm, t.inRealm, t.id), NO_ATTRIBUTES, e.w);
    } else if e.Reload? {
      HousekeepTidy(FRESH, st.files[e.file].disk, e.w);
    }
  }

  function TaggedLabel(st: State, pid: Int32, file: nat): (l: Label)
    requires pid in st.tasks && Loaded(st, file)
  {
    PipeTagged(st.files[file], st.files[file].mem.value, TaskHousekeep(st, pid).tasks[pid])
  }

  lemma OpenLabels(st: State, e: Event, file: nat, named: bool)
    requires LabelInv(st, file, named) && Enabled(st, e) && (e.Open? || e.Permission?)
    ensures LabelInv(Next(st, e), file, named)
  {
    hide Housekeep, CanAccess, Claiming, Flagged, Cached;
    if e.Open? && e.file == file && OnDisk(st.files[file]) {
      HousekeepCached(st.files[file].mem.value, st.files[file].disk, e.w);
    }
  }

  lemma InstallLabels(st: State, e: Event, file: nat, named: bool)
    requires LabelInv(st, file, named) && Enabled(st, e) && LabelSafe(st, e, file, named) && e.Install?
    ensures LabelInv(Next(st, e), file, named)
  {
    hide Flagged, Cached, Labels.Install;
    if e.file == file && OnDisk(st.files[file]) {
      InstallExact(st.files[file].mem.value, st.files[file].disk, e.op, e.id, e.w);
    }
  }

  lemma CreateLabels(st: State, e: Event, file: nat, named: bool)
    requires LabelInv(st, file, named) && Enabled(st, e) && LabelSafe(st, e, file, named) && e.Create?
    ensures LabelInv(Next(st, e), file, named)
  {
    hide Housekeep, Flagged, Cached;
    var t := st.tasks[e.pid];
    CreateExact(st.files[e.dir].mem.value.inRealm, t.inRealm, t.id, e.w);
  }

  lemma LoadLabels(st: State, e: Event, file: nat, named: bool)
    requires LabelInv(st, file, named) && Enabled(st, e) && (e.NewPipe? || e.Evict? || e.Reload?)
    ensures LabelInv(Next(st, e), file, named)
  {
    hide Housekeep, Flagged;
    if e.Reload? {
      ReloadCached(st.files[e.file].disk, e.w);
    }
  }

  /** The label of an ordinary file stays together with the disk as long as every step is safe for it. */
  lemma StepLabels(st: State, e: Event, file: nat, named: bool)
    requires LabelInv(st, file, named) && Enabled(st, e) && LabelSafe(st, e, file, named)
    ensures LabelInv(Next(st, e), file, named)
  {
    hide Next, Enabled, LabelInv, LabelSafe;
    match e
    case Open(_, _, _) => OpenLabels(st, e, file, named);
    case Permission(_, _) => OpenLabels(st, e, file, named);
    case Create(_, _, _, _, _, _, _) => CreateLabels(st, e, file, named);
    case Install(_, _, _, _) => InstallLabels(st, e, file, named);
    case NewPipe(_, _) => LoadLabels(st, e, file, named);
    case Evict(_) => LoadLabels(st, e, file, named);
    case Reload(_, _) => LoadLabels(st, e, file, named);
    case _ => OtherLabels(st, e, file, named);
  }

  lemma OtherLabels(st: State, e: Event, file: nat, named: bool)
    requires LabelInv(st, file, named) && Enabled(st, e) && !TouchesFiles(e)
    ensures LabelInv(Next(st, e), file, named)
  {
    hide Next, Enabled;
    FilesSame(st, e);
  }

  lemma ReloadCached(d: Xattrs, w: Writes)
    ensures var (l, d') := Housekeep(FRESH, d, w); d' == d && Cached(l, d) && l.checked
  {
  }

  // ----- every run

  lemma StepInv(st: State, e: Event)
    requires Inv(st) && Enabled(st, e)
    ensures Inv(Next(st, e))
  {
    hide Recorded, Tidy, Next, Enabled;
    StepRecorded(st, e);
    StepTidy(st, e);
  }

  /** The invariant holds in every reachable state, whatever the tree loses and attribute writes fail. */
  lemma {:induction false} Reachable(st: State, es: seq<Event>)
    requires Inv(st) && Runs(st, es)
    ensures Inv(After(st, es))
    decreases |es|
  {
    hide Inv, Next, Enabled;
    if es != [] {
      StepInv(st, es[0]);
      Reachable(Next(st, es[0]), es[1..]);
    }
  }

  /** Tickets are in order and none is missing in every reachable state in which the tree's comparison
      can order the process IDs stored so far. */
  lemma {:induction false} ReachableTickets(st: State, es: seq<Event>)
    requires TicketInv(st) && Runs(st, es) && Orderable(TreeKeys(After(st, es)))
    ensures TicketInv(After(st, es))
    decreases |es|
  {
    hide TicketInv, Next, Enabled, TreeKeys, Orderable;
    if es != [] {
      var st' := Next(st, es[0]);
      KeysGrowRun(st', es[1..]);
      SubsetOrderable(TreeKeys(st'), TreeKeys(After(st, es)));
      StepTickets(st, es[0]);
      ReachableTickets(st', es[1..]);
    }
  }

  /** The label of a file agrees with the disk in every state reached by steps that are safe for it. */
  lemma {:induction false} ReachableLabels(st: State, es: seq<Event>, file: nat, named: bool)
    requires LabelInv(st, file, named) && Runs(st, es) && SafeRun(st, es, file, named)
    ensures LabelInv(After(st, es), file, named)
    decreases |es|
  {
    hide LabelInv, Next, Enabled, LabelSafe;
    if es != [] {
      StepLabels(st, es[0], file, named);
      ReachableLabels(Next(st, es[0]), es[1..], file, named);
    }
  }

  // ----- runs, put together and taken apart

  lemma {:induction false} RunsConcat(st: State, a: seq<Event>, b: seq<Event>)
    requires Runs(st, a) && Runs(After(st, a), b)
    ensures Runs(st, a + b) && After(st, a + b) == After(After(st, a), b)
    decreases |a|
  {
    hide Next, Enabled;
    if a == [] {
      assert a + b == b;
    } else {
      assert (a + b)[1..] == a[1..] + b && (a + b)[0] == a[0];
      RunsConcat(Next(st, a[0]), a[1..], b);
    }
  }

  lemma {:induction false} RunsSplit(st: State, a: seq<Event>, b: seq<Event>)
    requires Runs(st, a + b)
    ensures Runs(st, a) && Runs(After(st, a), b) && After(After(st, a), b) == After(st, a + b)
    decreases |a|
  {
    hide Next, Enabled;
    if a == [] {
      assert a + b == b;
    } else {
      assert (a + b)[1..] == a[1..] + b && (a + b)[0] == a[0];
      RunsSplit(Next(st, a[0]), a[1..], b);
    }
  }

  lemma RunsOne(st: State, e: Event)
    requires Enabled(st, e)
    ensures Runs(st, [e]) && After(st, [e]) == Next(st, e)
  {
    hide Next, Enabled;
    var st' := Next(st, e);
    assert [e][1..] == [];
    assert Runs(st', []) && After(st', []) == st';
  }

  /** The last step of a run. */
  lemma RunsLast(st: State, es: seq<Event>)
    requires Runs(st, es) && es != []
    ensures var n := |es| - 1;
      Runs(st, es[..n]) && Enabled(After(st, es[..n]), es[n]) && After(st, es) == Next(After(st, es[..n]), es[n])
  {
    hide Next, Enabled;
    var n := |es| - 1;
    assert es == es[..n] + [es[n]];
    RunsSplit(st, es[..n], [es[n]]);
    var st' := After(st, es[..n]);
    assert [es[n]][1..] == [];
    assert Runs(st', [es[n]]) && After(Next(st', es[n]), []) == Next(st', es[n]);
  }
}
