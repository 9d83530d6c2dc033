/** The reference monitor as a state machine: every hook and every record is one step. What insertion,
    housekeeping, the access hooks, installation, creation and credential preparation compute on heap
    objects is proved equal to these functions in the modules TicketCache, Labels and Hooks. */
module Monitor {
  import opened Bytes
  import opened Tickets
  import opened Options
  import opened Labels
  import opened SearchTree

  const PUBLIC: Id := [0xFF, 0xFF, 0xFF, 0xFF, 0xFF, 0xFF, 0xFF, 0xFF, 0xFF, 0xFF, 0xFF, 0xFF, 0xFF, 0xFF, 0xFF, 0xFF]

  datatype Task = Task(inRealm: bool, pty: bool, tickets: seq<Ticket>, id: Id)

  /** A file: its in-memory label, when its inode is loaded, and its attributes on disk. */
  datatype File = File(fs: Fs, isDir: bool, ino: nat, mem: Option<Label>, disk: Xattrs)

  datatype Segment = Segment(inRealm: bool, id: Id)

  /** A ticket that insert_ticket stored for a process. */
  datatype Grant = Grant(pid: Int32, ticket: Ticket)

  /** A reservation in the tree that the search does not reach. */
  datatype Stray = Stray(pid: Int32, kept: Pending)

  /** `log` and `lost` only record history: no step reads them. */
  datatype State = State(
    now: int,
    daemon: Int32,
    pending: Reservations,     // the reservations that the search finds
    strays: multiset<Stray>,   // and those it does not
    tasks: map<Int32, Task>,
    files: map<nat, File>,
    segments: map<Int32, Segment>,
    log: seq<Grant>,       // every ticket ever stored
    lost: set<Grant>)      // those that went away with a credential

  // ----- the access decision

  /** How an access was decided; a fault is a null pointer followed. */
  datatype Verdict = Exempt | ByTicket | Denied | Faulted

  predicate AlwaysOpen(fs: Fs) {
    fs == SockFs || fs == SysFs || fs == SecurityFs || fs == TmpFs
  }

  /** can_access, for operation `op`. */
  function CanAccess(t: Task, f: File, l: Label, op: bv16, isDaemon: bool): (v: Verdict) {
    if f.ino < 2 then Exempt
    else if !l.inRealm && !t.inRealm then Exempt
    else if f.isDir || AlwaysOpen(f.fs) then Exempt
    else if f.fs == PipeFs && l.id == t.id then Exempt
    else if l.id == PUBLIC then Exempt
    else if isDaemon then Exempt
    else if f.fs == DevPts && t.pty then Exempt
    else if t.tickets == [] || l.anonymous then Denied
    else if Scan(t.tickets, l.id, op) then ByTicket
    else Denied
  }

  /** Reading a protected object taints the reader. */
  function Tainted(t: Task, l: Label, v: Verdict): (r: Task) {
    if v == ByTicket && l.inRealm then t.(inRealm := true) else t
  }

  /** No exemption applies: the object is on an ordinary file system, not public, and the process is
      neither the daemon nor the holder of a terminal grant. */
  predicate Protected(t: Task, f: File, l: Label, isDaemon: bool) {
    && f.ino >= 2 && (l.inRealm || t.inRealm)
    && !f.isDir && (f.fs == Ordinary || (f.fs == DevPts && !t.pty))
    && l.id != PUBLIC && !isDaemon
  }

  function PipeTagged(f: File, l: Label, t: Task): (r: Label) {
    PipeTag(f.fs, f.ino, l, t.inRealm, t.id)
  }

  // ----- hooks

  /** What a task has after claiming what is pending and dropping what has expired. */
  function Claiming(t: Task, p: Pending, now: int): (r: Task) {
    t.(pty := t.pty || p.pty, tickets := Expire(t.tickets + p.tickets, now))
  }

  /** task_housekeeping. */
  function TaskHousekeep(st: State, pid: Int32): (r: State)
    requires pid in st.tasks
  {
    if pid <= 1 then st
    else
      st.(tasks := st.tasks[pid := Claiming(st.tasks[pid], PendingFor(st.pending, pid), st.now)],
          pending := Claimed(st.pending, pid))
  }

  predicate Loaded(st: State, file: nat) {
    file in st.files && st.files[file].mem.Some?
  }

  /** The label and attributes that file_open and file_permission decide on. */
  function Seen(st: State, pid: Int32, file: nat, w: Writes): (r: (Label, Xattrs))
    requires pid in st.tasks && Loaded(st, file)
  {
    var f := st.files[file];
    Housekeep(PipeTagged(f, f.mem.value, st.tasks[pid]), f.disk, w)
  }

  /** trm_file_open and trm_file_permission once the task is up to date. */
  function OpenFile(t: Task, f: File, isDaemon: bool, w: Writes): (r: (Task, File, Verdict))
    requires f.mem.Some?
  {
    var (l, d) := Housekeep(PipeTagged(f, f.mem.value, t), f.disk, w);
    var f' := f.(mem := Some(l), disk := d);
    var v := if l.inRealm || t.inRealm then CanAccess(t, f', l, OP_OPEN, isDaemon) else Exempt;
    (Tainted(t, l, v), f', v)
  }

  /** trm_file_open, and trm_file_permission: housekeeping, then the decision. */
  function OpenHook(st: State, pid: Int32, file: nat, w: Writes): (r: (State, Verdict))
    requires pid in st.tasks && Loaded(st, file)
  {
    var st1 := TaskHousekeep(st, pid);
    var (t, f, v) := OpenFile(st1.tasks[pid], st1.files[file], pid == st.daemon, w);
    (st1.(tasks := st1.tasks[pid := t], files := st1.files[file := f]), v)
  }

  /** trm_inode_permission once the task is up to date: the label is used as it is in memory. */
  function PermissionFile(t: Task, f: File, isDaemon: bool): (r: (Task, File, Verdict))
    requires f.mem.Some?
  {
    var l := PipeTagged(f, f.mem.value, t);
    var f' := f.(mem := Some(l));
    var v := if l.inRealm || t.inRealm then CanAccess(t, f', l, OP_OPEN, isDaemon) else Exempt;
    (Tainted(t, l, v), f', v)
  }

  /** trm_inode_permission: housekeeping of the task, then the decision. */
  function PermissionHook(st: State, pid: Int32, file: nat): (r: (State, Verdict))
    requires pid in st.tasks && Loaded(st, file)
  {
    var st1 := TaskHousekeep(st, pid);
    var (t, f, v) := PermissionFile(st1.tasks[pid], st1.files[file], pid == st.daemon);
    (st1.(tasks := st1.tasks[pid := t], files := st1.files[file := f]), v)
  }

  /** shm_can_access. It does no housekeeping, and follows the ring without looking whether there is
      one. */
  function ShmVerdict(t: Task, s: Segment, isDaemon: bool): (v: Verdict) {
    if !t.inRealm && !s.inRealm then Exempt
    else if isDaemon then Exempt
    else if t.tickets == [] then Faulted
    else if Scan(t.tickets, s.id, OP_SHM) then ByTicket
    else Denied
  }

  /** The process and the segment after the decision: taint goes both ways. */
  function ShmOutcome(t: Task, s: Segment, isDaemon: bool): (r: (Task, Segment, Verdict)) {
    var v := ShmVerdict(t, s, isDaemon);
    if v != ByTicket then (t, s, v)
    else
      var t' := if s.inRealm then t.(inRealm := true) else t;
      var s' := if t'.inRealm then s.(inRealm := true) else s;
      (t', s', v)
  }

  function ShmHook(st: State, pid: Int32, seg: Int32): (r: (State, Verdict))
    requires pid in st.tasks && seg in st.segments
  {
    var (t, s, v) := ShmOutcome(st.tasks[pid], st.segments[seg], pid == st.daemon);
    (st.(tasks := st.tasks[pid := t], segments := st.segments[seg := s]), v)
  }

  // ----- steps

  datatype Event =
    | Tick(dt: nat)
    | Insert(record: Record, mem: Memory)
    | Open(pid: Int32, file: nat, w: Writes)
    | Permission(pid: Int32, file: nat)
    | Prctl(pid: Int32)
    | Fork(pid: Int32, child: Int32, id: Id)
    | Replace(pid: Int32, id: Id)
    | Exit(pid: Int32)
    | Create(pid: Int32, dir: nat, file: nat, fs: Fs, isDir: bool, ino: nat, w: Writes)
    | NewPipe(file: nat, ino: nat)
    | Install(file: nat, op: bv16, id: Id, w: Writes)
    | Evict(file: nat)
    | Reload(file: nat, w: Writes)
    | ShmCreate(seg: Int32, id: Id)
    | ShmRemove(seg: Int32)
    | ShmAccess(pid: Int32, seg: Int32)
    | Register(pid: Int32)
    | Hide(pid: Int32)         // a rotation puts a reservation out of the search's way
    | Show(stray: Stray)       // or back into it

  /** The label of a file system whose labels are on disk. */
  predicate OnDisk(f: File) {
    f.fs != PipeFs && f.fs != SockFs && f.ino >= 2
  }

  /** The process IDs in the reservation tree. */
  function TreeKeys(st: State): (keys: set<Int32>) {
    st.pending.Keys + set s | s in st.strays :: s.pid
  }

  /** What the environment provides: objects that exist, and a clock that has moved since the last
      insertion. The tree loses and finds reservations only if its comparison cannot order the keys. */
  predicate Enabled(st: State, e: Event) {
    match e
    case Tick(_) => true
    case Insert(_, _) => ClockMoved(st)
    case Open(pid, file, _) => pid in st.tasks && Loaded(st, file)
    case Permission(pid, file) => pid in st.tasks && Loaded(st, file)
    case Prctl(pid) => pid in st.tasks
    case Fork(pid, child, _) => pid in st.tasks && child !in st.tasks
    case Replace(pid, _) => pid in st.tasks
    case Exit(pid) => pid in st.tasks
    case Create(pid, dir, file, fs, _, ino, _) =>
      && pid in st.tasks && Loaded(st, dir) && file !in st.files
      && fs != PipeFs && fs != SockFs && ino >= 2
    case NewPipe(file, ino) => file !in st.files && ino >= 2
    case Install(file, _, _, _) => Loaded(st, file)
    case Evict(file) => Loaded(st, file)
    case Reload(file, _) => file in st.files && st.files[file].mem == None && OnDisk(st.files[file])
    case ShmCreate(seg, _) => seg !in st.segments
    case ShmRemove(seg) => seg in st.segments
    case ShmAccess(pid, seg) => pid in st.tasks && seg in st.segments
    case Register(_) => true
    case Hide(pid) => pid in st.pending && !Orderable(TreeKeys(st))
    case Show(stray) => stray in st.strays && stray.pid !in st.pending && !Orderable(TreeKeys(st))
  }

  /** The step keeps the label of `file` in memory and on disk together: the in_realm write that a new
      label needs succeeds and, for its identifier, the other write too; an accepted installation that
      does not declassify either registers or is for a file out of realm. */
  predicate LabelSafe(st: State, e: Event, file: nat, named: bool)
    requires Enabled(st, e)
  {
    match e
    case Create(pid, dir, f, _, _, _, w) =>
      f == file ==>
        && (st.tasks[pid].inRealm || st.files[dir].mem.value.inRealm ==> w.realm)
        && (named && st.tasks[pid].inRealm ==> w.id)
    case Install(f, op, _, w) =>
      f == file ==>
        || Declassifies(op) || !w.id
        || (if Registers(op) then st.files[file].disk.inRealm || w.realm else !st.files[file].disk.inRealm)
    case _ => true
  }

  predicate ClockMoved(st: State) {
    forall g :: g in st.log ==> g.ticket.stamp < st.now
  }

  function GrantsOf(pid: Int32, s: seq<Ticket>): (r: set<Grant>)
    ensures forall t :: Grant(pid, t) in r <==> t in s
    ensures forall g :: g in r ==> g.pid == pid
  {
    set t | t in s :: Grant(pid, t)
  }

  function Next(st: State, e: Event): (r: State)
    requires Enabled(st, e)
  {
    match e
    case Tick(dt) => st.(now := st.now + dt)
    case Insert(r, mem) =>
      var (p, ok) := InsertRecord(st.pending, r, st.now, mem);
      st.(pending := p,
          log := if ok && !OnlyPty(r.op) then st.log + [Grant(r.pid, Ticket(r.id, r.op, st.now))] else st.log)
    case Open(pid, file, w) => OpenHook(st, pid, file, w).0
    case Permission(pid, file) => PermissionHook(st, pid, file).0
    case Prctl(pid) => TaskHousekeep(st, pid)
    case Fork(pid, child, id) =>
      st.(tasks := st.tasks[child := Task(st.tasks[pid].inRealm, st.tasks[pid].pty, [], id)])
    case Replace(pid, id) =>
      var t := st.tasks[pid];
      st.(tasks := st.tasks[pid := Task(t.inRealm, t.pty, [], id)], lost := st.lost + GrantsOf(pid, t.tickets))
    case Exit(pid) =>
      st.(tasks := st.tasks - {pid}, lost := st.lost + GrantsOf(pid, st.tasks[pid].tickets))
    case Create(pid, dir, file, fs, isDir, ino, w) =>
      var t := st.tasks[pid];
      var (l, d) := Housekeep(Born(st.files[dir].mem.value.inRealm, t.inRealm, t.id), NO_ATTRIBUTES, w);
      st.(files := st.files[file := File(fs, isDir, ino, Some(l), d)])
    case NewPipe(file, ino) =>
      st.(files := st.files[file := File(PipeFs, false, ino, Some(FRESH), NO_ATTRIBUTES)])
    case Install(file, op, id, w) =>
      var f := st.files[file];
      var (l, d, _) := Labels.Install(f.mem.value, f.disk, op, id, w);
      st.(files := st.files[file := f.(mem := Some(l), disk := d)])
    case Evict(file) => st.(files := st.files[file := st.files[file].(mem := None)])
    case Reload(file, w) =>
      var f := st.files[file];
      var (l, d) := Housekeep(FRESH, f.disk, w);
      st.(files := st.files[file := f.(mem := Some(l), disk := d)])
    case ShmCreate(seg, id) => st.(segments := st.segments[seg := Segment(false, id)])
    case ShmRemove(seg) => st.(segments := st.segments - {seg})
    case ShmAccess(pid, seg) => ShmHook(st, pid, seg).0
    case Register(pid) => st.(daemon := pid)
    case Hide(pid) =>
      st.(pending := st.pending - {pid}, strays := st.strays + multiset{Stray(pid, st.pending[pid])})
    case Show(stray) =>
      st.(pending := st.pending[stray.pid := stray.kept], strays := st.strays - multiset{stray})
  }

  /** `es` can happen one after the other from `st`. */
  predicate Runs(st: State, es: seq<Event>)
    decreases |es|
  {
    es == [] || (Enabled(st, es[0]) && Runs(Next(st, es[0]), es[1..]))
  }

  function After(st: State, es: seq<Event>): (r: State)
    requires Runs(st, es)
    decreases |es|
  {
    if es == [] then st else After(Next(st, es[0]), es[1..])
  }

  /** Every step of the run keeps the label of `file` together. */
  predicate SafeRun(st: State, es: seq<Event>, file: nat, named: bool)
    requires Runs(st, es)
    decreases |es|
  {
    es == [] || (LabelSafe(st, es[0], file, named) && SafeRun(Next(st, es[0]), es[1..], file, named))
  }
}
