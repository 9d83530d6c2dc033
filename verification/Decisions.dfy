/** The access decision without its order: who is let through to what, for every kind of object, and
    what runs do to pipes, declassified files and terminals. */
module Decisions {
  import opened Bytes
  import opened Tickets
  import opened Options
  import opened Labels
  import opened Monitor
  import opened MonitorRuns
  import opened Guarantees
  import opened SearchTree

  // ----- the decision

  /** Sixteen bytes of all ones. */
  predicate Public(id: Id) {
    forall i :: 0 <= i < ID_LENGTH ==> id[i] == 0xFF
  }

  lemma PublicId(id: Id)
    ensures Public(id) <==> id == PUBLIC
  {
    if Public(id) {
      assert forall i :: 0 <= i < ID_LENGTH ==> id[i] == PUBLIC[i];
    }
  }

  /** What needs no ticket, in no particular order: the first inodes, a process and an object that are
      both out of realm, directories, sockets, three special file systems, a pipe with the
      identifier of the process, a public object, the daemon, and a terminal for whoever holds or
      awaits the right to one. */
  predicate Exempted(st: State, pid: Int32, f: File, l: Label)
    requires pid in st.tasks
  {
    var t := st.tasks[pid];
    || f.ino == 0 || f.ino == 1 || !(l.inRealm || t.inRealm)
    || f.isDir || f.fs == SockFs || f.fs == SysFs || f.fs == SecurityFs || f.fs == TmpFs
    || (f.fs == PipeFs && t.id == l.id) || Public(l.id) || pid == st.daemon
    || (f.fs == DevPts && (t.pty || PendingFor(st.pending, pid).pty))
  }

  /** The verdict that the system is meant to give. */
  ghost function Due(st: State, pid: Int32, f: File, l: Label): (v: Verdict)
    requires pid in st.tasks
  {
    if Exempted(st, pid, f, l) then Exempt
    else if !l.anonymous && Backed(st, pid, l.id, OP_OPEN) then ByTicket
    else Denied
  }

  /** Both hooks, on every object: exempt exactly as above, granted by ticket exactly when the object has
      an identifier and a stored, live ticket backs the access, and denied otherwise. */
  lemma DecisionExact(st: State, pid: Int32, file: nat, w: Writes)
    requires TicketInv(st) && pid in st.tasks && pid > 1 && Loaded(st, file)
    ensures OpenHook(st, pid, file, w).1 == Due(st, pid, st.files[file], Seen(st, pid, file, w).0)
    ensures PermissionHook(st, pid, file).1
         == Due(st, pid, st.files[file], PipeTagged(st.files[file], st.files[file].mem.value, st.tasks[pid]))
  {
    hide TicketInv, Housekeep, Expire, Scan, Backed, Public;
    var l, m := Seen(st, pid, file, w).0, PipeTagged(st.files[file], st.files[file].mem.value, st.tasks[pid]);
    PublicId(l.id);
    PublicId(m.id);
    ScanIsBacked(st, pid, l.id, OP_OPEN);
    ScanIsBacked(st, pid, m.id, OP_OPEN);
    NoTickets(l.id, OP_OPEN);
    NoTickets(m.id, OP_OPEN);
  }

  lemma NoTickets(id: Id, op: bv16)
    ensures !Scan([], id, op)
  {
  }

  /** Whatever became of the tickets: what is exempt is let through, and always was. */
  lemma ExemptAlways(st: State, pid: Int32, file: nat, w: Writes)
    requires pid in st.tasks && pid > 1 && Loaded(st, file)
    ensures Exempted(st, pid, st.files[file], Seen(st, pid, file, w).0) ==> OpenHook(st, pid, file, w).1 == Exempt
    ensures Exempted(st, pid, st.files[file], PipeTagged(st.files[file], st.files[file].mem.value, st.tasks[pid])) ==>
      PermissionHook(st, pid, file).1 == Exempt
  {
    hide Housekeep, Expire, Scan, Public;
    PublicId(Seen(st, pid, file, w).0.id);
    PublicId(PipeTagged(st.files[file], st.files[file].mem.value, st.tasks[pid]).id);
  }

  /** What is not exempt and let through nevertheless was found by the scan. */
  lemma ScannedOtherwise(st: State, pid: Int32, file: nat, w: Writes)
    requires pid in st.tasks && pid > 1 && Loaded(st, file)
    ensures
      var tickets := TaskHousekeep(st, pid).tasks[pid].tickets;
      var l, m := Seen(st, pid, file, w).0, PipeTagged(st.files[file], st.files[file].mem.value, st.tasks[pid]);
      && (!Exempted(st, pid, st.files[file], l) && OpenHook(st, pid, file, w).1 != Denied ==>
          !l.anonymous && Scan(tickets, l.id, OP_OPEN))
      && (!Exempted(st, pid, st.files[file], m) && PermissionHook(st, pid, file).1 != Denied ==>
          !m.anonymous && Scan(tickets, m.id, OP_OPEN))
  {
    hide Housekeep, Expire, Scan, Public;
    PublicId(Seen(st, pid, file, w).0.id);
    PublicId(PipeTagged(st.files[file], st.files[file].mem.value, st.tasks[pid]).id);
  }

  /** Grant soundness for every kind of object: in every run, whatever the tree loses and attribute writes
      fail, an access that is not exempt was granted to the process by a ticket stored less than
      fifteen seconds before. */
  lemma AccessSound(st0: State, es: seq<Event>, pid: Int32, file: nat, w: Writes)
    requires Initial(st0) && Runs(st0, es)
    requires var st := After(st0, es); pid in st.tasks && pid > 1 && Loaded(st, file)
    ensures
      var st := After(st0, es);
      var l, m := Seen(st, pid, file, w).0, PipeTagged(st.files[file], st.files[file].mem.value, st.tasks[pid]);
      && (!Exempted(st, pid, st.files[file], l) && OpenHook(st, pid, file, w).1 != Denied ==>
          !l.anonymous && StoredRecently(st, pid, l.id, OP_OPEN))
      && (!Exempted(st, pid, st.files[file], m) && PermissionHook(st, pid, file).1 != Denied ==>
          !m.anonymous && StoredRecently(st, pid, m.id, OP_OPEN))
  {
    hide OpenHook, PermissionHook, Seen, Exempted, Runs, After, Initial, Claiming, TicketInv, Recorded, StoredRecently, Scan, PipeTagged;
    var st := After(st0, es);
    InitialInv(st0);
    Reachable(st0, es);
    ScannedOtherwise(st, pid, file, w);
    var tickets := TaskHousekeep(st, pid).tasks[pid].tickets;
    var l, m := Seen(st, pid, file, w).0, PipeTagged(st.files[file], st.files[file].mem.value, st.tasks[pid]);
    if Scan(tickets, l.id, OP_OPEN) {
      ScanRecent(st, pid, l.id, OP_OPEN);
    }
    if Scan(tickets, m.id, OP_OPEN) {
      ScanRecent(st, pid, m.id, OP_OPEN);
    }
  }

  // ----- pipes

  predicate Pipe(f: File) {
    f.fs == PipeFs && f.ino >= 2 && !f.isDir
  }

  /** A process other than the daemon is let through to a pipe exactly when neither side is in realm, the
      identifiers are equal, the pipe is public, or it has a name and a stored, live ticket backs the
      access. */
  lemma PipeExact(st: State, pid: Int32, file: nat, w: Writes)
    requires TicketInv(st) && pid in st.tasks && pid > 1 && pid != st.daemon && Loaded(st, file) && Pipe(st.files[file])
    ensures var l, t := Seen(st, pid, file, w).0, st.tasks[pid];
      OpenHook(st, pid, file, w).1 != Denied <==>
        || (!l.inRealm && !t.inRealm) || l.id == t.id || Public(l.id)
        || (!l.anonymous && Backed(st, pid, l.id, OP_OPEN))
    ensures var l, t := PipeTagged(st.files[file], st.files[file].mem.value, st.tasks[pid]), st.tasks[pid];
      PermissionHook(st, pid, file).1 != Denied <==>
        || (!l.inRealm && !t.inRealm) || l.id == t.id || Public(l.id)
        || (!l.anonymous && Backed(st, pid, l.id, OP_OPEN))
  {
    hide TicketInv, OpenHook, PermissionHook, Seen, Backed, Public, PipeTagged;
    DecisionExact(st, pid, file, w);
  }

  /** A pipe that has the identifier `id`, and whose label nothing is left to change. */
  predicate Owned(st: State, file: nat, id: Id) {
    && file in st.files && Pipe(st.files[file])
    && (st.files[file].mem.Some? ==>
      var l := st.files[file].mem.value; !l.anonymous && l.id == id && l.checked && !l.needsUpdate)
  }

  /** A tainted process touches a pipe that nobody has. */
  predicate FirstTouch(st: State, e: Event, file: nat) {
    && Enabled(st, e) && (e.Open? || e.Permission?) && e.file == file
    && st.tasks[e.pid].inRealm && Pipe(st.files[file]) && st.files[file].mem.value.anonymous
  }

  lemma NothingToDo(l: Label, d: Xattrs, w: Writes)
    requires l.checked && !l.needsUpdate
    ensures Housekeep(l, d, w) == (l, d)
  {
  }

  lemma TouchOwns(st: State, e: Event, file: nat)
    requires FirstTouch(st, e, file)
    ensures Owned(Next(st, e), file, st.tasks[e.pid].id)
    ensures e.pid in Next(st, e).tasks && Next(st, e).tasks[e.pid].id == st.tasks[e.pid].id
  {
    hide CanAccess, Expire, Housekeep, PendingFor, Claimed;
    if e.Open? {
      NothingToDo(TaggedLabel(st, e.pid, file), st.files[file].disk, e.w);
    }
  }

  lemma StepKeepsOwner(st: State, e: Event, file: nat, id: Id)
    requires Owned(st, file, id) && Enabled(st, e) && !(e.Install? && e.file == file)
    ensures Owned(Next(st, e), file, id)
  {
    hide CanAccess, Claiming, InsertRecord, GrantsOf, ShmOutcome, Labels.Install, Orderable, Housekeep;
    if !TouchesFiles(e) {
      hide Next;
      FilesSame(st, e);
    } else if e.Open? && e.file == file {
      NothingToDo(TaggedLabel(st, e.pid, file), st.files[file].disk, e.w);
    }
  }

  lemma StepKeepsId(st: State, e: Event, pid: Int32, id: Id)
    requires Enabled(st, e) && e != Exit(pid) && !(e.Replace? && e.pid == pid)
    requires pid in st.tasks && st.tasks[pid].id == id
    ensures pid in Next(st, e).tasks && Next(st, e).tasks[pid].id == id
  {
    hide CanAccess, Expire, InsertRecord, GrantsOf, ShmVerdict, Labels.Install, Housekeep, Orderable;
  }

  lemma {:induction false} KeepsOwner(st: State, es: seq<Event>, file: nat, id: Id)
    requires Owned(st, file, id) && Runs(st, es) && (forall e :: e in es ==> !(e.Install? && e.file == file))
    ensures Owned(After(st, es), file, id)
    decreases |es|
  {
    hide Owned, Next, Enabled;
    if es != [] {
      StepKeepsOwner(st, es[0], file, id);
      KeepsOwner(Next(st, es[0]), es[1..], file, id);
    }
  }

  lemma {:induction false} KeepsId(st: State, es: seq<Event>, pid: Int32, id: Id)
    requires Runs(st, es) && KeepsCred(es, pid) && pid in st.tasks && st.tasks[pid].id == id
    ensures var st' := After(st, es); pid in st'.tasks && st'.tasks[pid].id == id
    decreases |es|
  {
    hide Next, Enabled;
    if es != [] {
      assert es[0] in es;
      StepKeepsId(st, es[0], pid, id);
      KeepsId(Next(st, es[0]), es[1..], pid, id);
    }
  }

  lemma OwnedDecision(st: State, file: nat, id: Id, q: Int32, w: Writes)
    requires Recorded(st) && Owned(st, file, id) && Loaded(st, file) && q in st.tasks && q > 1
    ensures st.tasks[q].id == id ==> OpenHook(st, q, file, w).1 == Exempt && PermissionHook(st, q, file).1 == Exempt
    ensures
      && st.tasks[q].inRealm && st.tasks[q].id != id && !Public(id) && q != st.daemon && !StoredRecently(st, q, id, OP_OPEN) ==>
        OpenHook(st, q, file, w).1 == Denied && PermissionHook(st, q, file).1 == Denied
  {
    hide Recorded, Expire, Scan, Public, StoredRecently, ReadId;
    PublicId(id);
    if Scan(TaskHousekeep(st, q).tasks[q].tickets, id, OP_OPEN) {
      ScanRecent(st, q, id, OP_OPEN);
    }
  }

  /** A pipe belongs to the first tainted process that touches it. Along every run in which no label is
      installed on it, it is open to that process, as long as it keeps its credential, and to nobody
      else in realm that has another identifier, is not the daemon and was given no ticket for that
      identifier in the last fifteen seconds. */
  lemma PipeOwnership(st: State, e: Event, es: seq<Event>, file: nat, q: Int32, w: Writes)
    requires Inv(st) && FirstTouch(st, e, file) && Runs(Next(st, e), es)
    requires forall x :: x in es ==> !(x.Install? && x.file == file)
    requires var st' := After(Next(st, e), es); Loaded(st', file) && q in st'.tasks && q > 1
    ensures
      var st', id := After(Next(st, e), es), st.tasks[e.pid].id;
      && (q == e.pid && KeepsCred(es, q) ==> OpenHook(st', q, file, w).1 == Exempt && PermissionHook(st', q, file).1 == Exempt)
      && (st'.tasks[q].inRealm && st'.tasks[q].id != id && !Public(id) && q != st'.daemon && !StoredRecently(st', q, id, OP_OPEN) ==>
          OpenHook(st', q, file, w).1 == Denied && PermissionHook(st', q, file).1 == Denied)
  {
    hide Recorded, Tidy, Runs, After, OpenHook, PermissionHook, Next, Owned, Public, StoredRecently, KeepsCred;
    var st1, st', id := Next(st, e), After(Next(st, e), es), st.tasks[e.pid].id;
    TouchOwns(st, e, file);
    KeepsOwner(st1, es, file, id);
    StepInv(st, e);
    Reachable(st1, es);
    if q == e.pid && KeepsCred(es, q) {
      KeepsId(st1, es, q, id);
    }
    OwnedDecision(st', file, id, q, w);
  }

  // ----- files that were declassified

  /** The file is out of realm on disk and, when it is loaded, in memory. */
  predicate OutOfRealm(st: State, file: nat) {
    && file in st.files && !st.files[file].disk.inRealm
    && (st.files[file].mem.Some? ==> !st.files[file].mem.value.inRealm)
  }

  /** No registration arrives for the file. */
  predicate Unregistered(es: seq<Event>, file: nat) {
    forall e :: e in es && e.Install? && e.file == file ==> Declassifies(e.op) || !Registers(e.op)
  }

  lemma HousekeepOut(l: Label, d: Xattrs, w: Writes)
    requires !l.inRealm && !d.inRealm
    ensures var (l', d') := Housekeep(l, d, w); !l'.inRealm && d' == d
  {
  }

  lemma InstallOut(l: Label, d: Xattrs, op: bv16, id: Id, w: Writes)
    requires !l.inRealm && !d.inRealm && (Declassifies(op) || !Registers(op))
    ensures var (l', d', _) := Labels.Install(l, d, op, id, w); !l'.inRealm && !d'.inRealm
  {
  }

  lemma StepStaysOut(st: State, e: Event, file: nat)
    requires OutOfRealm(st, file) && Enabled(st, e)
    requires e.Install? && e.file == file ==> Declassifies(e.op) || !Registers(e.op)
    ensures OutOfRealm(Next(st, e), file)
  {
    hide CanAccess, Claiming, InsertRecord, GrantsOf, ShmOutcome, Labels.Install, Orderable, Housekeep, Declassifies, Registers;
    if !TouchesFiles(e) {
      hide Next;
      FilesSame(st, e);
    } else if e.Open? && e.file == file {
      HousekeepOut(TaggedLabel(st, e.pid, file), st.files[file].disk, e.w);
    } else if e.Reload? && e.file == file {
      HousekeepOut(FRESH, st.files[file].disk, e.w);
    } else if e.Install? && e.file == file {
      InstallOut(st.files[file].mem.value, st.files[file].disk, e.op, e.id, e.w);
    }
  }

  lemma {:induction false} StaysOut(st: State, es: seq<Event>, file: nat)
    requires OutOfRealm(st, file) && Runs(st, es) && Unregistered(es, file)
    ensures OutOfRealm(After(st, es), file)
    decreases |es|
  {
    hide OutOfRealm, Next, Enabled, Declassifies, Registers;
    if es != [] {
      assert es[0] in es;
      StepStaysOut(st, es[0], file);
      StaysOut(Next(st, es[0]), es[1..], file);
    }
  }

  /** A file out of realm is open to every process out of realm, tickets or none, after every run in
      which no registration arrives for it. */
  lemma OutOfRealmOpens(st: State, es: seq<Event>, file: nat, pid: Int32, w: Writes)
    requires OutOfRealm(st, file) && Runs(st, es) && Unregistered(es, file)
    requires var st' := After(st, es); pid in st'.tasks && !st'.tasks[pid].inRealm && Loaded(st', file)
    ensures var st' := After(st, es);
      OpenHook(st', pid, file, w).1 == Exempt && PermissionHook(st', pid, file).1 == Exempt
  {
    hide Runs, After, Next, Enabled, Unregistered, CanAccess, Expire, Housekeep;
    StaysOut(st, es, file);
    var st' := After(st, es);
    HousekeepOut(TaggedLabel(st', pid, file), st'.files[file].disk, w);
  }
}
