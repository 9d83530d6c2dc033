/** Where the right to a terminal comes from, and how long it lasts. */
module Terminals {
  import opened Bytes
  import opened Options
  import opened Tickets
  import opened Labels
  import opened Monitor
  import opened MonitorRuns
  import opened SearchTree

  /** A record that grants a terminal to `pid`. */
  predicate PtyRecord(e: Event, pid: Int32) {
    e.Insert? && e.record.pid == pid && Shares(e.record.op, OP_PTY)
  }

  /** In `es` a terminal was granted to `p`, and `p` is `pid` or, at the forks that lead to it, an
      ancestor that was granted it before. */
  predicate PtyFrom(es: seq<Event>, pid: Int32, p: Int32)
    decreases |es|
  {
    es != [] &&
      var n := |es| - 1;
      || PtyFrom(es[..n], pid, p)
      || (p == pid && PtyRecord(es[n], pid))
      || (es[n].Fork? && es[n].child == pid && PtyFrom(es[..n], es[n].pid, p))
  }

  /** The process holds the right to a terminal, or it waits for it. */
  predicate HasPty(st: State, pid: Int32) {
    || (pid in st.tasks && st.tasks[pid].pty) || PendingFor(st.pending, pid).pty
    || (exists s :: s in st.strays && s.pid == pid && s.kept.pty)
  }

  lemma HookPty(st: State, e: Event, pid: Int32)
    requires Enabled(st, e) && (e.Open? || e.Permission? || e.Prctl?) && HasPty(Next(st, e), pid)
    ensures HasPty(st, pid)
  {
    hide OpenFile, PermissionFile, Expire;
    var st1 := TaskHousekeep(st, e.pid);
    if e.Open? || e.Permission? {
      DecisionKeeps(st1.tasks[e.pid], st1.files[e.file], e.pid == st.daemon, if e.Open? then e.w else Writes(true, true, true));
    }
  }

  /** Losing and finding a reservation keeps its terminal right. */
  lemma StrayPty(st: State, e: Event, pid: Int32)
    requires Enabled(st, e) && (e.Hide? || e.Show?) && HasPty(Next(st, e), pid)
    ensures HasPty(st, pid)
  {
    hide Orderable;
    if e.Hide? && exists s :: s in Next(st, e).strays && s.pid == pid && s.kept.pty {
      var s :| s in Next(st, e).strays && s.pid == pid && s.kept.pty;
      assert s in st.strays || s == Stray(e.pid, st.pending[e.pid]);
    }
  }

  lemma StepPty(st: State, e: Event, pid: Int32)
    requires Enabled(st, e) && HasPty(Next(st, e), pid)
    ensures HasPty(st, pid) || PtyRecord(e, pid) || (e.Fork? && e.child == pid && HasPty(st, e.pid))
  {
    if e.Open? || e.Permission? || e.Prctl? {
      hide Next, HasPty;
      HookPty(st, e, pid);
    } else if e.Hide? || e.Show? {
      hide Next, HasPty;
      StrayPty(st, e, pid);
    } else {
      hide Housekeep, Labels.Install, GrantsOf, Scan, Orderable;
    }
  }

  /** In every run, the right to a terminal goes back to a record for the process or an ancestor. */
  lemma {:induction false} TerminalOrigin(st: State, es: seq<Event>, pid: Int32) returns (p: Int32)
    requires Initial(st) && Runs(st, es) && HasPty(After(st, es), pid)
    ensures PtyFrom(es, pid, p)
    decreases |es|
  {
    hide Next, Enabled, Initial, HasPty;
    if es == [] {
      NoneInitially(st, pid);
    } else {
      var n := |es| - 1;
      RunsLast(st, es);
      var before := After(st, es[..n]);
      StepPty(before, es[n], pid);
      if PtyRecord(es[n], pid) {
        p := pid;
      } else if HasPty(before, pid) {
        p := TerminalOrigin(st, es[..n], pid);
      } else {
        p := TerminalOrigin(st, es[..n], es[n].pid);
      }
    }
  }

  lemma NoneInitially(st: State, pid: Int32)
    requires Initial(st)
    ensures !HasPty(st, pid)
  {
  }

  /** The record is in the run. */
  lemma {:induction false} PtyFromRecord(es: seq<Event>, pid: Int32, p: Int32) returns (k: nat)
    requires PtyFrom(es, pid, p)
    ensures k < |es| && PtyRecord(es[k], p)
    decreases |es|
  {
    var n := |es| - 1;
    if PtyFrom(es[..n], pid, p) {
      k := PtyFromRecord(es[..n], pid, p);
    } else if p == pid && PtyRecord(es[n], pid) {
      k := n;
    } else {
      k := PtyFromRecord(es[..n], es[n].pid, p);
    }
  }

  // ----- whoever was granted a terminal gets it

  /** The process holds the right to a terminal, or will with its next hook. */
  predicate PtyDue(st: State, pid: Int32) {
    (pid in st.tasks && st.tasks[pid].pty) || (pid in st.pending && st.pending[pid].pty)
  }

  /** The process does not end. */
  predicate Lives(es: seq<Event>, pid: Int32) {
    forall e :: e in es ==> !(e.Exit? && e.pid == pid)
  }

  /** A stored record with the PTY bit, whatever its other bits and whether or not its ticket could be
      allocated. */
  lemma RecordGives(st: State, r: Record, mem: Memory)
    requires Enabled(st, Insert(r, mem)) && Shares(r.op, OP_PTY) && (mem.node || r.pid in st.pending)
    ensures PtyDue(Next(st, Insert(r, mem)), r.pid)
  {
  }

  /** A hook hands over all that waits for the process, once. */
  lemma HookClaims(st: State, e: Event)
    requires Enabled(st, e) && (e.Open? || e.Permission? || e.Prctl?) && e.pid > 1
    ensures var st' := Next(st, e);
      && e.pid in st'.tasks && (st'.tasks[e.pid].pty <==> PtyDue(st, e.pid))
      && PendingFor(st'.pending, e.pid) == Pending([], false)
      && (forall p :: p != e.pid ==> (PtyDue(st', p) <==> PtyDue(st, p)))
  {
    hide OpenFile, PermissionFile, Expire;
    var st1 := TaskHousekeep(st, e.pid);
    if e.Open? || e.Permission? {
      DecisionKeeps(st1.tasks[e.pid], st1.files[e.file], e.pid == st.daemon, if e.Open? then e.w else Writes(true, true, true));
    }
  }

  /** Processes zero and one claim nothing. */
  lemma HookOfInit(st: State, e: Event, pid: Int32)
    requires Enabled(st, e) && (e.Open? || e.Permission? || e.Prctl?) && e.pid <= 1
    ensures PtyDue(Next(st, e), pid) <==> PtyDue(st, pid)
  {
    hide OpenFile, PermissionFile, Expire;
    var st1 := TaskHousekeep(st, e.pid);
    if e.Open? || e.Permission? {
      DecisionKeeps(st1.tasks[e.pid], st1.files[e.file], e.pid == st.daemon, if e.Open? then e.w else Writes(true, true, true));
    }
  }

  lemma StepKeepsPty(st: State, e: Event, pid: Int32)
    requires Enabled(st, e) && PtyDue(st, pid) && e != Exit(pid) && Orderable(TreeKeys(st))
    ensures PtyDue(Next(st, e), pid)
  {
    if e.Open? || e.Permission? || e.Prctl? {
      hide Next, Enabled;
      if e.pid > 1 {
        HookClaims(st, e);
      } else {
        HookOfInit(st, e, pid);
      }
    } else {
      hide Housekeep, Labels.Install, GrantsOf, Scan, Orderable, TreeKeys;
    }
  }

  lemma {:induction false} KeepsPty(st: State, es: seq<Event>, pid: Int32)
    requires Runs(st, es) && Lives(es, pid) && PtyDue(st, pid) && Orderable(TreeKeys(After(st, es)))
    ensures PtyDue(After(st, es), pid)
    decreases |es|
  {
    hide PtyDue, Next, Enabled, TreeKeys, Orderable;
    if es != [] {
      assert es[0] in es;
      KeysGrowRun(st, es);
      SubsetOrderable(TreeKeys(st), TreeKeys(After(st, es)));
      StepKeepsPty(st, es[0], pid);
      KeepsPty(Next(st, es[0]), es[1..], pid);
    }
  }

  lemma DueIsOpen(st: State, pid: Int32, file: nat, w: Writes)
    requires PtyDue(st, pid) && pid in st.tasks && pid > 1 && Loaded(st, file) && st.files[file].fs == DevPts
    ensures OpenHook(st, pid, file, w).1 == Exempt && PermissionHook(st, pid, file).1 == Exempt
  {
    hide Housekeep, Expire, Scan;
  }

  /** Terminal completeness: after a record with the PTY bit is stored for a process, every object of the
      terminal file system is open to it, along every run, for as long as it lives, whatever
      credentials it takes, unless a process ID is stored that the tree cannot order with the others. */
  lemma TerminalCompleteness(st: State, r: Record, mem: Memory, es: seq<Event>, file: nat, w: Writes)
    requires Enabled(st, Insert(r, mem)) && Shares(r.op, OP_PTY) && (mem.node || r.pid in st.pending) && r.pid > 1
    requires Runs(Next(st, Insert(r, mem)), es) && Lives(es, r.pid)
    requires var st' := After(Next(st, Insert(r, mem)), es);
      Orderable(TreeKeys(st')) && r.pid in st'.tasks && Loaded(st', file) && st'.files[file].fs == DevPts
    ensures var st' := After(Next(st, Insert(r, mem)), es);
      OpenHook(st', r.pid, file, w).1 == Exempt && PermissionHook(st', r.pid, file).1 == Exempt
  {
    hide PtyDue, Next, Enabled, Runs, After, TreeKeys, Orderable, Lives;
    RecordGives(st, r, mem);
    KeepsPty(Next(st, Insert(r, mem)), es, r.pid);
    DueIsOpen(After(Next(st, Insert(r, mem)), es), r.pid, file, w);
  }

  lemma StepKeepsHeld(st: State, e: Event, pid: Int32)
    requires Enabled(st, e) && pid in st.tasks && st.tasks[pid].pty && e != Exit(pid)
    ensures pid in Next(st, e).tasks && Next(st, e).tasks[pid].pty
  {
    if e.Open? || e.Permission? || e.Prctl? {
      hide OpenFile, PermissionFile, Expire;
      var st1 := TaskHousekeep(st, e.pid);
      if e.Open? || e.Permission? {
        DecisionKeeps(st1.tasks[e.pid], st1.files[e.file], e.pid == st.daemon, if e.Open? then e.w else Writes(true, true, true));
      }
    } else {
      hide Housekeep, Labels.Install, GrantsOf, Scan, Orderable, InsertRecord;
    }
  }

  lemma {:induction false} KeepsHeld(st: State, es: seq<Event>, pid: Int32)
    requires Runs(st, es) && Lives(es, pid) && pid in st.tasks && st.tasks[pid].pty
    ensures pid in After(st, es).tasks && After(st, es).tasks[pid].pty
    decreases |es|
  {
    hide Next, Enabled;
    if es != [] {
      assert es[0] in es;
      StepKeepsHeld(st, es[0], pid);
      KeepsHeld(Next(st, es[0]), es[1..], pid);
    }
  }

  /** Once a process has claimed the right, in any hook, every child it forks later has it too, for as
      long as the child lives, and whatever the tree loses. */
  lemma ChildTerminal(st: State, e: Event, es1: seq<Event>, child: Int32, id: Id, es2: seq<Event>, file: nat, w: Writes)
    requires Enabled(st, e) && (e.Open? || e.Permission? || e.Prctl?) && e.pid > 1 && PtyDue(st, e.pid)
    requires Runs(Next(st, e), es1) && Lives(es1, e.pid)
    requires var st1 := After(Next(st, e), es1);
      Enabled(st1, Fork(e.pid, child, id)) && Runs(Next(st1, Fork(e.pid, child, id)), es2)
    requires Lives(es2, child) && child > 1
    requires var st2 := After(Next(After(Next(st, e), es1), Fork(e.pid, child, id)), es2);
      Loaded(st2, file) && st2.files[file].fs == DevPts
    ensures var st2 := After(Next(After(Next(st, e), es1), Fork(e.pid, child, id)), es2);
      && child in st2.tasks
      && OpenHook(st2, child, file, w).1 == Exempt && PermissionHook(st2, child, file).1 == Exempt
  {
    hide PtyDue, Next, Enabled, Runs, After, Lives;
    HookClaims(st, e);
    var st1 := After(Next(st, e), es1);
    KeepsHeld(Next(st, e), es1, e.pid);
    ForkInherits(st1, e.pid, child, id);
    var st2 := After(Next(st1, Fork(e.pid, child, id)), es2);
    KeepsHeld(Next(st1, Fork(e.pid, child, id)), es2, child);
    HeldIsOpen(st2, child, file, w);
  }

  /** A child holds the right exactly when its parent does at the fork. */
  lemma ForkInherits(st: State, pid: Int32, child: Int32, id: Id)
    requires Enabled(st, Fork(pid, child, id))
    ensures var st' := Next(st, Fork(pid, child, id)); child in st'.tasks && st'.tasks[child].pty == st.tasks[pid].pty
  {
  }

  lemma HeldIsOpen(st: State, pid: Int32, file: nat, w: Writes)
    requires pid in st.tasks && st.tasks[pid].pty && pid > 1 && Loaded(st, file) && st.files[file].fs == DevPts
    ensures OpenHook(st, pid, file, w).1 == Exempt && PermissionHook(st, pid, file).1 == Exempt
  {
    hide OpenHook, PermissionHook;
    DueIsOpen(st, pid, file, w);
  }
}
