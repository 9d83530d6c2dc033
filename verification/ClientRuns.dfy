/** What libcitadel's cache keeps over every sequence of calls, and what an entry that is in date says
    about the kernel. */
module ClientRuns {
  import opened Bytes
  import opened Tickets
  import opened Options
  import opened Monitor
  import opened MonitorRuns
  import opened Guarantees
  import opened SearchTree
  import C = ClientCache

  const FILE_NAMES: nat := 0
  const FD: nat := 1
  const GROUPS: nat := 3

  /** The groups, and the last time read from the clock. */
  datatype Client = Client(groups: seq<seq<C.Entry>>, clock: C.Time)

  datatype Call =
    | CreateEntry(group: nat, now: C.Time, op: bv16, fd: int, data: seq<bv8>)
    | GroupHead(group: nat, now: C.Time)
    | PopHead(group: nat)
    | ValidateFd(fd: int, id: Id, wanted: Option<bv16>, now: C.Time, later: C.Time, approved: bool)
    | OnFork

  /** The clock does not run backwards. */
  predicate Timely(c: Client, e: Call) {
    match e
    case CreateEntry(_, now, _, _, _) => C.NotAfter(c.clock, now)
    case GroupHead(_, now) => C.NotAfter(c.clock, now)
    case ValidateFd(_, _, _, now, later, _) => C.NotAfter(c.clock, now) && C.NotAfter(now, later)
    case _ => true
  }

  function Served(c: Client, e: Call): (r: Client)
    requires |c.groups| == GROUPS
    ensures |r.groups| == GROUPS
  {
    match e
    case CreateEntry(group, now, op, fd, data) =>
      if group >= GROUPS then c
      else Client(c.groups[group := c.groups[group] + [C.Entry(now, op, fd, data)]], now)
    case GroupHead(group, now) =>
      if group != FILE_NAMES then c
      else Client(c.groups[group := c.groups[group][C.Leading(c.groups[group], now)..]], now)
    case PopHead(group) =>
      if group >= GROUPS || c.groups[group] == [] then c
      else c.(groups := c.groups[group := c.groups[group][1..]])
    case ValidateFd(fd, id, op, now, later, approved) =>
      Client(c.groups[FD := C.Validated(c.groups[FD], fd, id, op, now, later, approved).0], later)
    case OnFork => c.(groups := [C.Forked(c.groups[0]), C.Forked(c.groups[1]), C.Forked(c.groups[2])])
  }

  /** Every group is in time order, and no entry is from the future. */
  predicate InOrder(c: Client) {
    && |c.groups| == GROUPS && C.NotAfter(C.ZERO_TIME, c.clock)
    && forall g :: 0 <= g < GROUPS ==> C.Ordered(c.groups[g]) && C.UpTo(c.groups[g], c.clock)
  }

  lemma LaterIsUpTo(s: seq<C.Entry>, now: C.Time, later: C.Time)
    requires C.UpTo(s, now) && C.NotAfter(now, later)
    ensures C.UpTo(s, later)
  {
  }

  lemma AppendOrdered(s: seq<C.Entry>, e: C.Entry)
    requires C.Ordered(s) && C.UpTo(s, e.time)
    ensures C.Ordered(s + [e]) && C.UpTo(s + [e], e.time)
  {
  }

  lemma SuffixOrdered(s: seq<C.Entry>, k: nat, now: C.Time)
    requires C.Ordered(s) && C.UpTo(s, now) && k <= |s|
    ensures C.Ordered(s[k..]) && C.UpTo(s[k..], now)
  {
  }

  lemma ForkOrdered(s: seq<C.Entry>, now: C.Time)
    requires C.NotAfter(C.ZERO_TIME, now)
    ensures C.Ordered(C.Forked(s)) && C.UpTo(C.Forked(s), now)
  {
  }

  lemma ValidatedOrdered(s: seq<C.Entry>, fd: int, id: Id, op: Option<bv16>, now: C.Time, later: C.Time, approved: bool)
    requires C.Ordered(s) && C.UpTo(s, later)
    ensures var r := C.Validated(s, fd, id, op, now, later, approved).0; C.Ordered(r) && C.UpTo(r, later)
  {
    hide C.Ordered, C.UpTo;
    var k := C.FindFd(s, fd, id, op);
    if k < |s| {
      C.RefreshOrdered(s, k, later);
    } else if op.Some? {
      AppendOrdered(s, C.Entry(later, op.value, fd, id));
    }
  }

  lemma CallKeepsOrder(c: Client, e: Call)
    requires InOrder(c) && Timely(c, e)
    ensures InOrder(Served(c, e))
  {
    hide C.Ordered, C.UpTo, C.Validated, C.Leading, C.Forked;
    var later := Served(c, e).clock;
    forall g | 0 <= g < GROUPS
      ensures C.UpTo(c.groups[g], later)
    {
      LaterIsUpTo(c.groups[g], c.clock, later);
    }
    match e
    case CreateEntry(group, now, op, fd, data) =>
      if group < GROUPS {
        AppendOrdered(c.groups[group], C.Entry(now, op, fd, data));
      }
    case GroupHead(group, now) =>
      if group == FILE_NAMES {
        SuffixOrdered(c.groups[group], C.Leading(c.groups[group], now), now);
      }
    case PopHead(group) =>
      if group < GROUPS && c.groups[group] != [] {
        SuffixOrdered(c.groups[group], 1, c.clock);
      }
    case ValidateFd(fd, id, op, now, later, approved) =>
      ValidatedOrdered(c.groups[FD], fd, id, op, now, later, approved);
    case OnFork =>
      forall g | 0 <= g < GROUPS
        ensures C.Ordered(C.Forked(c.groups[g])) && C.UpTo(C.Forked(c.groups[g]), c.clock)
      {
        ForkOrdered(c.groups[g], c.clock);
      }
  }

  predicate Calls(c: Client, es: seq<Call>)
    requires |c.groups| == GROUPS
    decreases |es|
  {
    es == [] || (Timely(c, es[0]) && Calls(Served(c, es[0]), es[1..]))
  }

  function AfterCalls(c: Client, es: seq<Call>): (r: Client)
    requires |c.groups| == GROUPS && Calls(c, es)
    ensures |r.groups| == GROUPS
    decreases |es|
  {
    if es == [] then c else AfterCalls(Served(c, es[0]), es[1..])
  }

  /** Over every sequence of calls all groups stay in time order; so looking up a file name first
      removes exactly the entries that are fifteen seconds old or older. */
  lemma {:induction false} GroupsStayOrdered(c: Client, es: seq<Call>, now: C.Time)
    requires InOrder(c) && Calls(c, es) && C.NotAfter(AfterCalls(c, es).clock, now)
    ensures
      var c' := AfterCalls(c, es);
      var s := c'.groups[FILE_NAMES];
      && InOrder(c')
      && forall i :: 0 <= i < |s| ==> (i < C.Leading(s, now) <==> now.sec - s[i].time.sec >= C.LIFETIME)
    decreases |es|
  {
    if es == [] {
      C.CleanupExact(c.groups[FILE_NAMES], now);
    } else {
      CallKeepsOrder(c, es[0]);
      GroupsStayOrdered(Served(c, es[0]), es[1..], now);
    }
  }

  // ----- the client and the kernel

  /** A client time on the kernel's clock. */
  function Nanoseconds(t: C.Time): (r: int) {
    t.sec * SECOND + t.nsec
  }

  /** The kernel stored a ticket for what the entry stands for at most a second before the entry was
      stamped, and the process still has its credential. */
  ghost predicate Covered(e: C.Entry, st: State, pid: Int32) {
    exists g :: g in st.log && CoveredBy(e, st, pid, g)
  }

  predicate CoveredBy(e: C.Entry, st: State, pid: Int32, g: Grant) {
    && g.pid == pid && g !in st.lost && g.ticket.id == e.data && g.ticket.op == e.op
    && g.ticket.stamp <= Nanoseconds(e.time) <= g.ticket.stamp + SECOND
  }

  ghost predicate AllCovered(s: seq<C.Entry>, st: State, pid: Int32) {
    forall i :: 0 <= i < |s| ==> Covered(s[i], st, pid)
  }

  /** An entry that entry_in_date accepts is backed by a live ticket in the kernel. */
  lemma InDateIsLive(e: C.Entry, st: State, pid: Int32, now: C.Time)
    requires Covered(e, st, pid) && C.InDate(e.time, now) && e.op != 0
    requires 0 <= e.time.nsec < SECOND && 0 <= now.nsec < SECOND && st.now == Nanoseconds(now)
    ensures |e.data| == ID_LENGTH && Backed(st, pid, e.data, e.op)
  {
    var g :| g in st.log && CoveredBy(e, st, pid, g);
    assert now.sec - e.time.sec <= 13;
    SelfShares(e.op);
    assert Matches(g.ticket, e.data, e.op) && !Expired(g.ticket, st.now);
  }

  lemma SelfShares(op: bv16)
    ensures Shares(op, op) <==> op != 0
  {
  }

  /** One step of the two together: the kernel does something, or the process looks at a descriptor.
      When the enclave approves, it has had the ticket stored less than a second before. */
  datatype Joint =
    | Kernel(e: Event)
    | Process(fd: int, id: Id, op: Option<bv16>, now: C.Time, later: C.Time, approved: bool)

  /** The operation that a look at a descriptor asks the enclave for, if it asks at all: that of the
      cached entry when it has run out, and otherwise the one wanted, if there is one. */
  function OpAsked(s: seq<C.Entry>, fd: int, id: Id, op: Option<bv16>, now: C.Time): (r: Option<bv16>) {
    var k := C.FindFd(s, fd, id, op);
    if k == |s| then op
    else if C.Answers(s[k], now) then None
    else Some(s[k].op)
  }

  ghost predicate JointEnabled(s: seq<C.Entry>, st: State, pid: Int32, j: Joint) {
    match j
    case Kernel(e) => Enabled(st, e) && e != Exit(pid) && !(e.Replace? && e.pid == pid)
    case Process(fd, id, op, now, later, approved) =>
      var asked := OpAsked(s, fd, id, op, now);
      approved && asked.Some? ==> Covered(C.Entry(later, asked.value, fd, id), st, pid)
  }

  function JointStep(s: seq<C.Entry>, st: State, j: Joint): (r: (seq<C.Entry>, State))
    requires j.Kernel? ==> Enabled(st, j.e)
  {
    match j
    case Kernel(e) => (s, Next(st, e))
    case Process(fd, id, op, now, later, approved) => (C.Validated(s, fd, id, op, now, later, approved).0, st)
  }

  ghost predicate JointRun(s: seq<C.Entry>, st: State, pid: Int32, js: seq<Joint>)
    decreases |js|
  {
    js == [] ||
      (JointEnabled(s, st, pid, js[0]) && var (s', st') := JointStep(s, st, js[0]); JointRun(s', st', pid, js[1..]))
  }

  ghost function JointEnd(s: seq<C.Entry>, st: State, pid: Int32, js: seq<Joint>): (r: (seq<C.Entry>, State))
    requires JointRun(s, st, pid, js)
    decreases |js|
  {
    if js == [] then (s, st)
    else
      var (s', st') := JointStep(s, st, js[0]);
      JointEnd(s', st', pid, js[1..])
  }

  lemma StillCovered(e: C.Entry, st: State, pid: Int32, ev: Event)
    requires TicketInv(st) && Covered(e, st, pid) && Enabled(st, ev) && ev != Exit(pid) && !(ev.Replace? && ev.pid == pid)
    ensures Covered(e, Next(st, ev), pid)
  {
    hide Next, Enabled;
    var g :| g in st.log && CoveredBy(e, st, pid, g);
    StepKeepsGrant(st, ev, g);
    assert CoveredBy(e, Next(st, ev), pid, g);
  }

  lemma ValidatedCovered(s: seq<C.Entry>, st: State, pid: Int32, j: Joint)
    requires AllCovered(s, st, pid) && j.Process? && JointEnabled(s, st, pid, j)
    ensures AllCovered(JointStep(s, st, j).0, st, pid)
  {
    hide Covered;
    var k := C.FindFd(s, j.fd, j.id, j.op);
    if k < |s| && j.approved {
      assert C.Refreshed(s, k, j.later) == s[..k] + s[k + 1..] + [s[k].(time := j.later)];
      assert s[k].(time := j.later) == C.Entry(j.later, s[k].op, j.fd, j.id);
    }
  }

  lemma {:induction false} JointKeysGrow(s: seq<C.Entry>, st: State, pid: Int32, js: seq<Joint>)
    requires JointRun(s, st, pid, js)
    ensures TreeKeys(st) <= TreeKeys(JointEnd(s, st, pid, js).1)
    decreases |js|
  {
    hide Next, Enabled, Covered, TreeKeys, C.Validated;
    if js != [] {
      if js[0].Kernel? {
        KeysGrow(st, js[0].e);
      }
      var (s', st') := JointStep(s, st, js[0]);
      JointKeysGrow(s', st', pid, js[1..]);
    }
  }

  lemma {:induction false} JointInv(s: seq<C.Entry>, st: State, pid: Int32, js: seq<Joint>)
    requires TicketInv(st) && AllCovered(s, st, pid) && JointRun(s, st, pid, js)
    requires Orderable(TreeKeys(JointEnd(s, st, pid, js).1))
    ensures var (s', st') := JointEnd(s, st, pid, js); TicketInv(st') && AllCovered(s', st', pid)
    decreases |js|
  {
    hide Covered, Next, Enabled, TicketInv, C.Validated, TreeKeys, Orderable;
    if js != [] {
      var (s', st') := JointStep(s, st, js[0]);
      if js[0].Kernel? {
        JointKeysGrow(s', st', pid, js[1..]);
        SubsetOrderable(TreeKeys(st'), TreeKeys(JointEnd(s, st, pid, js).1));
        StepTickets(st, js[0].e);
        forall i | 0 <= i < |s|
          ensures Covered(s[i], st', pid)
        {
          StillCovered(s[i], st, pid, js[0].e);
        }
      } else {
        ValidatedCovered(s, st, pid, js[0]);
      }
      JointInv(s', st', pid, js[1..]);
    }
  }

  /** In every run of process and kernel together in which the process keeps its credential, each
      descriptor entry that is in date has a live ticket in the kernel: after housekeeping the scan
      for its identifier and operation succeeds, if the tree can order the process IDs in it. */
  lemma CachedMeansLive(s: seq<C.Entry>, st: State, pid: Int32, js: seq<Joint>, e: C.Entry, now: C.Time)
    requires TicketInv(st) && AllCovered(s, st, pid) && JointRun(s, st, pid, js) && pid > 1
    requires var (s', st') := JointEnd(s, st, pid, js);
      && Orderable(TreeKeys(st')) && e in s' && C.InDate(e.time, now) && e.op != 0 && pid in st'.tasks
      && 0 <= e.time.nsec < SECOND && 0 <= now.nsec < SECOND && st'.now == Nanoseconds(now)
    ensures
      var st' := JointEnd(s, st, pid, js).1;
      |e.data| == ID_LENGTH && Scan(TaskHousekeep(st', pid).tasks[pid].tickets, e.data, e.op)
  {
    hide Covered, TicketInv, C.InDate, TreeKeys, Orderable, JointRun, JointEnd, Scan, TaskHousekeep;
    JointInv(s, st, pid, js);
    var st' := JointEnd(s, st, pid, js).1;
    InDateIsLive(e, st', pid, now);
    ScanIsBacked(st', pid, e.data, e.op);
  }

  /** The operation that an answer is about: that of the first entry for the descriptor, or else the one
      wanted. */
  function OpAnswered(s: seq<C.Entry>, fd: int, id: Id, op: Option<bv16>): (r: Option<bv16>) {
    var k := C.FindFd(s, fd, id, op);
    if k < |s| then Some(s[k].op) else op
  }

  /** An entry in date answers. */
  predicate FromCache(s: seq<C.Entry>, fd: int, id: Id, op: Option<bv16>, now: C.Time) {
    var k := C.FindFd(s, fd, id, op);
    k < |s| && C.InDate(s[k].time, now)
  }

  predicate Normal(t: C.Time) {
    0 <= t.nsec < SECOND
  }

  /** When a look at a descriptor says yes, in any such run, and not because the entry needs no date, the
      kernel has a live ticket for that identifier and operation: at the time of the look if an entry in
      date says so, and at the time of the enclave's answer if that does. */
  lemma AnswerMeansLive(s: seq<C.Entry>, st: State, pid: Int32, js: seq<Joint>, j: Joint)
    requires TicketInv(st) && AllCovered(s, st, pid) && JointRun(s, st, pid, js) && pid > 1 && j.Process?
    requires var (s', st') := JointEnd(s, st, pid, js);
      && Orderable(TreeKeys(st')) && JointEnabled(s', st', pid, j) && pid in st'.tasks
      && C.Validated(s', j.fd, j.id, j.op, j.now, j.later, j.approved).1
      && Normal(j.now) && Normal(j.later) && (forall e :: e in s' ==> Normal(e.time))
    ensures
      var (s', st') := JointEnd(s, st, pid, js);
      var op := OpAnswered(s', j.fd, j.id, j.op);
      && op.Some? && (j.op.Some? ==> op == j.op)
      && (op.value != 0 && !Shares(op.value, OP_NOP)
          && st'.now == Nanoseconds(if FromCache(s', j.fd, j.id, j.op, j.now) then j.now else j.later) ==>
            Scan(TaskHousekeep(st', pid).tasks[pid].tickets, j.id, op.value))
  {
    hide Covered, TicketInv, C.InDate, TreeKeys, Orderable, JointRun, JointEnd, Scan, TaskHousekeep, Nanoseconds, Shares, C.Refreshed;
    JointInv(s, st, pid, js);
    var (s', st') := JointEnd(s, st, pid, js);
    var k, op := C.FindFd(s', j.fd, j.id, j.op), OpAnswered(s', j.fd, j.id, j.op);
    if op.value != 0 && !Shares(op.value, OP_NOP) {
      if FromCache(s', j.fd, j.id, j.op, j.now) {
        if st'.now == Nanoseconds(j.now) {
          InDateIsLive(s'[k], st', pid, j.now);
          ScanIsBacked(st', pid, j.id, op.value);
        }
      } else if st'.now == Nanoseconds(j.later) {
        FreshInDate(j.later);
        InDateIsLive(C.Entry(j.later, op.value, j.fd, j.id), st', pid, j.later);
        ScanIsBacked(st', pid, j.id, op.value);
      }
    }
  }

  lemma FreshInDate(t: C.Time)
    ensures C.InDate(t, t)
  {
  }
}
