/** The whole system: enclave, kernel module and monitor. The enclave answers requests by sealing
    messages under its key; the kernel opens them under its own; each accepted message changes both
    keys. Random values and what the environment does are inputs of the steps. */
module Citadel {
  import opened Bytes
  import opened Options
  import opened Tickets
  import opened Labels
  import opened Frames
  import opened Wire
  import opened Lsm
  import opened Monitor
  import opened MonitorRuns

  /** The message key, and the key process tokens are sealed with. */
  datatype Keys = Keys(key: Key, token: Key)

  /** A frame that one of the two ends sealed: the enclave's tickets and labels, the kernel's process
      tokens and its own updates. */
  datatype Made =
    | Sent(frame: seq<bv8>, key: Key, e: Entry)
    | Issued(frame: seq<bv8>, key: Key, pid: bv32)
    | Dumped(frame: seq<bv8>, key: Key)

  /** A request that the enclave approved, and the identifiers it drew for it. */
  datatype Approval = Approval(pid: Int32, req: Request, claimed: Id, inducted: Id)

  /** The last ten fields only record history. */
  datatype Sys = Sys(
    mon: State,
    enclave: Keys,
    lsm: Keys,
    registered: bool,
    challenge: seq<bv8>,
    answer: Option<Challenge>, // the enclave's last answer, until the kernel has taken it
    answers: set<Challenge>,   // every answer the enclave ever gave
    start: State,              // where the monitor began
    trace: seq<Event>,         // the monitor's steps since then
    session: Key,              // the key of the last handshake the kernel took
    accepted: seq<Key>,        // the key updates the kernel accepted since
    sent: seq<Key>,            // the key updates the enclave made since its last answer
    made: set<Made>,           // every frame sealed since the enclave's first answer
    approvals: set<Approval>,  // the requests approved since then
    overrun: bool)             // the kernel has read records from behind an update

  /** One step of the monitor. */
  function Do(s: Sys, e: Event): (r: Sys)
    requires Enabled(s.mon, e)
  {
    s.(mon := Next(s.mon, e), trace := s.trace + [e])
  }

  // ----- the kernel receives

  /** The kernel's key after an accepted message. */
  function Turn(s: Sys, keyUpdate: Key): (r: Sys) {
    s.(lsm := s.lsm.(key := Xor(s.lsm.key, keyUpdate)), accepted := s.accepted + [keyUpdate])
  }

  /** Storing records, the clock moving before each. */
  function Store(s: Sys, es: seq<Entry>, dt: nat, mem: Memory): (r: Sys)
    requires Clocked(s.mon) && dt > 0
    ensures Clocked(r.mon) && r == s.(mon := r.mon, trace := r.trace)
    decreases |es|
  {
    if es == [] then s
    else
      var s1 := Do(s, Tick(dt));
      var s2 := Do(s1, Insert(RecordOf(es[0]), mem));
      Store(s2, es[1..], dt, mem)
  }

  /** process_received_update, with the memory behind the update as far as it is read. */
  function ReceiveUpdate(g: Gcm, s: Sys, frame: seq<bv8>, dt: nat, mem: Memory, beyond: seq<bv8>): (r: Sys)
    requires Ideal(g) && Clocked(s.mon) && dt > 0
    requires s.registered ==> Reaches(g, s.lsm.key, frame, beyond)
    ensures Clocked(r.mon) && r.enclave == s.enclave && r.sent == s.sent
  {
    if !s.registered || !LongEnough(frame) then s
    else
      var s1 := Store(s, EntriesRead(g, s.lsm.key, frame, beyond), dt, mem);
      Turn(s1, UpdateKey(g, s.lsm.key, frame)).(overrun := s.overrun || !InBounds(g, s.lsm.key, frame))
  }

  /** trm_inode_setxattr on security.citadel.install. */
  function ReceiveInstall(g: Gcm, s: Sys, file: nat, frame: seq<bv8>, w: Writes): (r: (Sys, bool))
    requires Ideal(g) && Clocked(s.mon) && Loaded(s.mon, file)
    ensures Clocked(r.0.mon)
  {
    if !s.registered then (s, false)
    else
      match InstallEntry(g, s.lsm.key, frame)
      case None => (s, false)
      case Some(e) =>
        var f := s.mon.files[file];
        var accepted := Labels.Install(f.mem.value, f.disk, e.op, e.id, w).2;
        var s1 := Do(s, Event.Install(file, e.op, e.id, w));
        if accepted then (Turn(s1, UpdateKey(g, s.lsm.key, frame)), true) else (s1, false)
  }

  /** process_challenge_response: only an answer to the current challenge is taken. */
  function ReceiveResponse(s: Sys, c: Challenge): (r: Sys) {
    if c.signature != SIGNATURE || c.challenge != s.challenge then s
    else
      Do(s, Register(c.pid)).(lsm := Keys(c.key, c.key), registered := true, session := c.key, accepted := [])
  }

  // ----- the enclave sends

  /** handle_kernel_challenge: the key of the answer becomes both keys of the enclave. */
  function Answering(s: Sys, a: Challenge): (r: Sys) {
    s.(enclave := Keys(a.key, a.key), sent := [], answer := Some(a), answers := s.answers + {a})
  }

  /** What one message draws from the random generator, and what becomes of it. */
  datatype Draw = Draw(iv: Iv, keyUpdate: Key, id: Id, pad: bv16, written: bool, dt: nat, w: Writes, mem: Memory)

  predicate Fair(d: Draw) {
    d.dt > 0
  }

  function TicketFrame(g: Gcm, s: Sys, e: Entry, d: Draw): (f: seq<bv8>) {
    Seal(g, s.enclave.key, d.iv, EncodeUpdate(d.keyUpdate, e, d.pad))
  }

  /** Sealing a record. */
  function Sealing(g: Gcm, s: Sys, e: Entry, d: Draw): (r: Sys) {
    s.(made := s.made + {Sent(TicketFrame(g, s, e, d), s.enclave.key, e)})
  }

  /** The enclave's key after a message. */
  function TurnEnclave(s: Sys, keyUpdate: Key): (r: Sys) {
    s.(enclave := s.enclave.(key := Xor(s.enclave.key, keyUpdate)), sent := s.sent + [keyUpdate])
  }

  /** An enclave frame stays within bounds: under the same key it reads back as the one record sealed,
      under another it does not open. */
  lemma TicketInBounds(g: Gcm, s: Sys, e: Entry, d: Draw)
    requires Ideal(g)
    ensures var f := TicketFrame(g, s, e, d);
      && InBounds(g, s.lsm.key, f) && RecordInBounds(g, s.lsm.key, f)
      && InstallEntry(g, s.lsm.key, f) == if s.lsm.key == s.enclave.key then Some(e) else None
  {
    hide EncodeUpdate, Fits;
    var p := EncodeUpdate(d.keyUpdate, e, d.pad);
    SealedUpdate(g, s.enclave.key, d.iv, d.keyUpdate, e, d.pad);
    SealedInstall(g, s.enclave.key, d.iv, d.keyUpdate, e, d.pad);
    OpenSealed(g, s.enclave.key, s.lsm.key, d.iv, p);
    ZeroUpdate(|p| + OVERHEAD);
  }

  /** generate_ticket: seal a record, hand it to the kernel, and if it was written turn the key. */
  function SendTicket(g: Gcm, s: Sys, pid: bv32, id: Id, op: bv16, d: Draw): (r: (Sys, bool))
    requires Ideal(g) && Clocked(s.mon) && Fair(d)
    ensures Clocked(r.0.mon)
  {
    var e := Entry(pid, id, op);
    var s0 := Sealing(g, s, e, d);
    if !d.written then (s0, false)
    else
      TicketInBounds(g, s, e, d);
      ReadWithin(g, s.lsm.key, TicketFrame(g, s, e, d), []);
      var s1 := ReceiveUpdate(g, s0, TicketFrame(g, s, e, d), d.dt, d.mem, []);
      (TurnEnclave(s1, d.keyUpdate), true)
  }

  /** _generate_xattr_ticket for a registration or a declassification of the file at a path; the key
      turns only if the kernel signals that it accepted the label. */
  function SendLabel(g: Gcm, s: Sys, file: Option<nat>, declassify: bool, d: Draw): (r: (Sys, bool))
    requires Ideal(g) && Clocked(s.mon) && Fair(d)
    ensures Clocked(r.0.mon)
  {
    var e := Entry(0, d.id, if declassify then OP_DECLASSIFY else OP_REGISTER);
    var s0 := Sealing(g, s, e, d);
    if file == None || !Loaded(s.mon, file.value) then (s0, false)
    else
      TicketInBounds(g, s, e, d);
      var (s1, accepted) := ReceiveInstall(g, s0, file.value, TicketFrame(g, s, e, d), d.w);
      if accepted then (TurnEnclave(s1, d.keyUpdate), true) else (s1, false)
  }

  /** protect_socket: the daemon's own socket file gets the public identifier. */
  function ProtectSocket(g: Gcm, s: Sys, file: Option<nat>, d: Draw): (r: Sys)
    requires Ideal(g) && Clocked(s.mon) && Fair(d)
    ensures Clocked(r.mon)
  {
    SendLabel(g, s, file, false, d.(id := PUBLIC)).0
  }

  // ----- requests

  datatype Response = INVALID | FORGED | APPROVED | REJECTED | GRANTED | ERROR

  predicate Wants(op: bv16, bit: bv16) {
    Shares(op, bit)
  }

  function Without(op: bv16, bit: bv16): (r: bv16) {
    op & !bit
  }

  function Worse(ok: bool, result: Response): (r: Response) {
    if ok then result else ERROR
  }

  /** The identifier an open request is about when no new one is made for it. */
  function NamedId(req: Request): (id: Id)
    requires Sized(req)
  {
    if req.extended.Some? && req.extended.value.translate then req.extended.value.metadata[..ID_LENGTH] else req.subject
  }

  /** An open request for a path whose identifier is not known yet. */
  predicate Inducts(req: Request) {
    req.extended.Some? && req.extended.value.translate && !req.extended.value.success
  }

  /** The metadata of an extended request have their full length. */
  predicate Sized(req: Request) {
    req.extended.Some? ==> |req.extended.value.metadata| == METADATA
  }

  /** The records that an approved request is good for: OPEN on a claimed file for its new identifier, any
      other OPEN for the object named or the new identifier of a file that had none, and terminals,
      sockets and shared memory for the subject. */
  function Granted(a: Approval): (r: set<Record>)
    requires Sized(a.req)
  {
    var op := a.req.op;
    (if !Wants(op, OP_OPEN) then {}
     else if Wants(op, OP_CLAIM) then {Record(a.pid, a.claimed, OP_OPEN)}
     else {Record(a.pid, if Inducts(a.req) then a.inducted else NamedId(a.req), op)})
    + (if Wants(op, OP_PTY | OP_SOCKET) || Wants(op, OP_SHM) then {Record(a.pid, a.req.subject, op)} else {})
  }

  /** CLAIM: label the file, and with OPEN also grant access to it. */
  function ClaimStep(g: Gcm, s: Sys, pid: bv32, op: bv16, file: Option<nat>, label_: Draw, open: Draw): (r: (Sys, Response))
    requires Ideal(g) && Clocked(s.mon) && Fair(label_) && Fair(open)
    ensures Clocked(r.0.mon)
  {
    var (s1, ok) := SendLabel(g, s, file, false, label_);
    if ok && Wants(op, OP_OPEN) then
      var (s2, sent) := SendTicket(g, s1, pid, label_.id, OP_OPEN, open);
      (s2, Worse(sent, APPROVED))
    else (s1, Worse(ok, APPROVED))
  }

  /** OPEN: a ticket for the object named, after labelling it if it has no identifier yet. */
  function OpenStep(g: Gcm, s: Sys, pid: bv32, req: Request, file: Option<nat>, label_: Draw, open: Draw, result: Response)
    : (r: (Sys, Response))
    requires Ideal(g) && Clocked(s.mon) && Fair(label_) && Fair(open)
    requires Sized(req)
    ensures Clocked(r.0.mon)
  {
    var (s1, ok) := if Inducts(req) then SendLabel(g, s, file, false, label_) else (s, true);
    var id := if Inducts(req) then label_.id else NamedId(req);
    if Worse(ok, result) == ERROR then (s1, ERROR)
    else
      var (s2, sent) := SendTicket(g, s1, pid, id, req.op, open);
      (s2, Worse(sent, result))
  }

  /** A ticket for the subject of the request. */
  function SubjectStep(g: Gcm, s: Sys, pid: bv32, req: Request, d: Draw, result: Response): (r: (Sys, Response))
    requires Ideal(g) && Clocked(s.mon) && Fair(d)
    ensures Clocked(r.0.mon)
  {
    var (s1, sent) := SendTicket(g, s, pid, req.subject, req.op, d);
    (s1, Worse(sent, result))
  }

  function DeclassifyStep(g: Gcm, s: Sys, file: Option<nat>, d: Draw, result: Response): (r: (Sys, Response))
    requires Ideal(g) && Clocked(s.mon) && Fair(d)
    ensures Clocked(r.0.mon)
  {
    var (s1, ok) := SendLabel(g, s, file, true, d);
    (s1, Worse(ok, result))
  }

  /** The seven messages a request can cause draw independently. */
  type Draws = nat -> Draw

  ghost predicate AllFair(draws: Draws) {
    forall i :: Fair(draws(i))
  }

  /** What is left to do once the file has been claimed. */
  function Rest(op: bv16): (r: bv16) {
    if Wants(op, OP_CLAIM) then Without(op, OP_OPEN) else op
  }

  /** CLAIM and OPEN. */
  function FileStep(g: Gcm, s: Sys, pid: bv32, req: Request, file: Option<nat>, draws: Draws): (r: (Sys, Response))
    requires Ideal(g) && Clocked(s.mon) && Fair(draws(0)) && Fair(draws(1)) && Fair(draws(2)) && Fair(draws(3))
    requires Sized(req)
    ensures Clocked(r.0.mon)
  {
    var r1 := if Wants(req.op, OP_CLAIM) then ClaimStep(g, s, pid, req.op, file, draws(0), draws(1)) else (s, APPROVED);
    if Wants(Rest(req.op), OP_OPEN) then OpenStep(g, r1.0, pid, req, file, draws(2), draws(3), r1.1) else r1
  }

  /** core_handle_request, for an approved request. */
  ghost function Core(g: Gcm, s: Sys, pid: bv32, req: Request, file: Option<nat>, draws: Draws): (r: (Sys, Response))
    requires Ideal(g) && Clocked(s.mon) && AllFair(draws)
    requires Sized(req)
    ensures Clocked(r.0.mon)
  {
    var op, r2 := Rest(req.op), FileStep(g, s, pid, req, file, draws);
    var r3 := if Wants(op, OP_PTY | OP_SOCKET) then SubjectStep(g, r2.0, pid, req, draws(4), r2.1) else r2;
    var r4 := if Wants(op, OP_SHM) then SubjectStep(g, r3.0, pid, req, draws(5), r3.1) else r3;
    if Wants(op, OP_DECLASSIFY) then DeclassifyStep(g, r4.0, file, draws(6), r4.1) else r4
  }

  /** The process a sealed token speaks for, as the enclave reads it: aes_decrypt never fails, and
      what it makes of a frame that does not open has no signature. */
  function TokenPid(g: Gcm, key: Key, token: seq<bv8>): (r: Option<bv32>)
    requires Ideal(g) && |token| == SEALED_TOKEN
  {
    OpenOrZerosSize(g, key, token);
    match DecodeToken(OpenOrZeros(g, key, token))
    case None => None
    case Some(t) => Some(t.pid)
  }

  /** The request is well formed, its token speaks for the process at the other end, and the policy agrees. */
  predicate Approves(g: Gcm, s: Sys, pid: bv32, data: seq<bv8>, buffer: bool, policy: Response)
    requires Ideal(g)
  {
    && buffer && ParseRequest(data).Some? && policy == APPROVED
    && TokenPid(g, s.enclave.token, ParseRequest(data).value.token) == Some(pid)
  }

  /** handle_request: the checks in their order, then the policy's verdict, then the work. */
  ghost function Handle(g: Gcm, s: Sys, pid: bv32, data: seq<bv8>, buffer: bool, policy: Response, file: Option<nat>, draws: Draws)
    : (r: (Sys, Response))
    requires Ideal(g) && Clocked(s.mon) && AllFair(draws)
    ensures Clocked(r.0.mon)
  {
    if !buffer then (s, ERROR)
    else
      match ParseRequest(data)
      case None => (s, INVALID)
      case Some(req) =>
        match TokenPid(g, s.enclave.token, req.token)
        case None => (s, INVALID)
        case Some(p) =>
          if p != pid then (s, FORGED)
          else if policy != APPROVED then (s, policy)
          else Core(g, s, pid, req, file, draws)
  }
}
