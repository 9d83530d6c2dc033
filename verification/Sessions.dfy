/** Sessions: how the two ends come to hold the same keys, what keeps them in step, and exactly what
    does not. The kernel cannot tell a process token or its own update from a message of the enclave
    that was sealed with the same key. */
module Sessions {
  import opened Bytes
  import opened Options
  import opened Tickets
  import opened Labels
  import opened Frames
  import opened Wire
  import opened Lsm
  import opened Monitor
  import opened MonitorRuns
  import opened Citadel
  import opened Protocol
  import opened SystemRuns
  import opened SearchTree

  // ----- key agreement

  /** The frame was not sealed with the kernel's present message key. */
  ghost predicate Separate(s: Sys, frame: seq<bv8>) {
    forall m :: m in s.made && m.frame == frame ==> m.key != s.lsm.key
  }

  /** Nothing arrives out of place: an answer only when it is the last one and the enclave has sent
      nothing since, and no frame under the key it was sealed with. */
  ghost predicate InPlace(s: Sys, ev: SysEvent) {
    match ev
    case Delivered(answer) => s.answer == Some(answer) && s.enclave.key == answer.key
    case UpdateWritten(frame, _, _, _) => Separate(s, frame)
    case LabelSet(_, frame, _) => Separate(s, frame)
    case _ => true
  }

  ghost predicate Calm(g: Gcm, s: Sys, evs: seq<SysEvent>)
    requires Ideal(g) && Run(g, s, evs)
    decreases |evs|
  {
    evs == [] || (InPlace(s, evs[0]) && Calm(g, Step(g, s, evs[0]), evs[1..]))
  }

  /** A frame that does not open changes no ticket, no label and no key. */
  lemma ForgeryInert(g: Gcm, s: Sys, ev: SysEvent)
    requires Ideal(g) && Clocked(s.mon) && Possible(g, s, ev) && (ev.UpdateWritten? || ev.LabelSet?)
    requires Unseal(g, s.lsm.key, ev.frame) == None
    ensures var t := Step(g, s, ev);
      t == s.(accepted := t.accepted) && XorAll(t.session, t.accepted) == XorAll(s.session, s.accepted)
  {
    hide Ideal, Unforged;
    if ev.UpdateWritten? && LongEnough(ev.frame) && s.registered {
      InertUpdate(g, s.lsm.key, ev.frame);
      ReadWithin(g, s.lsm.key, ev.frame, ev.beyond);
      XorZero(XorAll(s.session, s.accepted));
      XorAllAppend(s.session, s.accepted, Zeros(16));
    }
  }

  ghost predicate AgreeInv(s: Sys) {
    && (s.registered && s.answer == None ==> Agree(s))
    && (s.answer.Some? ==> s.enclave.token == s.answer.value.key)
  }

  /** What the enclave does within a scope keeps agreement. */
  lemma ServedAgree(g: Gcm, s: Sys, t: Sys, u: Sys, scope: Scope)
    requires Served(g, s, t, scope) && u == t.(made := u.made, approvals := u.approvals)
    ensures AgreeInv(s) ==> AgreeInv(u)
    ensures Agree(s) ==> Agree(u)
  {
    hide Turned, Traced, OwnFrame, Allowed, XorAll;
  }

  lemma AskedAgree(g: Gcm, s: Sys, ev: SysEvent)
    requires Ideal(g) && Clocked(s.mon) && Possible(g, s, ev) && ev.Asked?
    ensures AgreeInv(s) ==> AgreeInv(Step(g, s, ev))
    ensures Agree(s) ==> Agree(Step(g, s, ev))
  {
    hide Ideal, Clocked, Handle, AllFair, ParseRequest, Approves, Granted, TokenUnforged, Served, AgreeInv, Agree;
    var h := Handle(g, s, ev.pid, ev.data, ev.buffer, ev.policy, ev.file, ev.draws).0;
    HandleServed(g, s, ev.pid, ev.data, ev.buffer, ev.policy, ev.file, ev.draws, false);
    if Approves(g, s, ev.pid, ev.data, ev.buffer, ev.policy) {
      ApprovedParses(g, s, ev);
      ServedAgree(g, s, h, Step(g, s, ev), ScopeOf(ev.pid, ParseRequest(ev.data).value, ev.file, ev.draws, false));
    } else {
      assert Step(g, s, ev) == s;
    }
  }

  lemma SocketAgree(g: Gcm, s: Sys, file: Option<nat>, d: Draw)
    requires Ideal(g) && Clocked(s.mon) && Fair(d)
    ensures var t := Secretly(s, ProtectSocket(g, s, file, d)); (AgreeInv(s) ==> AgreeInv(t)) && (Agree(s) ==> Agree(t))
  {
    hide Ideal, Clocked, SendLabel, Served, AgreeInv, Agree;
    var h, scope := ProtectSocket(g, s, file, d), Scope({}, file, false);
    LabelServed(g, s, file, false, d.(id := PUBLIC), scope);
    ServedAgree(g, s, h, Secretly(s, h), scope);
  }

  lemma StepAgree(g: Gcm, s: Sys, ev: SysEvent)
    requires Ideal(g) && Clocked(s.mon) && AgreeInv(s) && Possible(g, s, ev) && InPlace(s, ev)
    ensures AgreeInv(Step(g, s, ev))
  {
    hide Ideal, Clocked, Asking, ProtectSocket, ReceiveUpdate, ReceiveInstall, Next, EncodeToken, KernelUpdate;
    if ev.Asked? {
      AskedAgree(g, s, ev);
    } else if ev.SocketProtected? {
      SocketAgree(g, s, ev.file, ev.d);
    } else if ev.UpdateWritten? || ev.LabelSet? {
      if s.registered {
        assert Unseal(g, s.lsm.key, ev.frame) == None;
        ForgeryInert(g, s, ev);
      } else {
        UnregisteredInert(g, s, ev);
      }
    }
  }

  lemma UnregisteredInert(g: Gcm, s: Sys, ev: SysEvent)
    requires Ideal(g) && Clocked(s.mon) && Possible(g, s, ev) && (ev.UpdateWritten? || ev.LabelSet?) && !s.registered
    ensures Step(g, s, ev) == s
  {
  }

  lemma {:induction false} RunAgree(g: Gcm, s: Sys, evs: seq<SysEvent>)
    requires Ideal(g) && AgreeInv(s) && Run(g, s, evs) && Calm(g, s, evs)
    ensures AgreeInv(Final(g, s, evs))
    decreases |evs|
  {
    hide Step, Possible, Ideal, Clocked, AgreeInv, InPlace;
    if evs != [] {
      StepAgree(g, s, evs[0]);
      RunAgree(g, Step(g, s, evs[0]), evs[1..]);
    }
  }

  /** Key agreement: in every run in which nothing arrives out of place, whenever no answer is on its
      way both ends hold the same keys: the handshake key, unchanged, for tokens, and for messages the
      handshake key combined with every update the kernel has accepted since. */
  lemma KeyAgreement(g: Gcm, s: Sys, evs: seq<SysEvent>)
    requires Ideal(g) && Boot(s) && Run(g, s, evs) && Calm(g, s, evs)
    ensures var t := Final(g, s, evs);
      t.registered && t.answer == None ==>
        && t.enclave.token == t.lsm.token == t.session
        && t.enclave.key == t.lsm.key == XorAll(t.session, t.accepted)
  {
    hide Run, Calm, Final, Ideal, XorAll;
    RunAgree(g, s, evs);
  }

  /** Without any condition on what arrives: the two message keys are equal exactly when the updates of
      both ends since their handshakes come to the same. */
  lemma KeysExact(g: Gcm, s: Sys, evs: seq<SysEvent>)
    requires Ideal(g) && Boot(s) && Run(g, s, evs)
    ensures var t := Final(g, s, evs);
      && (t.registered ==>
        (t.enclave.key == t.lsm.key <==> XorAll(t.enclave.token, t.sent) == XorAll(t.lsm.token, t.accepted)))
      && (t.registered && t.enclave.token == t.lsm.token ==>
        (t.enclave.key == t.lsm.key <==> XorAll(Zeros(16), t.sent) == XorAll(Zeros(16), t.accepted)))
  {
    hide Run, Final, Ideal, XorAll, Sealed, Stored, Traced, Initial, Xor, Early;
    BootInv(g, s);
    RunInv(g, s, evs);
    var t := Final(g, s, evs);
    XorAllSplit(t.enclave.token, t.sent);
    XorAllSplit(t.lsm.token, t.accepted);
    XorInjective(t.enclave.token, XorAll(Zeros(16), t.sent), XorAll(Zeros(16), t.accepted));
  }

  lemma XorInjective(a: Key, b: Key, c: Key)
    ensures Xor(a, b) == Xor(a, c) <==> b == c
  {
    if Xor(a, b) == Xor(a, c) {
      XorAssoc(a, a, b);
      XorAssoc(a, a, c);
      XorSelf(a);
      XorZeroLeft(b);
      XorZeroLeft(c);
    }
  }

  lemma XorSelf(a: Key)
    ensures Xor(a, a) == Zeros(16)
  {
  }

  lemma XorZeroLeft(a: Key)
    ensures Xor(Zeros(16), a) == a
  {
  }

  // ----- exactly which steps keep agreement

  /** The kernel takes the answer. */
  predicate Taken(s: Sys, a: Challenge) {
    a.signature == SIGNATURE && a.challenge == s.challenge
  }

  /** The kernel accepts the label. */
  predicate Accepts(g: Gcm, s: Sys, target: nat, frame: seq<bv8>, w: Writes)
    requires Ideal(g) && Loaded(s.mon, target)
  {
    && s.registered && InstallEntry(g, s.lsm.key, frame).Some?
    && if Declassifies(InstallEntry(g, s.lsm.key, frame).value.op)
       then !s.mon.files[target].mem.value.inRealm || w.remove else w.id
  }

  /** The step brings no key out of step: an answer is taken while the enclave's keys are still its own, and
      a frame that the kernel acts upon carries a key update of zero. */
  ghost predicate Harmless(g: Gcm, s: Sys, ev: SysEvent)
    requires Ideal(g) && Clocked(s.mon) && Possible(g, s, ev)
  {
    match ev
    case Answered(_, key, _) => s.lsm == Keys(key, key)
    case Delivered(a) => Taken(s, a) ==> s.enclave == Keys(a.key, a.key)
    case UpdateWritten(frame, _, _, _) => LongEnough(frame) ==> UpdateKey(g, s.lsm.key, frame) == Zeros(16)
    case LabelSet(target, frame, w) =>
      Accepts(g, s, target, frame, w) ==> UpdateKey(g, s.lsm.key, frame) == Zeros(16)
    case _ => true
  }

  /** One end alone turns its key: the ends stay together exactly when the value is zero. */
  lemma TurnAlone(s: Sys, t: Sys, u: Key)
    requires Agree(s) && t.registered && t.session == s.session && t.enclave == s.enclave
    requires t.lsm == s.lsm.(key := Xor(s.lsm.key, u)) && t.accepted == s.accepted + [u]
    ensures Agree(t) <==> u == Zeros(16)
  {
    hide Xor, XorAll;
    XorAllAppend(s.session, s.accepted, u);
    XorCancel(s.lsm.key, u);
  }

  lemma InstallTurns(g: Gcm, s: Sys, target: nat, frame: seq<bv8>, w: Writes)
    requires Ideal(g) && Clocked(s.mon) && Agree(s) && Loaded(s.mon, target)
    ensures Accepts(g, s, target, frame, w) ==> LongEnough(frame)
    ensures Agree(ReceiveInstall(g, s, target, frame, w).0) <==>
      (Accepts(g, s, target, frame, w) ==> UpdateKey(g, s.lsm.key, frame) == Zeros(16))
  {
    hide Ideal, Clocked, UpdateKey, EntryAt, HexOf, Next, XorAll, Xor;
    var (t, accepted) := ReceiveInstall(g, s, target, frame, w);
    assert accepted <==> Accepts(g, s, target, frame, w);
    if accepted {
      TurnAlone(s, t, UpdateKey(g, s.lsm.key, frame));
    }
  }

  /** From agreement, a step leads to agreement exactly when it is harmless. */
  lemma StepAgreesExact(g: Gcm, s: Sys, ev: SysEvent)
    requires Ideal(g) && Clocked(s.mon) && Agree(s) && Possible(g, s, ev)
    ensures Agree(Step(g, s, ev)) <==> Harmless(g, s, ev)
  {
    hide Ideal, Clocked, Asking, ProtectSocket, ReceiveInstall, Next, EncodeToken, KernelUpdate, Store, EntriesRead, UpdateKey,
      InBounds, Reaches, Unforged, XorAll, Xor, Accepts;
    var t := Step(g, s, ev);
    match ev
    case Asked(_, _, _, _, _, _) => AskedAgree(g, s, ev);
    case SocketProtected(file, d) => SocketAgree(g, s, file, d);
    case UpdateWritten(frame, _, _, _) =>
      if LongEnough(frame) {
        TurnAlone(s, t, UpdateKey(g, s.lsm.key, frame));
      }
    case LabelSet(target, frame, w) => InstallTurns(g, s, target, frame, w);
    case Delivered(a) =>
      if Taken(s, a) {
        TakenAgree(s, a);
      }
    case _ =>
  }

  lemma TakenAgree(s: Sys, a: Challenge)
    requires Taken(s, a)
    ensures Agree(Deliver(s, a)) <==> s.enclave == Keys(a.key, a.key)
  {
  }

  // ----- handshakes

  /** From any state an undisturbed handshake is possible and ends in agreement on the new key. */
  lemma HandshakeCompletes(g: Gcm, s: Sys, challenge: seq<bv8>, key: Key, pid: bv32)
    requires Ideal(g) && Clocked(s.mon)
    ensures
      var evs := [Challenged(challenge), Answered(challenge, key, pid), Delivered(Answer(challenge, key, pid))];
      && Run(g, s, evs)
      && var t := Final(g, s, evs);
        && Agree(t) && t.answer == None && t.session == key && t.accepted == []
        && t.mon == s.mon.(daemon := Signed(pid))
  {
    hide Ideal, Clocked, Signed, XorAll;
    XorAllNone(key);
    var e1, e2, e3 := Challenged(challenge), Answered(challenge, key, pid), Delivered(Answer(challenge, key, pid));
    var evs := [e1, e2, e3];
    var s1 := Step(g, s, e1);
    var s2 := Step(g, s1, e2);
    var s3 := Step(g, s2, e3);
    assert evs[1..] == [e2, e3] && [e2, e3][1..] == [e3] && [e3][1..] == [];
    assert Run(g, s3, []) && Final(g, s3, []) == s3;
    assert Run(g, s2, [e3]) && Final(g, s2, [e3]) == s3;
    assert Run(g, s1, [e2, e3]) && Final(g, s1, [e2, e3]) == s3;
  }

  lemma XorAllNone(key: Key)
    ensures XorAll(key, []) == key
  {
  }

  /** The kernel takes an answer to its current challenge at any time and any number of times. Taking
      the enclave's last answer late or again brings the ends together exactly when the updates the
      enclave has made since it answered cancel out. */
  lemma LateAnswer(s: Sys, a: Challenge)
    requires Turned(s) && Taken(s, a) && s.enclave.token == a.key
    ensures Agree(Deliver(s, a)) <==> XorAll(Zeros(16), s.sent) == Zeros(16)
  {
    hide XorAll, Xor;
    TakenAgree(s, a);
    XorAllSplit(a.key, s.sent);
    XorCancel(a.key, XorAll(Zeros(16), s.sent));
  }

  /** One accepted update is enough: a replayed answer then takes the kernel back to the old key. */
  lemma ReplayDisagrees(s: Sys, a: Challenge, u: Key)
    requires Turned(s) && Taken(s, a) && s.enclave.token == a.key && s.sent == [u] && u != Zeros(16)
    ensures !Agree(Deliver(s, a))
  {
    LateAnswer(s, a);
    XorAllAppend(Zeros(16), [], u);
    assert [] + [u] == [u];
    XorZeroLeft(u);
  }

  // ----- frames that open out of place

  /** A frame from the history opens under exactly the key it was sealed with. */
  lemma HonestOpens(g: Gcm, m: Made, key: Key)
    requires Ideal(g) && Honest(g, m)
    ensures LongEnough(m.frame) && (Unseal(g, key, m.frame).Some? <==> key == m.key)
  {
    hide Unseal, EncodeUpdate, EncodeToken, KernelUpdate;
    match m
    case Sent(frame, k, e) =>
      var iv: Iv, keyUpdate: Key, pad: bv16 :| frame == Seal(g, k, iv, EncodeUpdate(keyUpdate, e, pad));
      OpenSealed(g, k, key, iv, EncodeUpdate(keyUpdate, e, pad));
    case Issued(frame, k, pid) =>
      var iv: Iv, nonce: seq<bv8>, id: Id :| |nonce| == 8 && frame == Seal(g, k, iv, EncodeToken(Token(pid, nonce, id)));
      OpenSealed(g, k, key, iv, EncodeToken(Token(pid, nonce, id)));
    case Dumped(frame, k) =>
      var iv: Iv :| frame == Seal(g, k, iv, KernelUpdate());
      OpenSealed(g, k, key, iv, KernelUpdate());
  }

  /** So a frame sealed earlier in the session, after the updates `us`, opens exactly when the updates
      the kernel has made since then come to the same. With `us` empty this is every process token. */
  lemma SessionOpensExact(g: Gcm, s: Sys, m: Made, us: seq<Key>)
    requires Ideal(g) && Honest(g, m) && s.registered && Turned(s) && m.key == XorAll(s.session, us)
    ensures Unseal(g, s.lsm.key, m.frame).Some? <==> XorAll(Zeros(16), us) == XorAll(Zeros(16), s.accepted)
  {
    hide Honest, Unseal, XorAll, Xor, Ideal;
    HonestOpens(g, m, s.lsm.key);
    XorAllSplit(s.session, us);
    XorAllSplit(s.session, s.accepted);
    XorInjective(s.session, XorAll(Zeros(16), us), XorAll(Zeros(16), s.accepted));
  }

  /** A label never makes the kernel read past its buffer. */
  lemma LabelsInBounds(g: Gcm, s: Sys, frame: seq<bv8>)
    requires Ideal(g) && Truthful(g, s.made) && Unforged(g, s, s.lsm.key, frame)
    ensures RecordInBounds(g, s.lsm.key, frame)
  {
    hide EncodeUpdate, EncodeToken, KernelUpdate, EntryAt;
    if LongEnough(frame) {
      if Unseal(g, s.lsm.key, frame) == None {
        ZeroUpdate(|frame|);
      } else {
        var m :| m in s.made && m.frame == frame && m.key == s.lsm.key;
        assert Honest(g, m);
        match m
        case Sent(_, key, e) =>
          var iv: Iv, keyUpdate: Key, pad: bv16 :| frame == Seal(g, key, iv, EncodeUpdate(keyUpdate, e, pad));
          OpenSealed(g, key, key, iv, EncodeUpdate(keyUpdate, e, pad));
        case Issued(_, key, pid) =>
          var iv: Iv, nonce: seq<bv8>, id: Id :| |nonce| == 8 && frame == Seal(g, key, iv, EncodeToken(Token(pid, nonce, id)));
          SealedToken(g, key, iv, Token(pid, nonce, id));
        case Dumped(_, key) =>
          var iv: Iv :| frame == Seal(g, key, iv, KernelUpdate());
          SealedKernelUpdate(g, key, iv);
      }
    }
  }

  /** Of all updates that open, only process tokens can announce more records than their buffer holds,
      and exactly those whose fifth identifier byte is more than one. */
  lemma UpdatesInBounds(g: Gcm, m: Made)
    requires Ideal(g) && Honest(g, m)
    ensures !m.Issued? ==> InBounds(g, m.key, m.frame)
    ensures m.Issued? ==>
      exists iv: Iv, nonce: seq<bv8>, id: Id :: |nonce| == 8
        && m.frame == Seal(g, m.key, iv, EncodeToken(Token(m.pid, nonce, id)))
        && (InBounds(g, m.key, m.frame) <==> id[4] == 0 || id[4] == 1)
  {
    hide EncodeUpdate, EncodeToken, KernelUpdate, InBounds;
    match m
    case Sent(frame, key, e) =>
      var iv: Iv, keyUpdate: Key, pad: bv16 :| frame == Seal(g, key, iv, EncodeUpdate(keyUpdate, e, pad));
      SealedUpdate(g, key, iv, keyUpdate, e, pad);
    case Issued(frame, key, pid) =>
      var iv: Iv, nonce: seq<bv8>, id: Id :| |nonce| == 8 && frame == Seal(g, key, iv, EncodeToken(Token(pid, nonce, id)));
      SealedToken(g, key, iv, Token(pid, nonce, id));
    case Dumped(frame, key) =>
      var iv: Iv :| frame == Seal(g, key, iv, KernelUpdate());
      SealedKernelUpdate(g, key, iv);
  }

  /** A token that the kernel issues is sealed with the handshake key. */
  lemma TokenIssued(g: Gcm, s: Sys, t: Token, iv: Iv)
    requires Ideal(g) && |t.nonce| == 8 && s.registered
    ensures
      var s1 := IssueToken(g, s, t.pid, t.nonce, iv, t.id);
      var frame := Seal(g, s.lsm.token, iv, EncodeToken(t));
      && s1 == s.(made := s.made + {Issued(frame, s.lsm.token, t.pid)})
      && Honest(g, Issued(frame, s.lsm.token, t.pid))
      && (forall key :: Unforged(g, s1, key, frame))
  {
    hide EncodeToken;
    var frame := Seal(g, s.lsm.token, iv, EncodeToken(t));
    var s1 := IssueToken(g, s, t.pid, t.nonce, iv, t.id);
    var m := Issued(frame, s.lsm.token, t.pid);
    assert t == Token(t.pid, t.nonce, t.id);
    assert IsToken(g, frame, s.lsm.token, t.pid);
    forall key
      ensures Unforged(g, s1, key, frame)
    {
      HonestOpens(g, m, key);
      assert m in s1.made;
    }
  }

  /** A process that writes its own token to the update file, at a moment when the session's updates
      cancel out, turns the kernel's key alone: afterwards the ends disagree, unless the token begins
      with zeros. */
  lemma TokenTurnsKey(g: Gcm, s: Sys, t: Token, iv: Iv, dt: nat, mem: Memory, beyond: seq<bv8>)
    requires Ideal(g) && Clocked(s.mon) && Agree(s) && |t.nonce| == 8 && dt > 0
    requires XorAll(Zeros(16), s.accepted) == Zeros(16)
    requires Reaches(g, s.lsm.key, Seal(g, s.lsm.token, iv, EncodeToken(t)), beyond)
    ensures
      var s1 := IssueToken(g, s, t.pid, t.nonce, iv, t.id);
      var ev := UpdateWritten(Seal(g, s.lsm.token, iv, EncodeToken(t)), dt, mem, beyond);
      && Possible(g, s1, ev)
      && (Agree(Step(g, s1, ev)) <==> t.pid == 0 && t.nonce == Zeros(8) && t.id[..4] == Zeros(4))
  {
    hide EncodeToken, Ideal, Clocked, Honest, IssueToken, XorAll, Step, Unforged, TokenKey, InBounds, UpdateKey, Reaches;
    var s1 := IssueToken(g, s, t.pid, t.nonce, iv, t.id);
    var frame := Seal(g, s.lsm.token, iv, EncodeToken(t));
    Cancelled(s);
    TokenIssued(g, s, t, iv);
    SealedToken(g, s.lsm.token, iv, t);
    TokenKeyZero(t);
    StepAgreesExact(g, s1, UpdateWritten(frame, dt, mem, beyond));
  }

  lemma Cancelled(s: Sys)
    requires Agree(s) && XorAll(Zeros(16), s.accepted) == Zeros(16)
    ensures s.registered && s.lsm.key == s.lsm.token
  {
    hide XorAll, Xor;
    XorAllSplit(s.session, s.accepted);
    XorZero(s.session);
  }

  /** ... and it stores a record without an operation for the process ID that four identifier bytes happen
      to spell, negative ones included, which then is in the tree. */
  lemma TokenStoresId(g: Gcm, s: Sys, t: Token, iv: Iv, dt: nat, mem: Memory)
    requires Ideal(g) && Clocked(s.mon) && Agree(s) && |t.nonce| == 8 && dt > 0 && mem.node
    requires XorAll(Zeros(16), s.accepted) == Zeros(16) && t.id[4] == 1
    ensures
      var s1 := IssueToken(g, s, t.pid, t.nonce, iv, t.id);
      var ev := UpdateWritten(Seal(g, s.lsm.token, iv, EncodeToken(t)), dt, mem, []);
      Possible(g, s1, ev) && TreeKeys(Step(g, s1, ev).mon) == TreeKeys(s.mon) + {Signed(FromLe32(t.id[5..9]))}
  {
    hide EncodeToken, Ideal, Clocked, Honest, IssueToken, XorAll, Unforged, InBounds, UpdateKey, UpdateEntries, EntriesRead, Store,
      Reaches, FromLe32;
    var s1 := IssueToken(g, s, t.pid, t.nonce, iv, t.id);
    var frame := Seal(g, s.lsm.token, iv, EncodeToken(t));
    Cancelled(s);
    TokenIssued(g, s, t, iv);
    SealedToken(g, s.lsm.token, iv, t);
    ReadWithin(g, s.lsm.token, frame, []);
    StoreKeys(s1, TokenEntry(t), dt, mem);
  }

  lemma StoreKeys(s: Sys, e: Entry, dt: nat, mem: Memory)
    requires Clocked(s.mon) && dt > 0 && mem.node
    ensures TreeKeys(Store(s, [e], dt, mem).mon) == TreeKeys(s.mon) + {Signed(e.pid)}
  {
    hide Store;
    StoreTwoSteps(s, e, dt, mem);
  }

  /** If that ID cannot be ordered with those in the tree, from then on the tree may lose any reservation. */
  lemma TokenLosesTickets(g: Gcm, s: Sys, t: Token, iv: Iv, dt: nat, mem: Memory, pid: Int32)
    requires Ideal(g) && Clocked(s.mon) && Agree(s) && |t.nonce| == 8 && dt > 0 && mem.node
    requires XorAll(Zeros(16), s.accepted) == Zeros(16) && t.id[4] == 1
    requires pid in s.mon.pending && !Orderable(TreeKeys(s.mon) + {Signed(FromLe32(t.id[5..9]))})
    ensures
      var s1 := IssueToken(g, s, t.pid, t.nonce, iv, t.id);
      var ev := UpdateWritten(Seal(g, s.lsm.token, iv, EncodeToken(t)), dt, mem, []);
      Possible(g, s1, ev) && Possible(g, Step(g, s1, ev), Local(Hide(pid)))
  {
    hide EncodeToken, Ideal, Clocked, Honest, IssueToken, XorAll, Unforged, InBounds, UpdateKey, UpdateEntries, EntriesRead, Store,
      Reaches, FromLe32, Orderable;
    var s1 := IssueToken(g, s, t.pid, t.nonce, iv, t.id);
    var frame := Seal(g, s.lsm.token, iv, EncodeToken(t));
    TokenStoresId(g, s, t, iv, dt, mem);
    Cancelled(s);
    TokenIssued(g, s, t, iv);
    SealedToken(g, s.lsm.token, iv, t);
    ReadWithin(g, s.lsm.token, frame, []);
    StoreKeepsPending(s1, TokenEntry(t), dt, mem, pid);
  }

  lemma StoreKeepsPending(s: Sys, e: Entry, dt: nat, mem: Memory, pid: Int32)
    requires Clocked(s.mon) && dt > 0 && pid in s.mon.pending
    ensures pid in Store(s, [e], dt, mem).mon.pending
  {
    hide Store;
    StoreTwoSteps(s, e, dt, mem);
  }

  /** A token that announces three records makes the kernel store whatever record lies behind its buffer,
      for any process, object and operation. */
  lemma OverrunStores(g: Gcm, s: Sys, t: Token, iv: Iv, dt: nat, mem: Memory, e: Entry)
    requires Ideal(g) && Clocked(s.mon) && Agree(s) && |t.nonce| == 8 && dt > 0
    requires XorAll(Zeros(16), s.accepted) == Zeros(16) && t.id[4] == 3
    ensures
      var s1 := IssueToken(g, s, t.pid, t.nonce, iv, t.id);
      var ev := UpdateWritten(Seal(g, s.lsm.token, iv, EncodeToken(t)), dt, mem, Zeros(9) + EncodeRecord(e));
      && Possible(g, s1, ev)
      && var u := Step(g, s1, ev);
      u.overrun && u.trace != [] && u.trace[|u.trace| - 1] == Insert(RecordOf(e), mem)
  {
    hide EncodeToken, EncodeRecord, Ideal, Clocked, Honest, IssueToken, XorAll, Unforged, UpdateKey, EntriesFrom, Store, Fits;
    var s1 := IssueToken(g, s, t.pid, t.nonce, iv, t.id);
    var frame := Seal(g, s.lsm.token, iv, EncodeToken(t));
    var beyond := Zeros(9) + EncodeRecord(e);
    Cancelled(s);
    TokenIssued(g, s, t, iv);
    OpenSealed(g, s.lsm.token, s.lsm.token, iv, EncodeToken(t));
    TokenOverrun(t, e);
    var es := EntriesRead(g, s.lsm.key, frame, beyond);
    assert es == es[..2] + [e];
    StoreSplit(s1, es[..2], e, dt, mem);
  }

  /** A process that sets its own token as the install attribute of a file takes the file out of realm
      in memory, and gives it another identifier, while the disk says as before whether it is in
      realm. */
  lemma TokenUnlabels(g: Gcm, s: Sys, t: Token, iv: Iv, target: nat, w: Writes)
    requires Ideal(g) && Clocked(s.mon) && Agree(s) && |t.nonce| == 8 && Loaded(s.mon, target)
    requires XorAll(Zeros(16), s.accepted) == Zeros(16) && t.id[4] == 1 && w.id
    ensures
      var s1 := IssueToken(g, s, t.pid, t.nonce, iv, t.id);
      var ev := LabelSet(target, Seal(g, s.lsm.token, iv, EncodeToken(t)), w);
      && Possible(g, s1, ev)
      && target in Step(g, s1, ev).mon.files
      && var f := Step(g, s1, ev).mon.files[target];
      && f.mem.Some? && !f.mem.value.inRealm && f.disk.inRealm == s.mon.files[target].disk.inRealm
      && ReadId(f.disk.id) == Some(TokenEntry(t).id)
  {
    hide EncodeToken, Ideal, Clocked, Honest, IssueToken, XorAll, Unforged, InBounds, UpdateKey, InstallEntry, HexOf, ReadId;
    XorAllSplit(s.session, s.accepted);
    XorZero(s.session);
    TokenIssued(g, s, t, iv);
    SealedToken(g, s.lsm.token, iv, t);
    ReadBack(TokenEntry(t).id);
    assert !Declassifies(0) && !Registers(0);
  }

  /** Anybody who reads the update file and writes back what it gave turns the kernel's key alone, at any
      moment of any session. */
  lemma DumpTurnsKey(g: Gcm, s: Sys, iv: Iv, dt: nat, mem: Memory)
    requires Ideal(g) && Clocked(s.mon) && Agree(s) && dt > 0
    ensures
      var s1 := Dump(g, s, iv);
      var ev := UpdateWritten(Seal(g, s.lsm.key, iv, KernelUpdate()), dt, mem, []);
      Possible(g, s1, ev) && !Agree(Step(g, s1, ev))
  {
    hide KernelUpdate, Ideal, Clocked, Step, InBounds, UpdateKey, XorAll, Reaches;
    var s1 := Dump(g, s, iv);
    var frame := Seal(g, s.lsm.key, iv, KernelUpdate());
    assert Dumped(frame, s.lsm.key) in s1.made;
    SealedKernelUpdate(g, s.lsm.key, iv);
    ReadWithin(g, s.lsm.key, frame, []);
    KernelKeyNotZero();
    StepAgreesExact(g, s1, UpdateWritten(frame, dt, mem, []));
  }

  lemma AgreeRegistered(s: Sys)
    requires Agree(s)
    ensures s.registered
  {
  }

  lemma StoreLog(s: Sys, e: Entry, dt: nat, mem: Memory)
    requires Clocked(s.mon) && dt > 0 && mem.node && mem.ticket && !OnlyPty(e.op)
    ensures Store(s, [e], dt, mem).mon.log == s.mon.log + [Grant(Signed(e.pid), Ticket(e.id, e.op, s.mon.now + dt))]
  {
    hide Store, OnlyPty;
    StoreTwoSteps(s, e, dt, mem);
  }

  lemma UpdateAgrees(g: Gcm, s: Sys, frame: seq<bv8>, dt: nat, mem: Memory)
    requires Ideal(g) && Clocked(s.mon) && Agree(s) && Possible(g, s, UpdateWritten(frame, dt, mem, [])) && LongEnough(frame)
    ensures Agree(Step(g, s, UpdateWritten(frame, dt, mem, []))) <==> UpdateKey(g, s.lsm.key, frame) == Zeros(16)
  {
    hide Step, Possible, Agree, UpdateKey;
    StepAgreesExact(g, s, UpdateWritten(frame, dt, mem, []));
  }

  /** An enclave frame that opens again stores its record again, with a new stamp, and turns the kernel's
      key alone. */
  lemma ReplayStores(g: Gcm, s: Sys, m: Made, dt: nat, mem: Memory)
    requires Ideal(g) && Clocked(s.mon) && Agree(s) && Honest(g, m) && m.Sent? && m in s.made && m.key == s.lsm.key
    requires dt > 0 && mem.node && mem.ticket && !OnlyPty(m.e.op)
    ensures
      var ev := UpdateWritten(m.frame, dt, mem, []);
      && Possible(g, s, ev)
      && Step(g, s, ev).mon.log ==
          s.mon.log + [Grant(Signed(m.e.pid), Ticket(m.e.id, m.e.op, s.mon.now + dt))]
      && (Agree(Step(g, s, ev)) <==> UpdateKey(g, s.lsm.key, m.frame) == Zeros(16))
  {
    hide EncodeUpdate, Ideal, InBounds, UpdateKey, UpdateEntries, EntriesRead, Reaches, XorAll, Store, Clocked, Agree, Harmless;
    var iv: Iv, keyUpdate: Key, pad: bv16 :| m.frame == Seal(g, m.key, iv, EncodeUpdate(keyUpdate, m.e, pad));
    SealedUpdate(g, m.key, iv, keyUpdate, m.e, pad);
    ReadWithin(g, m.key, m.frame, []);
    assert m in s.made && m.frame == m.frame;
    AgreeRegistered(s);
    StoreLog(s, m.e, dt, mem);
    UpdateAgrees(g, s, m.frame, dt, mem);
  }
}
