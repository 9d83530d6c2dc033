/** Realm labels. An inode's label is a cache of two extended attributes on disk; the label is
    loaded lazily, and writing an attribute re-enters the code that writes it. */
module Labels {
  import opened Bytes
  import opened Tickets
  import opened Options

  /** File systems the access decision tells apart. */
  datatype Fs = Ordinary | PipeFs | SockFs | SysFs | SecurityFs | TmpFs | DevPts

  /** The kernel's citadel_inode_data. */
  datatype Label = Label(inRealm: bool, needsUpdate: bool, checked: bool, isSocket: bool, anonymous: bool, id: Id)

  /** The two attributes: whether in_realm is set, and the stored identifier string if there is one. */
  datatype Xattrs = Xattrs(inRealm: bool, id: Option<seq<bv8>>)

  /** Which attribute operations the file system carries out. */
  datatype Writes = Writes(realm: bool, id: bool, remove: bool)

  const NO_ATTRIBUTES: Xattrs := Xattrs(false, None)
  const FRESH: Label := Label(false, false, false, false, true, Zeros(ID_LENGTH))

  // ----- reading the identifier attribute

  /** The C string at the start of a buffer. */
  function CString(s: seq<bv8>): (r: seq<bv8>)
    ensures |r| <= |s| && r == s[..|r|]
    ensures forall i :: 0 <= i < |r| ==> r[i] != 0
    ensures |r| < |s| ==> s[|r|] == 0
  {
    if s == [] || s[0] == 0 then [] else [s[0]] + CString(s[1..])
  }

  /** get_xattr_identifier: at most thirty-three bytes are read, into a zeroed buffer. A string that
      does not encode a whole identifier yields none; the kernel writes no such string. */
  function ReadId(raw: Option<seq<bv8>>): (r: Option<Id>) {
    if raw == None || raw.value == [] || |raw.value| > 2 * ID_LENGTH + 1 then None
    else
      var s := CString(raw.value);
      if |s| != 2 * ID_LENGTH then None else Some(BytesOf(s))
  }

  lemma {:induction false} CStringOf(s: seq<bv8>, tail: seq<bv8>)
    requires forall i :: 0 <= i < |s| ==> s[i] != 0
    requires tail == [] || tail[0] == 0
    ensures CString(s + tail) == s
  {
    if s == [] {
      assert s + tail == tail;
    } else {
      assert (s + tail)[1..] == s[1..] + tail;
      CStringOf(s[1..], tail);
    }
  }

  /** Both ways of storing an identifier, with and without the final NUL, read back as it. */
  lemma ReadBack(id: Id)
    ensures ReadId(Some(HexOf(id))) == Some(id)
    ensures ReadId(Some(HexOf(id) + [0])) == Some(id)
  {
    HexRoundTrip(id);
    CStringOf(HexOf(id), []);
    assert HexOf(id) + [] == HexOf(id);
    CStringOf(HexOf(id), [0]);
  }

  // ----- housekeeping, as a function

  /** Loading: the first look at a label reads the attributes. */
  function Load(l: Label, d: Xattrs): (r: Label) {
    if l.checked || l.isSocket then l
    else if !d.inRealm then l.(checked := true)
    else
      var named := l.(checked := true, inRealm := true);
      match ReadId(d.id)
      case None => named
      case Some(id) => named.(id := id, anonymous := false)
  }

  predicate MustFlush(l: Label) {
    l.inRealm && l.needsUpdate && !l.isSocket
  }

  /** Flushing: a label given in memory goes to disk. */
  function Flushed(l: Label, d: Xattrs, w: Writes): (r: Xattrs) {
    if !MustFlush(l) then d
    else
      Xattrs(d.inRealm || w.realm, if !l.anonymous && w.id then Some(HexOf(l.id) + [0]) else d.id)
  }

  function Settled(l: Label): (r: Label) {
    if MustFlush(l) then l.(needsUpdate := false) else l
  }

  /** dentry_housekeeping, without the re-entrant calls. */
  function Housekeep(l: Label, d: Xattrs, w: Writes): (r: (Label, Xattrs)) {
    var loaded := Load(l, d);
    (Settled(loaded), Flushed(loaded, d, w))
  }

  /** inode_housekeeping: an unnamed pipe takes the identifier of the first tainted process that
      touches it. */
  function PipeTag(fs: Fs, ino: nat, l: Label, taskInRealm: bool, taskId: Id): (r: Label) {
    if ino >= 2 && fs == PipeFs && l.anonymous && taskInRealm
    then l.(id := taskId, anonymous := false, checked := true, needsUpdate := false)
    else l
  }

  // ----- labels the enclave installs

  predicate Declassifies(op: bv16) {
    Shares(op, OP_DECLASSIFY)
  }

  predicate Registers(op: bv16) {
    Shares(op, OP_REGISTER)
  }

  /** The label, the attributes and the verdict after an authentic installation record. */
  function Install(l: Label, d: Xattrs, op: bv16, id: Id, w: Writes): (r: (Label, Xattrs, bool)) {
    var open := l.(needsUpdate := false, checked := true);
    if Declassifies(op) then
      if !l.inRealm then (l, d, true)
      else if w.remove then (open.(inRealm := false), d.(inRealm := false), true)
      else (open.(checked := false), d, false)
    else
      var named := if w.id then d.(id := Some(HexOf(id))) else d;
      var marked := if Registers(op) && w.realm then named.(inRealm := true) else named;
      if w.id then (open.(inRealm := Registers(op), id := id, anonymous := false), marked, true)
      else (open.(checked := false), marked, false)
  }

  /** The same for an inode that may be a pipe: a refused registration whose in_realm write succeeds
      leaves the pipe tagged with the identifier of the installing task. */
  function InstallAt(fs: Fs, ino: nat, l: Label, d: Xattrs, op: bv16, id: Id, w: Writes, tainted: bool, taskId: Id)
    : (r: (Label, Xattrs, bool))
    ensures fs != PipeFs || w.id || Declassifies(op) || !Registers(op) ==> r == Install(l, d, op, id, w)
  {
    if !Declassifies(op) && !w.id && Registers(op) && w.realm then
      var open := l.(needsUpdate := false, checked := true);
      (PipeTag(fs, ino, open, tainted, taskId).(checked := false), d.(inRealm := true), false)
    else Install(l, d, op, id, w)
  }

  /** A pipe without a name, on which a tainted task tries a registration that fails at the identifier:
      the pipe is now that task's, in memory, and the next look finds it in realm. */
  lemma RefusedPipe(ino: nat, l: Label, d: Xattrs, op: bv16, id: Id, w: Writes, taskId: Id)
    requires ino >= 2 && l.anonymous && !l.isSocket && !Declassifies(op) && Registers(op) && w.realm && !w.id
    ensures var (l', d', accepted) := InstallAt(PipeFs, ino, l, d, op, id, w, true, taskId);
      && !accepted && !l'.anonymous && l'.id == taskId && d' == d.(inRealm := true)
      && Load(l', d').inRealm && (ReadId(d.id) == None ==> Load(l', d').id == taskId)
  {
    hide ReadId;
  }

  // ----- housekeeping, as the kernel runs it

  /** An inode, seen by a task that is in realm or not and has an identifier. */
  class Inode {
    const fs: Fs
    const isDir: bool
    const ino: nat
    var data: Label
    var disk: Xattrs

    /** alloc_security, for an inode whose attributes are already on disk. */
    constructor (fs: Fs, isDir: bool, ino: nat, disk: Xattrs)
      ensures this.fs == fs && this.isDir == isDir && this.ino == ino
      ensures data == FRESH && this.disk == disk
    {
      this.fs, this.isDir, this.ino, this.disk, data := fs, isDir, ino, disk, FRESH;
    }

    /** How often housekeeping can still do something: both flags are cleared before the attribute
        writes that come back here. */
    ghost function Work(): nat
      reads this
    {
      (if data.checked then 0 else 1) + (if data.needsUpdate then 1 else 0)
    }

    method InodeHousekeeping(tainted: bool, id: Id)
      modifies this`data
      ensures data == PipeTag(fs, ino, old(data), tainted, id)
    {
      if ino >= 2 && fs == PipeFs {
        if data.anonymous && tainted {
          data := data.(id := id, anonymous := false, checked := true, needsUpdate := false);
        }
      }
    }

    method DentryHousekeeping(tainted: bool, id: Id, w: Writes)
      modifies this
      ensures (data, disk) == Housekeep(PipeTag(fs, ino, old(data), tainted, id), old(disk), w)
      decreases Work(), 0
    {
      hide ReadId, HexOf;
      InodeHousekeeping(tainted, id);
      if !data.checked && !data.isSocket {
        data := data.(checked := true);
        if disk.inRealm {
          data := data.(inRealm := true);
          var stored := ReadId(disk.id);
          if stored.Some? {
            data := data.(id := stored.value, anonymous := false);
          }
        }
      }
      if data.inRealm {
        if data.needsUpdate && !data.isSocket {
          data := data.(needsUpdate := false);
          var res := SetInRealm(tainted, id, w);
          if !data.anonymous {
            res := SetIdentifier(HexOf(data.id) + [0], tainted, id, w);
          }
        }
      }
    }

    /** __vfs_setxattr_noperm on the in_realm attribute: a successful write ends in post_setxattr. */
    method SetInRealm(tainted: bool, id: Id, w: Writes) returns (ok: bool)
      requires data.checked && !data.needsUpdate
      modifies this
      ensures ok == w.realm && data == if ok then PipeTag(fs, ino, old(data), tainted, id) else old(data)
      ensures disk == if ok then old(disk).(inRealm := true) else old(disk)
      decreases Work(), 2
    {
      ok := w.realm;
      if ok {
        disk := disk.(inRealm := true);
        PostSetxattr(tainted, id, w);
      }
    }

    method SetIdentifier(value: seq<bv8>, tainted: bool, id: Id, w: Writes) returns (ok: bool)
      requires data.checked && !data.needsUpdate
      modifies this
      ensures ok == w.id && data == if ok then PipeTag(fs, ino, old(data), tainted, id) else old(data)
      ensures disk == if ok then old(disk).(id := Some(value)) else old(disk)
      decreases Work(), 2
    {
      ok := w.id;
      if ok {
        disk := disk.(id := Some(value));
        PostSetxattr(tainted, id, w);
      }
    }

    method PostSetxattr(tainted: bool, id: Id, w: Writes)
      modifies this
      ensures (data, disk) == Housekeep(PipeTag(fs, ino, old(data), tainted, id), old(disk), w)
      decreases Work(), 1
    {
      DentryHousekeeping(tainted, id, w);
    }

    /** The second half of xattr_enclave_installation. Its attribute writes re-enter housekeeping
        too, and find nothing to do but to tag a pipe. */
    method XattrInstallation(op: bv16, newId: Id, tainted: bool, id: Id, w: Writes) returns (accepted: bool)
      modifies this
      ensures (data, disk, accepted) == InstallAt(fs, ino, old(data), old(disk), op, newId, w, tainted, id)
      ensures Declassifies(op) && accepted ==> !data.inRealm && (old(data.inRealm) ==> !disk.inRealm)
    {
      if Declassifies(op) {
        if !data.inRealm {
          return true;
        }
        data := data.(needsUpdate := false, checked := true);
        if w.remove {
          disk := disk.(inRealm := false);
          data := data.(inRealm := false);
          return true;
        }
        data := data.(checked := false);
        return false;
      }
      data := data.(needsUpdate := false, checked := true);
      var success := SetIdentifier(HexOf(newId), tainted, id, w);
      if Registers(op) {
        var ignored := SetInRealm(tainted, id, w);
      }
      if success {
        data := data.(inRealm := Registers(op), id := newId, anonymous := false);
        return true;
      }
      data := data.(checked := false);
      return false;
    }

    /** trm_inode_init_security on a freshly allocated inode, then trm_d_instantiate. */
    method CreateFile(parentInRealm: bool, tainted: bool, id: Id, w: Writes)
      requires data == FRESH && disk == NO_ATTRIBUTES
      modifies this
      ensures (data, disk) == Housekeep(Born(parentInRealm, tainted, id), NO_ATTRIBUTES, w)
    {
      if (parentInRealm || tainted) && !data.inRealm {
        data := data.(inRealm := true, needsUpdate := true);
        if tainted {
          data := data.(anonymous := false, id := id);
        }
      }
      InodeHousekeeping(tainted, id);
      DentryHousekeeping(tainted, id, w);
    }
  }

  // ----- coherence

  /** A loaded label with nothing left to write says what a fresh read of the attributes would. */
  predicate Coherent(l: Label, d: Xattrs) {
    l.checked && !l.needsUpdate ==>
      && l.inRealm == d.inRealm
      && (l.inRealm && !l.anonymous ==> ReadId(d.id) == Some(l.id))
  }

  /** The realm flag of an instantiated inode of an ordinary file, between steps. */
  predicate Flagged(l: Label, d: Xattrs) {
    && !l.isSocket && !l.needsUpdate
    && (l.inRealm ==> d.inRealm)
    && (l.checked ==> l.inRealm == d.inRealm)
  }

  /** ... and its identifier. */
  predicate Cached(l: Label, d: Xattrs) {
    Flagged(l, d) && (!l.anonymous ==> ReadId(d.id) == Some(l.id))
  }

  /** Housekeeping keeps the cache, and brings it up to date; it writes nothing. */
  lemma HousekeepCached(l: Label, d: Xattrs, w: Writes)
    requires Flagged(l, d)
    ensures var (l', d') := Housekeep(l, d, w); d' == d && Flagged(l', d) && l'.checked && (Cached(l, d) ==> Cached(l', d))
  {
  }

  /** trm_inode_alloc_security and trm_inode_init_security: a new file is in realm when its
      directory or its creator is, and takes the creator's identifier in the second case. */
  function Born(parentInRealm: bool, taskInRealm: bool, taskId: Id): (l: Label) {
    if !parentInRealm && !taskInRealm then FRESH
    else
      var l := FRESH.(inRealm := true, needsUpdate := true);
      if taskInRealm then l.(anonymous := false, id := taskId) else l
  }

  /** A new file is coherent once instantiated, exactly when the writes its label needs succeed. */
  lemma CreateExact(parentInRealm: bool, taskInRealm: bool, taskId: Id, w: Writes)
    ensures var (l, d) := Housekeep(Born(parentInRealm, taskInRealm, taskId), NO_ATTRIBUTES, w);
      && (Flagged(l, d) <==> (taskInRealm || parentInRealm ==> w.realm))
      && (Cached(l, d) <==> (taskInRealm ==> w.realm && w.id) && (parentInRealm ==> w.realm))
  {
    ReadBack(taskId);
  }

  /** A fresh read of a new file finds it in realm exactly when its directory or its creator is and the
      attribute was written, with the creator's identifier exactly when the creator is and both were. */
  lemma BirthReadBack(parentInRealm: bool, taskInRealm: bool, taskId: Id, w: Writes)
    ensures
      var (l, d) := Housekeep(Born(parentInRealm, taskInRealm, taskId), NO_ATTRIBUTES, w);
      var read := Load(FRESH, d);
      && l.inRealm == (parentInRealm || taskInRealm) && l.anonymous == !taskInRealm && (taskInRealm ==> l.id == taskId)
      && read.inRealm == ((parentInRealm || taskInRealm) && w.realm)
      && (!read.anonymous <==> taskInRealm && w.realm && w.id) && (!read.anonymous ==> read.id == taskId)
  {
    ReadBack(taskId);
  }

  /** A tainted process creates a file and the identifier cannot be written: the label has an
      identifier, and a fresh read would give none. */
  lemma NamelessBirth(id: Id)
    ensures var (l, d) := Housekeep(Born(false, true, id), NO_ATTRIBUTES, Writes(true, false, true));
      l.checked && l.inRealm && !l.anonymous && d.inRealm && Load(FRESH, d).anonymous && !Coherent(l, d)
  {
  }

  /** An installed label agrees with the disk exactly when a write of in_realm that it needs
      succeeds, and it does not pretend to leave the realm without removing the attribute. */
  lemma InstallExact(l: Label, d: Xattrs, op: bv16, id: Id, w: Writes)
    requires Flagged(l, d)
    ensures var (l', d', accepted) := Install(l, d, op, id, w);
      && (Flagged(l', d') <==>
        || Declassifies(op)
        || !w.id
        || (if Registers(op) then d.inRealm || w.realm else !d.inRealm))
      && (Cached(l, d) && Flagged(l', d') ==> Cached(l', d'))
      && (accepted <==> if Declassifies(op) then !l.inRealm || w.remove else w.id)
  {
    ReadBack(id);
  }

  /** An accepted declassification leaves the file out of realm in memory, and keeps its identifier. It is
      out of realm on disk too, so that a fresh read finds it there, exactly if the label in memory
      was not out of realm before the attribute was; a refused one changes no attribute. */
  lemma DeclassifyExact(l: Label, d: Xattrs, op: bv16, id: Id, w: Writes)
    requires Declassifies(op)
    ensures var (l', d', accepted) := Install(l, d, op, id, w);
      && l'.id == l.id && l'.anonymous == l.anonymous && d'.id == d.id
      && (accepted <==> !l.inRealm || w.remove) && l'.inRealm == !accepted
      && (accepted ==> (Load(FRESH, d').inRealm <==> d.inRealm && !l.inRealm) && d'.inRealm == Load(FRESH, d').inRealm)
      && (!accepted ==> d' == d)
    ensures Flagged(l, d) && l.checked ==>
      var (l', d', accepted) := Install(l, d, op, id, w); Flagged(l', d') && (accepted ==> !d'.inRealm)
  {
    hide ReadId;
  }

  /** A registration sets the attribute and fails at the identifier. A declassification is then accepted
      as already done, and the file is still in realm on disk. */
  lemma DeclassifyMisses(id: Id, w: Writes)
    requires w.realm && !w.id
    ensures
      var (l, d, registered) := Install(FRESH.(checked := true), NO_ATTRIBUTES, OP_REGISTER, id, w);
      var (l', d', accepted) := Install(l, d, OP_DECLASSIFY, id, w);
      !registered && accepted && !l'.inRealm && d'.inRealm && Load(l', d').inRealm
  {
    assert Declassifies(OP_DECLASSIFY) && Registers(OP_REGISTER) && !Declassifies(OP_REGISTER);
  }

  /** An installation that neither registers nor declassifies leaves a file in realm on disk and
      out of it in memory. */
  lemma NopInstallSplits(l: Label, id: Id)
    ensures
      var d := Xattrs(true, Some(HexOf(id)));
      var w := Writes(true, true, true);
      var (l', d', accepted) := Install(l, d, OP_NOP, id, w);
      accepted && d'.inRealm && !l'.inRealm && !Coherent(l', d')
  {
    assert !Declassifies(OP_NOP) && !Registers(OP_NOP);
  }
}
