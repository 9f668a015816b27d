/** Laws of the file layer that hold in every reachable state, orphans or not, and at every
    crash point inside a call. */
module FileLaws {
  import opened Text
  import opened Paths
  import opened Content
  import opened KeyOrder
  import opened FileLayer
  import opened Refinement

  // --- the key space --------------------------------------------------------

  /** Every key is the canonical path of a file, and the database family holds option files only. */
  ghost predicate KeyOk(k: StoreKey)
  {
    ParseFile(k.key).Some? && (k.cf == Db ==> ParseFile(k.key).value.DbOpt?)
  }

  ghost predicate KeySpace(st: Store) { forall k | k in st :: KeyOk(k) }

  ghost predicate HandleOk(h: Handle) { ParseFile(h.path).Some? && h.offset < TWO63 }

  ghost predicate WorldOk(w: World)
  {
    KeySpace(w.store) && forall fd | fd in w.handles :: HandleOk(w.handles[fd])
  }

  ghost predicate OpOk(op: StoreOp) { op.PutOp? ==> KeyOk(In(op.cf, op.key)) }

  lemma {:induction false} OpsKeepKeySpace(st: Store, ops: seq<StoreOp>)
    requires KeySpace(st) && forall op :: op in ops ==> OpOk(op)
    ensures KeySpace(ApplyAll(st, ops))
    decreases |ops|
  {
    hide KeyOk;
    if ops != [] {
      assert OpOk(ops[0]);
      OpsKeepKeySpace(Apply(st, ops[0]), ops[1..]);
    }
  }

  lemma FamilyOfPath(p: string)
    requires IsKnownFile(p)
    ensures GetCf(p) == Some(CfOf(ParseFile(p).value))
  {
    hide Key, ParseFile, EndsWith;
    KeyExtension(ParseFile(p).value);
  }

  /** Whatever a call puts into the store has a canonical key of the right family. */
  lemma PlansAreOk(w: World, c: Call)
    requires WorldOk(w)
    ensures forall op :: op in PlanOf(w, c).ops ==> OpOk(op)
  {
    hide ParseFile, EndsWith, Normalize, IsTempFile, PlanOpen, PlanAccess, PlanStat, PlanLseek, PlanRead,
      PlanFstat, PlanClose, DirResult, Copy, Grow;
    if c.Write? && c.fd in w.handles {
      FamilyOfPath(w.handles[c.fd].path);
    }
  }

  lemma OffsetsStayOk(w: World, c: Call)
    requires WorldOk(w)
    ensures forall fd | fd in PlanOf(w, c).handles :: HandleOk(PlanOf(w, c).handles[fd])
  {
    hide ParseFile, EndsWith, Normalize, IsTempFile, PlanAccess, PlanStat, PlanUnlink, PlanRename,
      DirResult, Copy, AddSigned, Exists, RFind;
    if c.Write? && c.fd in w.handles {
      OverflowTest(w.handles[c.fd].offset, |c.buf|);
    }
    if c.Read? && c.fd in w.handles && PlanRead(w, c.fd, c.count).result.Data? {
      OverflowTest(w.handles[c.fd].offset, |PlanRead(w, c.fd, c.count).result.bytes|);
    }
  }

  /** What a call keeps, wherever it stops. */
  lemma StepKeeps(w: World, c: Call, k: nat)
    requires WorldOk(w)
    ensures WorldOk(Step(w, c))
    ensures KeySpace(CrashStore(w, c, k))
  {
    hide PlanOf, OpOk, HandleOk, KeySpace;
    PlansAreOk(w, c);
    OffsetsStayOk(w, c);
    OpsKeepKeySpace(w.store, PlanOf(w, c).ops);
    OpsKeepKeySpace(w.store, PlanOf(w, c).ops[..if k <= |PlanOf(w, c).ops| then k else |PlanOf(w, c).ops|]);
  }

  /** A completed call, or a crash after `after` of its store operations followed by a restart
      with nothing open and an empty in-memory file system. */
  datatype Event = Done(c: Call) | Crash(c: Call, after: nat)

  ghost function After(w: World, e: Event): World
  {
    match e
    case Done(c) => Step(w, c)
    case Crash(c, after) => World(CrashStore(w, c, after), map[], map[])
  }

  ghost function History(w: World, es: seq<Event>): World
    decreases |es|
  {
    if es == [] then w else History(After(w, es[0]), es[1..])
  }

  /** In every state reachable from the empty store, through any calls and any crashes, the keys
      are canonical paths, the database family holds option files only, and offsets are below 2^63. */
  lemma {:induction false} HistoriesAreOk(w: World, es: seq<Event>)
    requires WorldOk(w)
    ensures WorldOk(History(w, es))
    decreases |es|
  {
    hide PlanOf, WorldOk;
    if es != [] {
      var k := if es[0].Crash? then es[0].after else 0;
      StepKeeps(w, es[0].c, k);
      NothingOpenOk(CrashStore(w, es[0].c, k));
      HistoriesAreOk(After(w, es[0]), es[1..]);
    }
  }

  lemma NothingOpenOk(st: Store)
    ensures KeySpace(st) ==> WorldOk(World(st, map[], map[]))
  {
    hide KeySpace;
  }

  /** A call that is not handled, or fails, leaves the store as it was. */
  lemma FailuresLeaveTheStore(w: World, c: Call)
    requires PlanOf(w, c).result.Unhandled? || PlanOf(w, c).result.Failed?
    ensures Step(w, c).store == w.store
  {
    hide ParseFile, EndsWith, Normalize, IsTempFile, PlanOpen, PlanAccess, PlanStat, PlanLseek, PlanRead,
      PlanFstat, PlanClose, DirResult, Copy, Grow, AddU64;
  }

  // --- rename -----------------------------------------------------------------

  ghost predicate SameElsewhere(a: Store, b: Store, keys: set<StoreKey>)
  {
    a - keys == b - keys
  }

  /** Renaming a stored table succeeds, by a put and then a delete. */
  lemma RenameOps(w: World, s: FileId, d: FileId, v: Value)
    requires ValidId(s) && s.Table? && ValidId(d) && d.Table? && Get(w.store, Frm, Key(s)) == Some(v)
    ensures PlanOf(w, Rename(Key(s), Key(d))) ==
      Plan([PutOp(Frm, Key(d), v), DeleteOp(Frm, Key(s))], w.memfs, w.handles, Ret(0))
  {
    hide ParseFile, EndsWith, Key;
    KeyExtension(s);
    KeyExtension(d);
    ParseKey(s);
    ParseKey(d);
  }

  /** Where the content `v` of a renamed table is, at each crash point: always under the old name, the
      new name or both. No other key changes. */
  lemma RenameCrashSafe(w: World, s: FileId, d: FileId, v: Value, k: nat)
    requires ValidId(s) && s.Table? && ValidId(d) && d.Table? && s != d && Get(w.store, Frm, Key(s)) == Some(v)
    ensures
      var st := CrashStore(w, Rename(Key(s), Key(d)), k);
      && Get(st, Frm, Key(s)) == (if k < 2 then Some(v) else None)
      && Get(st, Frm, Key(d)) == (if k == 0 then Get(w.store, Frm, Key(d)) else Some(v))
      && SameElsewhere(st, w.store, {In(Frm, Key(s)), In(Frm, Key(d))})
  {
    hide ParseFile, EndsWith, PlanOf, Key;
    RenameOps(w, s, d, v);
    ParseKey(s);
    ParseKey(d);
    var ops := PlanOf(w, Rename(Key(s), Key(d))).ops;
    ApplyFew(w.store, ops[0], ops[1]);
    assert ops[..0] == [] && ops[..1] == [ops[0]] && ops[..2] == [ops[0], ops[1]];
  }

  /** A completed rename keeps the content if and only if the two names differ: renaming a table
      to itself deletes it. */
  lemma RenameKeepsContentIff(w: World, s: FileId, d: FileId, v: Value)
    requires ValidId(s) && s.Table? && ValidId(d) && d.Table? && Get(w.store, Frm, Key(s)) == Some(v)
    ensures Get(Step(w, Rename(Key(s), Key(d))).store, Frm, Key(d)) == Some(v) <==> s != d
  {
    hide ParseFile, EndsWith, PlanOf, Key;
    RenameOps(w, s, d, v);
    ParseKey(s);
    ParseKey(d);
    var ops := PlanOf(w, Rename(Key(s), Key(d))).ops;
    ApplyFew(w.store, ops[0], ops[1]);
  }

  lemma TempRenameOps(w: World, src: string, d: FileId)
    requires EndsWith(src, ".frm~") && ValidId(d) && src in w.memfs && w.memfs[src] != []
    ensures PlanOf(w, Rename(src, Key(d))) ==
      Plan([PutOp(Frm, Key(d), w.memfs[src])], w.memfs - {src}, w.handles, Ret(0))
  {
    hide ParseFile, EndsWith, Key;
    SuffixClash(src, ".frm~", ".frm");
    ParseKey(d);
  }

  /** Moving in a temporary file: at each crash point the target holds its old content or all of the
      new one, and no other key changes. The temporary file is gone at the end. */
  lemma TempRenameCrashSafe(w: World, src: string, d: FileId, k: nat)
    requires EndsWith(src, ".frm~") && ValidId(d) && src in w.memfs && w.memfs[src] != []
    ensures
      var st := CrashStore(w, Rename(src, Key(d)), k);
      && Get(st, Frm, Key(d)) == (if k == 0 then Get(w.store, Frm, Key(d)) else Some(w.memfs[src]))
      && SameElsewhere(st, w.store, {In(Frm, Key(d))})
      && src !in Step(w, Rename(src, Key(d))).memfs
  {
    hide ParseFile, EndsWith, PlanOf, Key;
    TempRenameOps(w, src, d);
    var ops := PlanOf(w, Rename(src, Key(d))).ops;
    ApplyFew(w.store, ops[0], ops[0]);
    assert ops[..0] == [] && ops[..1] == [ops[0]];
  }

  // --- agreement of views -------------------------------------------------------

  /** If a canonical path opens without creation, stat, access and fstat agree that it exists and on
      its size. */
  lemma OpenImpliesVisible(w: World, id: FileId, fd: int)
    requires ValidId(id)
    ensures
      var w' := Step(w, Open(Key(id), false, fd));
      var n := FileSize(w.store, Key(id));
      PlanOpen(w, Key(id), false, fd).result == Ret(fd) ==>
        && Exists(w.store, Key(id))
        && PlanStat(w', Key(id)).result == Size(n)
        && PlanAccess(w', Key(id)).result == Ret(0)
        && PlanFstat(w', fd).result == Size(n)
  {
    hide ParseFile, EndsWith, StartsWith, IsTempFile, RFind;
    NormalizeKey(id);
    ParseKey(id);
    LanguagesDisjoint(Key(id));
  }

  /** What the path calls come to on a canonical path, by what the store holds: the option file is in the
      database family, a table in the other. A table opens only next to its database's option file. */
  lemma PathOutcomes(w: World, id: FileId, creat: bool, fd: int)
    requires ValidId(id)
    ensures
      var here, option := In(if id.Table? then Frm else Db, Key(id)), In(Db, Key(DbOpt(id.d)));
      && PlanOf(w, Open(Key(id), creat, fd)).result ==
           (if (!creat && here !in w.store) || (id.Table? && option !in w.store) then Failed(ENOENT)
            else if fd < 0 then Failed(EMFILE) else Ret(fd))
      && PlanOf(w, Stat(Key(id))).result == (if here in w.store then Size(|w.store[here]|) else Failed(ENOENT))
      && PlanOf(w, Access(Key(id))).result == (if here in w.store then Ret(0) else Failed(ENOENT))
      && PlanOf(w, Unlink(Key(id))).result == Ret(0) && Step(w, Unlink(Key(id))).store == w.store - {here}
      && Step(w, Open(Key(id), creat, fd)).store == w.store
  {
    hide ParseFile, EndsWith, StartsWith, IsTempFile, RFind, Normalize, Key;
    NormalizeKey(id);
    ParseKey(id);
    KeyExtension(id);
    KeyExtension(DbOpt(id.d));
    OptionFileOf(id);
    var cf := if id.Table? then Frm else Db;
    ApplyFew(w.store, DeleteOp(cf, Key(id)), DeleteOp(cf, Key(id)));
  }

  /** What reading, fstat and closing come to on an open file, by what the store holds: a file never written
      reads as an error and has size 0. */
  lemma HandleOutcomes(w: World, fd: int, id: FileId, offset: U64, count: U64)
    requires ValidId(id) && fd in w.handles && w.handles[fd] == Handle(Key(id), offset)
    ensures
      var here := In(if id.Table? then Frm else Db, Key(id));
      && PlanOf(w, Read(fd, count)).result ==
           (if here in w.store then Data(Slice(w.store[here], offset, count)) else Failed(EIO))
      && PlanOf(w, Fstat(fd)).result == Size(if here in w.store then |w.store[here]| else 0)
      && PlanOf(w, Lseek(fd, 0, SeekOther)).result == Failed(EINVAL)
      && PlanOf(w, Close(fd)).result == Ret(0) && fd !in Step(w, Close(fd)).handles
      && Step(w, Read(fd, count)).store == w.store
  {
    hide EndsWith, Key;
    KeyExtension(id);
  }

  /** A descriptor that is not open is refused by every call on it, without effect. */
  lemma ClosedIsRefused(w: World, c: Call)
    requires (c.Read? || c.Write? || c.Lseek? || c.Fstat? || c.Close?) && c.fd !in w.handles
    ensures PlanOf(w, c).result == Failed(EBADF) && Step(w, c) == w
  {
  }

  /** Access, and no other call, knows a file also without the leading "./". */
  lemma AccessWithoutDot(w: World, id: FileId)
    requires ValidId(id)
    ensures PlanOf(w, Access(Key(id)[2..])).result == PlanOf(w, Access(Key(id))).result
    ensures PlanOf(w, Stat(Key(id)[2..])).result == Failed(EIO)
  {
    hide ParseFile, EndsWith, Exists;
    var p := Key(id)[2..];
    assert "./" + p == Key(id);
    ParseKey(id);
    KeyExtension(id);
    BareEnds(id);
    if IsKnownFile(p) { KeyHead(ParseFile(p).value); }
    assert p[0] == id.d[0];
  }

  lemma BareEnds(id: FileId)
    ensures IsKnownExtension(Key(id)[2..])
  {
    hide EndsWith;
    var p, tail := Key(id)[2..], if id.Table? then ".frm" else ".opt";
    var head := id.d + (if id.Table? then "/" + id.t else "/db");
    assert p == head + tail;
    EndsAfter(head, tail);
  }

  /** Renaming a stored table moves it; what is not stored cannot be renamed, nor anything onto a path that is
      no file's. */
  lemma RenameOutcomes(w: World, s: FileId, d: FileId)
    requires ValidId(s) && s.Table? && ValidId(d) && d.Table?
    ensures
      var a, b := In(Frm, Key(s)), In(Frm, Key(d));
      var c := Rename(Key(s), Key(d));
      && PlanOf(w, c).result == (if a in w.store then Ret(0) else Failed(EIO))
      && Step(w, c).store == (if a in w.store then w.store[b := w.store[a]] - {a} else w.store)
  {
    hide ParseFile, EndsWith, Key;
    KeyExtension(s);
    KeyExtension(d);
    ParseKey(s);
    ParseKey(d);
    if In(Frm, Key(s)) in w.store {
      var v := w.store[In(Frm, Key(s))];
      ApplyFew(w.store, PutOp(Frm, Key(d), v), DeleteOp(Frm, Key(s)));
    } else {
      ApplyFew(w.store, DeleteOp(Frm, Key(s)), DeleteOp(Frm, Key(s)));
    }
  }

  /** A rename that cannot be done fails with EIO and changes nothing: tables under paths that are no files',
      a temporary file onto such a path, and a temporary file that is missing or empty. */
  lemma RenameFails(w: World, src: string, dst: string)
    requires
      || (EndsWith(src, ".frm") && EndsWith(dst, ".frm") && !(IsKnownFile(src) && IsKnownFile(dst)))
      || (EndsWith(src, ".frm~") && (!IsKnownFile(dst) || src !in w.memfs || w.memfs[src] == []))
    ensures PlanOf(w, Rename(src, dst)).result == Failed(EIO) && Step(w, Rename(src, dst)) == w
  {
    hide ParseFile, EndsWith;
    if EndsWith(src, ".frm~") { SuffixClash(src, ".frm~", ".frm"); }
  }

  /** A path with a known extension that is no file's: open and stat fail with EIO; unlink reports success,
      and what it deletes is no file's. */
  lemma RejectedPaths(w: World, p: string, creat: bool, fd: int)
    requires Normalize(p) == p && IsKnownExtension(p) && !IsKnownFile(p)
    ensures PlanOf(w, Open(p, creat, fd)).result == Failed(EIO) && PlanOf(w, Stat(p)).result == Failed(EIO)
    ensures PlanOf(w, Unlink(p)).result == Ret(0)
    ensures WorldOk(w) ==> Step(w, Unlink(p)) == w
  {
    hide ParseFile, EndsWith, Normalize;
    var cf := if EndsWith(p, ".frm") then Frm else Db;
    ApplyFew(w.store, DeleteOp(cf, p), DeleteOp(cf, p));
    if WorldOk(w) { assert In(cf, p) in w.store ==> KeyOk(In(cf, p)); }
  }

  /** Open, unlink and listing do and report the same on the absolute path of a file or folder in the data
      directory as on its canonical path. Stat and access know canonical paths only. */
  lemma AbsolutePaths(w: World, id: FileId, creat: bool, fd: int)
    requires ValidId(id)
    ensures
      var file, folder := "/data/" + Key(id)[2..], "/data/" + id.d;
      && PlanOf(w, Open(file, creat, fd)) == PlanOf(w, Open(Key(id), creat, fd))
      && PlanOf(w, Unlink(file)) == PlanOf(w, Unlink(Key(id)))
      && PlanOf(w, Dir(folder)) == PlanOf(w, Dir("./" + id.d))
      && PlanOf(w, Dir(folder + "/")) == PlanOf(w, Dir("./" + id.d + "/"))
      && PlanOf(w, Dir("/data/")) == PlanOf(w, Dir("."))
      && PlanOf(w, Stat(file)).result == Failed(EIO) && PlanOf(w, Access(file)).result == Failed(EIO)
  {
    hide ParseFile, ParseFolder, EndsWith, StartsWith, IsTempFile, RFind, Normalize, Exists, GetCf;
    NormalizeAbsolute(id, id.d);
    RelativeStays(id);
    AbsoluteIsUnknown(id);
  }

  lemma RelativeStays(id: FileId)
    ensures Normalize(Key(id)) == Key(id) && Normalize(".") == "."
    ensures Normalize("./" + id.d) == "./" + id.d && Normalize("./" + id.d + "/") == "./" + id.d + "/"
  {
    NormalizeKey(id);
    assert ("./" + id.d)[0] == '.' && ("./" + id.d + "/")[0] == '.' && DATADIR[0] == '/';
  }

  lemma AbsoluteIsUnknown(id: FileId)
    requires ValidId(id)
    ensures
      var p := DATADIR + Key(id)[2..];
      IsKnownExtension(p) && !IsKnownFile(p) && !IsKnownFile("./" + p)
  {
    hide ParseFile, EndsWith;
    var p := DATADIR + Key(id)[2..];
    AbsoluteEnds(id);
    assert p[0] == '/' && p[1] == 'd' && ("./" + p)[2] == '/';
    if IsKnownFile(p) { KeyHead(ParseFile(p).value); }
    if IsKnownFile("./" + p) { KeyHead(ParseFile("./" + p).value); }
  }

  lemma AbsoluteEnds(id: FileId)
    ensures IsKnownExtension(DATADIR + Key(id)[2..])
  {
    hide EndsWith;
    var p, tail := DATADIR + Key(id)[2..], if id.Table? then ".frm" else ".opt";
    var head := DATADIR + id.d + (if id.Table? then "/" + id.t else "/db");
    assert Key(id)[2..] == id.d + "/" + BaseName(id);
    assert p == head + tail;
    EndsAfter(head, tail);
  }

  lemma KeyHead(id: FileId)
    requires ValidId(id)
    ensures |Key(id)| > 2 && Key(id)[0] == '.' && Key(id)[1] == '/' && Key(id)[2] != '/'
  {
    assert Key(id)[2] == id.d[0];
  }

  lemma NormalizeKey(id: FileId)
    ensures Normalize(Key(id)) == Key(id)
  {
    assert Key(id)[0] == '.' && DATADIR[0] == '/';
  }
}
