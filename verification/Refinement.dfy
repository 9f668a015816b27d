/** The handler over its two column families refines the abstract file system, over whole runs,
    exactly as long as no temporary file is renamed onto a `db.opt`. */
module Refinement {
  import opened Text
  import opened Paths
  import opened Content
  import opened KeyOrder
  import opened FileLayer
  import opened AbstractFiles

  function CfOf(id: FileId): Cf { if id.Table? then Frm else Db }

  /** Where a file lives in the store. */
  function At(id: FileId): StoreKey { In(CfOf(id), Key(id)) }

  /** The file a store key holds; None for a key outside the grammar or in the wrong family. */
  function FileAt(k: StoreKey): (r: Option<FileId>)
    ensures r.Some? ==> ValidId(r.value) && At(r.value) == k
  {
    var id := ParseFile(k.key);
    if id.Some? && CfOf(id.value) == k.cf then id else None
  }

  lemma FileAtAt(id: FileId)
    requires ValidId(id)
    ensures FileAt(At(id)) == Some(id)
  {
    hide Key, ParseFile;
    ParseKey(id);
  }

  /** The store holds the files, each at its place, and nothing else. */
  ghost predicate FilesMatch(st: Store, files: map<FileId, Value>)
  {
    && (forall id | id in files :: ValidId(id) && At(id) in st && st[At(id)] == files[id])
    && (forall k | k in st :: FileAt(k).Some? && FileAt(k).value in files)
  }

  ghost predicate CursorMatch(h: Handle, c: Cursor)
  {
    ValidId(c.id) && h.path == Key(c.id) && h.offset == c.offset < TWO63
  }

  ghost predicate Refines(w: World, a: Fs)
  {
    && FilesMatch(w.store, a.files)
    && w.memfs == a.memfs
    && w.handles.Keys == a.cursors.Keys
    && (forall fd | fd in w.handles :: CursorMatch(w.handles[fd], a.cursors[fd]))
  }

  function ShownName(id: FileId): string { if id.DbOpt? then id.d else id.t + ".frm" }

  ghost predicate ShowsAs(ns: seq<string>, ids: seq<FileId>)
  {
    |ns| == |ids| && forall i :: 0 <= i < |ns| ==> ns[i] == ShownName(ids[i])
  }

  predicate NoRepeats<T(==)>(s: seq<T>) { forall i, j :: 0 <= i < j < |s| ==> s[i] != s[j] }

  /** The names shown are those of the files in `ids`, one entry per file. */
  ghost predicate Enumerates(ns: seq<string>, ids: set<FileId>)
  {
    exists es: seq<FileId> :: NoRepeats(es) && Elems(es) == ids && ShowsAs(ns, es)
  }

  ghost predicate SameResult(c: CResult, a: AResult)
  {
    match c
    case Unhandled => a.Unhandled?
    case Ret(x) => a.Ret? && a.value == x
    case Failed(e) => a.Failed? && a.errno == e
    case Data(b) => a.Data? && a.bytes == b
    case Size(n) => a.Size? && a.size == n
    case Names(ns) => a.Names? && Enumerates(ns, a.names)
  }

  /** Carrying out the plan and the abstract call agree, in result and in the new state. */
  ghost predicate Simulates(w: World, p: Plan, a: (Fs, AResult))
  {
    SameResult(p.result, a.1) && Refines(Commit(w, p), a.0)
  }

  // --- lookups and updates --------------------------------------------------

  lemma LookupMatch(st: Store, files: map<FileId, Value>, id: FileId)
    requires FilesMatch(st, files) && ValidId(id)
    ensures GetCf(Key(id)) == Some(CfOf(id))
    ensures Lookup(st, Key(id)) == Get(st, CfOf(id), Key(id)) == if id in files then Some(files[id]) else None
  {
    hide Key, FileAt, EndsWith;
    KeyExtension(id);
    FileAtAt(id);
  }

  lemma PutMatch(st: Store, files: map<FileId, Value>, id: FileId, v: Value)
    requires FilesMatch(st, files) && ValidId(id)
    ensures FilesMatch(Put(st, CfOf(id), Key(id), v), files[id := v])
  {
    hide Key, FileAt, ValidId;
    FileAtAt(id);
    forall x | x in files ensures At(x) == At(id) ==> x == id {
      FileAtAt(x);
    }
  }

  lemma DeleteMatch(st: Store, files: map<FileId, Value>, id: FileId)
    requires FilesMatch(st, files) && ValidId(id)
    ensures FilesMatch(Delete(st, CfOf(id), Key(id)), files - {id})
  {
    hide Key, FileAt, ValidId;
    FileAtAt(id);
    forall x | x in files ensures At(x) == At(id) ==> x == id {
      FileAtAt(x);
    }
  }

  lemma DeleteUnknown(st: Store, files: map<FileId, Value>, cf: Cf, k: string)
    requires FilesMatch(st, files) && !IsKnownFile(k)
    ensures Delete(st, cf, k) == st
  {
    hide Key, ValidId, ParseFile;
    assert In(cf, k) !in st;
  }

  // --- path calls ------------------------------------------------------------

  lemma OpenRefines(w: World, a: Fs, p: string, creat: bool, fd: int)
    requires Refines(w, a)
    ensures Simulates(w, PlanOpen(w, p, creat, fd), AOpen(a, Classify(Normalize(p)), creat, fd))
  {
    hide Key, ParseFile, ParseFolder, IsTempFile, EndsWith, Normalize, FileAt, FilesMatch;
    var path := Normalize(p);
    LanguagesDisjoint(path);
    if IsKnownFile(path) {
      var id := ParseFile(path).value;
      KeyExtension(id);
      LookupMatch(w.store, a.files, id);
      OptionFileOf(id);
      LookupMatch(w.store, a.files, DbOpt(id.d));
    }
  }

  lemma StatRefines(w: World, a: Fs, p: string)
    requires Refines(w, a)
    ensures Simulates(w, PlanStat(w, p), (a, AStat(a, Classify(p))))
  {
    hide Key, ParseFile, ParseFolder, IsTempFile, EndsWith, Normalize, FileAt, FilesMatch;
    LanguagesDisjoint(p);
    if IsKnownFile(p) {
      LookupMatch(w.store, a.files, ParseFile(p).value);
    }
  }

  /** The folder test asks for the option file of the folder. */
  lemma FolderOptionFile(p: string)
    requires IsFolder(p)
    ensures (if p[|p| - 1] != '/' then p + "/" else p) + "db.opt" == Key(DbOpt(ParseFolder(p).value))
    ensures p == (if EndsWith(p, "/") then "./" + ParseFolder(p).value + "/" else "./" + ParseFolder(p).value)
  {
    var d := ParseFolder(p).value;
    if p == "./" + d {
      assert p[|p| - 1] == d[|d| - 1];
      if EndsWith(p, "/") { SuffixEnds(p, "/"); }
    } else {
      assert p[|p| - 1..] == "/";
    }
  }

  lemma AccessRefines(w: World, a: Fs, p: string)
    requires Refines(w, a)
    ensures Simulates(w, PlanAccess(w, p), (a, AAccess(a, p)))
  {
    hide Key, ParseFile, ParseFolder, IsTempFile, EndsWith, Normalize, FileAt, FilesMatch;
    LanguagesDisjoint(p);
    if IsKnownExtension(p) {
      var q := if IsKnownFile(p) then p else "./" + p;
      if IsKnownFile(q) {
        LookupMatch(w.store, a.files, ParseFile(q).value);
      }
    } else if IsFolder(p) {
      FolderOptionFile(p);
      LookupMatch(w.store, a.files, DbOpt(ParseFolder(p).value));
    }
  }

  lemma UnlinkRefines(w: World, a: Fs, p: string)
    requires Refines(w, a)
    ensures Simulates(w, PlanUnlink(w, p), AUnlink(a, Classify(Normalize(p))))
  {
    hide Key, ParseFile, ParseFolder, IsTempFile, EndsWith, Normalize, FileAt, FilesMatch;
    var path := Normalize(p);
    LanguagesDisjoint(path);
    if IsKnownFile(path) {
      var id := ParseFile(path).value;
      LookupMatch(w.store, a.files, id);
      DeleteMatch(w.store, a.files, id);
      ApplyFew(w.store, DeleteOp(CfOf(id), path), DeleteOp(CfOf(id), path));
    } else if IsKnownExtension(path) {
      ApplyFew(w.store, DeleteOp(GetCf(path).value, path), DeleteOp(GetCf(path).value, path));
      DeleteUnknown(w.store, a.files, GetCf(path).value, path);
    }
  }

  /** The call that breaks the abstraction: a temporary file is moved onto a `db.opt`. */
  predicate Orphans(a: Fs, c: Call)
  {
    c.Rename? && EndsWith(c.src, ".frm~") && Classify(c.dst).File? && Classify(c.dst).id.DbOpt? &&
    c.src in a.memfs && a.memfs[c.src] != []
  }

  lemma RenameRefines(w: World, a: Fs, src: string, dst: string)
    requires Refines(w, a) && !Orphans(a, Rename(src, dst))
    ensures Simulates(w, PlanRename(w, src, dst), ARename(a, src, dst))
  {
    hide Key, ParseFile, ParseFolder, IsTempFile, EndsWith, Normalize, FileAt, FilesMatch;
    if EndsWith(src, ".frm") && EndsWith(dst, ".frm") {
      if IsKnownFile(src) && IsKnownFile(dst) {
        var s, d := ParseFile(src).value, ParseFile(dst).value;
        KeyExtension(s);
        KeyExtension(d);
        LookupMatch(w.store, a.files, s);
        if s in a.files {
          var v := a.files[s];
          PutMatch(w.store, a.files, d, v);
          DeleteMatch(Put(w.store, Frm, dst, v), a.files[d := v], s);
          ApplyFew(w.store, PutOp(Frm, dst, v), DeleteOp(Frm, src));
        }
      }
    } else if EndsWith(src, ".frm~") && IsKnownFile(dst) && src in a.memfs && a.memfs[src] != [] {
      PutMatch(w.store, a.files, ParseFile(dst).value, a.memfs[src]);
      ApplyFew(w.store, PutOp(Frm, dst, a.memfs[src]), PutOp(Frm, dst, a.memfs[src]));
    }
  }

  // --- directories -------------------------------------------------------------

  lemma KeyPrefix(id: FileId, d: string)
    requires ValidId(id) && IsName(d)
    ensures StartsWith(Key(id), "./" + d + "/") <==> id.d == d
    ensures StartsWith(Key(id), "./" + d) <==> StartsWith(id.d, d)
  {
    hide BaseName;
    TextPrefix(id.d, "/" + BaseName(id), d);
    assert Key(id) == "./" + id.d + ("/" + BaseName(id));
  }

  lemma TextPrefix(name: string, rest: string, d: string)
    requires '/' !in name && '/' !in d && rest != [] && rest[0] == '/'
    ensures StartsWith("./" + name + rest, "./" + d + "/") <==> name == d
    ensures StartsWith("./" + name + rest, "./" + d) <==> StartsWith(name, d)
  {
    var k := "./" + name + rest;
    assert k[2 + |name|] == '/';
    assert forall i :: 0 <= i < |name| ==> k[2 + i] == name[i];
    if StartsWith(k, "./" + d) {
      assert k[2..2 + |d|] == ("./" + d)[2..] == d;
      assert |d| <= |name| by {
        assert forall i :: 0 <= i < |d| ==> k[2 + i] == k[2..2 + |d|][i] == d[i];
      }
      assert name[..|d|] == k[2..2 + |d|];
    }
    if StartsWith(name, d) {
      assert k[..2 + |d|] == "./" + name[..|d|];
    }
    if StartsWith(k, "./" + d + "/") {
      assert k[..3 + |d|][..2 + |d|] == "./" + d;
      assert k[..3 + |d|][2 + |d|] == ("./" + d + "/")[2 + |d|] == '/';
    }
    if name == d {
      assert k[..3 + |d|] == "./" + d + "/";
    }
  }

  lemma ShownNames(id: FileId)
    requires ValidId(id)
    ensures id.DbOpt? ==> DatabaseOfKey(Key(id)) == Some(ShownName(id))
    ensures id.Table? ==> FileOfKey(Key(id)) == ShownName(id)
  {
    OptionFileOf(id);
    if id.DbOpt? {
      assert Key(id)[..2 + |id.d|][2..] == id.d;
    }
  }

  /** An ordered listing of canonical paths is a listing of the files they name. */
  lemma ListingOfFiles(ks: seq<string>, ids: set<FileId>, ns: seq<string>)
    requires Ascending(ks)
    requires forall k :: k in ks ==> ParseFile(k).Some? && ParseFile(k).value in ids
    requires forall id :: id in ids ==> ValidId(id) && Key(id) in ks
    requires |ns| == |ks| && forall i :: 0 <= i < |ks| ==> ns[i] == ShownName(ParseFile(ks[i]).value)
    ensures Enumerates(ns, ids)
  {
    hide Key, ParseFile, Less;
    var es := seq(|ks|, i requires 0 <= i < |ks| => ParseFile(ks[i]).value);
    forall i, j | 0 <= i < j < |es| ensures es[i] != es[j] {
      assert Less(ks[i], ks[j]);
      LessIrreflexive(ks[i]);
    }
    forall id ensures id in Elems(es) <==> id in ids {
      if id in ids {
        ParseKey(id);
        var i :| 0 <= i < |ks| && ks[i] == Key(id);
        assert es[i] == id;
      }
    }
    assert ShowsAs(ns, es);
  }

  lemma RootRefines(w: World, a: Fs, p: string)
    requires Refines(w, a) && Normalize(p) == "."
    ensures SameResult(DirResult(w.store, p), ADir(a, Root))
  {
    hide Key, ParseFile, RFind, Less;
    var ids := ADir(a, Root).names;
    assert WithPrefix(KeysOf(w.store, Db), "") == KeysOf(w.store, Db);
    var ks := Listing(WithPrefix(KeysOf(w.store, Db), ""));
    forall k | k in ks
      ensures ParseFile(k).Some? && ParseFile(k).value in ids && DatabaseOfKey(k) == Some(ShownName(ParseFile(k).value))
    {
      assert k in Elems(ks);
      ShownNames(ParseFile(k).value);
    }
    forall id | id in ids ensures Key(id) in ks {
      assert Key(id) in Elems(ks);
    }
    ListingOfFiles(ks, ids, DirResult(w.store, p).names);
  }

  lemma FolderRefines(w: World, a: Fs, p: string)
    requires Refines(w, a) && IsFolder(Normalize(p))
    ensures SameResult(DirResult(w.store, p), ADir(a, Classify(Normalize(p))))
  {
    hide Key, ParseFile, ParseFolder, IsTempFile, EndsWith, RFind, Less;
    var path := Normalize(p);
    LanguagesDisjoint(path);
    FolderOptionFile(path);
    var d := ParseFolder(path).value;
    var ids := ADir(a, Classify(path)).names;
    var ks := Listing(WithPrefix(KeysOf(w.store, Frm), path));
    forall k | k in ks
      ensures ParseFile(k).Some? && ParseFile(k).value in ids && FileOfKey(k) == ShownName(ParseFile(k).value)
    {
      assert k in Elems(ks);
      KeyPrefix(ParseFile(k).value, d);
      ShownNames(ParseFile(k).value);
    }
    forall id | id in ids ensures Key(id) in ks {
      KeyPrefix(id, d);
      assert Key(id) in Elems(ks);
    }
    ListingOfFiles(ks, ids, DirResult(w.store, p).names);
  }

  lemma DirRefines(w: World, a: Fs, p: string)
    requires Refines(w, a)
    ensures SameResult(DirResult(w.store, p), ADir(a, Classify(Normalize(p))))
  {
    var path := Normalize(p);
    LanguagesDisjoint(path);
    if path == "." {
      assert Classify(path) == Root;
      RootRefines(w, a, p);
    } else if IsFolder(path) {
      FolderRefines(w, a, p);
    }
  }

  // --- open files ----------------------------------------------------------------

  lemma ReadRefines(w: World, a: Fs, fd: int, count: U64)
    requires Refines(w, a)
    ensures Simulates(w, PlanRead(w, fd, count), ARead(a, fd, count))
  {
    hide Key, ParseFile, ParseFolder, IsTempFile, EndsWith, Normalize, FileAt, FilesMatch, GetCf, Get, AddSigned;
    if fd in w.handles {
      var c := a.cursors[fd];
      LookupMatch(w.store, a.files, c.id);
      if c.id in a.files {
        var n := |Slice(a.files[c.id], c.offset, count)|;
        OverflowTest(c.offset, n);
      }
    }
  }

  lemma WriteRefines(w: World, a: Fs, fd: int, buf: Buffer)
    requires Refines(w, a)
    ensures Simulates(w, PlanWrite(w, fd, buf), AWrite(a, fd, buf))
  {
    hide Key, ParseFile, ParseFolder, IsTempFile, EndsWith, Normalize, FileAt, FilesMatch, Overlay, Copy, Grow;
    if fd in w.handles {
      var c := a.cursors[fd];
      LookupMatch(w.store, a.files, c.id);
      OverflowTest(c.offset, |buf|);
      if c.offset + |buf| <= MAX_SIZE {
        var v := Overlay(Contents(a, c.id), c.offset, buf);
        CopyIsOverlay(Contents(a, c.id), c.offset, buf);
        PutMatch(w.store, a.files, c.id, v);
        ApplyFew(w.store, PutOp(CfOf(c.id), Key(c.id), v), PutOp(CfOf(c.id), Key(c.id), v));
      }
    }
  }

  lemma LseekRefines(w: World, a: Fs, fd: int, offset: I64, whence: Whence)
    requires Refines(w, a)
    ensures Simulates(w, PlanLseek(w, fd, offset, whence), ALseek(a, fd, offset, whence))
  {
    hide Key, ParseFile, ParseFolder, IsTempFile, EndsWith, Normalize, FileAt, FilesMatch, GetCf, Get, AddSigned;
    if fd in w.handles {
      var c := a.cursors[fd];
      LookupMatch(w.store, a.files, c.id);
      SeekArithmetic(offset, c.offset);
      SeekArithmetic(offset, |Contents(a, c.id)|);
    }
  }

  lemma FstatRefines(w: World, a: Fs, fd: int)
    requires Refines(w, a)
    ensures Simulates(w, PlanFstat(w, fd), (a, AFstat(a, fd)))
  {
    hide Key, FileAt, FilesMatch, GetCf, Get;
    if fd in w.handles {
      LookupMatch(w.store, a.files, a.cursors[fd].id);
    }
  }

  lemma CloseRefines(w: World, a: Fs, fd: int)
    requires Refines(w, a)
    ensures Simulates(w, PlanClose(w, fd), AClose(a, fd))
  {
    hide FilesMatch;
  }

  // --- steps and runs ------------------------------------------------------------

  /** One call: same result and a matching new state, unless the call orphans an option file. */
  lemma StepRefines(w: World, a: Fs, c: Call)
    requires Refines(w, a) && !Orphans(a, c)
    ensures Simulates(w, PlanOf(w, c), AStep(a, c))
  {
    hide PlanOpen, PlanStat, PlanAccess, PlanRename, PlanUnlink, PlanRead, PlanWrite, PlanLseek, PlanFstat, PlanClose,
      DirResult, AOpen, AStat, AAccess, ARename, AUnlink, ADir, ARead, AWrite, ALseek, AFstat, AClose, Classify,
      Normalize, FilesMatch;
    match c
    case Open(p, creat, fd) => OpenRefines(w, a, p, creat, fd);
    case Stat(p) => StatRefines(w, a, p);
    case Access(p) => AccessRefines(w, a, p);
    case Rename(s, d) => RenameRefines(w, a, s, d);
    case Unlink(p) => UnlinkRefines(w, a, p);
    case Dir(p) => DirRefines(w, a, p);
    case Read(fd, count) => ReadRefines(w, a, fd, count);
    case Write(fd, buf) => WriteRefines(w, a, fd, buf);
    case Lseek(fd, off, wh) => LseekRefines(w, a, fd, off, wh);
    case Fstat(fd) => FstatRefines(w, a, fd);
    case Close(fd) => CloseRefines(w, a, fd);
    case Memfs(files) =>
      assert Simulates(w, Plan([], files, w.handles, Unhandled), (a.(memfs := files), Unhandled));
  }

  /** The option file of `d` in the table family, where no lookup by path finds it. */
  ghost predicate HasOrphan(st: Store, d: string)
  {
    IsName(d) && In(Frm, Key(DbOpt(d))) in st
  }

  /** No call ever removes an orphan. */
  lemma OrphanStays(w: World, c: Call, d: string)
    requires HasOrphan(w.store, d)
    ensures HasOrphan(Step(w, c).store, d)
  {
    hide Key, ParseFile, IsTempFile, EndsWith, Normalize, PlanOpen, PlanAccess, PlanStat, PlanLseek, PlanRead,
      PlanFstat, PlanClose, DirResult, Copy, Grow;
    var k := Key(DbOpt(d));
    KeyExtension(DbOpt(d));
    var ops := PlanOf(w, c).ops;
    assert forall i :: 0 <= i < |ops| ==> ops[i] != DeleteOp(Frm, k);
    OpsKeep(w.store, ops, In(Frm, k));
  }

  lemma {:induction false} OpsKeep(st: Store, ops: seq<StoreOp>, k: StoreKey)
    requires k in st && forall i :: 0 <= i < |ops| ==> ops[i] != DeleteOp(k.cf, k.key)
    ensures k in ApplyAll(st, ops)
    decreases |ops|
  {
    if ops != [] {
      OpsKeep(Apply(st, ops[0]), ops[1..], k);
    }
  }

  lemma OrphanArises(w: World, a: Fs, c: Call)
    requires Refines(w, a) && Orphans(a, c)
    ensures HasOrphan(Step(w, c).store, Classify(c.dst).id.d)
  {
    hide Key, ParseFile, FilesMatch;
    KeyExtension(ParseFile(c.dst).value);
    SuffixClash(c.src, ".frm~", ".frm");
    ApplyFew(w.store, PutOp(Frm, c.dst, w.memfs[c.src]), PutOp(Frm, c.dst, w.memfs[c.src]));
  }

  lemma OrphanBreaks(w: World, a: Fs, d: string)
    requires HasOrphan(w.store, d)
    ensures !Refines(w, a)
  {
    hide Key, ParseFile;
    ParseKey(DbOpt(d));
    assert FileAt(In(Frm, Key(DbOpt(d)))).None?;
  }

  lemma {:induction false} OrphanForever(w: World, calls: seq<Call>, d: string)
    requires HasOrphan(w.store, d)
    ensures HasOrphan(Run(w, calls).store, d)
    decreases |calls|
  {
    hide PlanOf, HasOrphan, Commit;
    if calls != [] {
      OrphanStays(w, calls[0], d);
      OrphanForever(Step(w, calls[0]), calls[1..], d);
    }
  }

  predicate RunOrphans(a: Fs, calls: seq<Call>)
    decreases |calls|
  {
    calls != [] && (Orphans(a, calls[0]) || RunOrphans(AStep(a, calls[0]).0, calls[1..]))
  }

  /** Whole runs. The two column families behave as one map of files, call by call and in the end,
      if and only if the run never renames a temporary file onto a `db.opt`. */
  lemma {:induction false} RunRefines(w: World, a: Fs, calls: seq<Call>)
    requires Refines(w, a)
    ensures Refines(Run(w, calls), ARun(a, calls)) <==> !RunOrphans(a, calls)
    ensures !RunOrphans(a, calls) ==>
      forall i :: 0 <= i < |calls| ==> SameResult(Results(w, calls)[i], AResults(a, calls)[i])
    decreases |calls|
  {
    hide PlanOf, AStep, Refines, HasOrphan, SameResult;
    if calls != [] {
      var c := calls[0];
      if Orphans(a, c) {
        OrphanArises(w, a, c);
        OrphanForever(Step(w, c), calls[1..], Classify(c.dst).id.d);
        OrphanBreaks(Run(w, calls), ARun(a, calls), Classify(c.dst).id.d);
      } else {
        StepRefines(w, a, c);
        RunRefines(Step(w, c), AStep(a, c).0, calls[1..]);
      }
    }
  }

  /** From the empty store, for every sequence of calls. */
  lemma RunFromEmpty(calls: seq<Call>)
    ensures Refines(Run(EMPTY, calls), ARun(EMPTY_FS, calls)) <==> !RunOrphans(EMPTY_FS, calls)
    ensures !RunOrphans(EMPTY_FS, calls) ==>
      forall i :: 0 <= i < |calls| ==> SameResult(Results(EMPTY, calls)[i], AResults(EMPTY_FS, calls)[i])
  {
    hide PlanOf, AStep, Orphans, SameResult, FileAt, At, RunOrphans, Results, AResults, Run, ARun;
    RunRefines(EMPTY, EMPTY_FS, calls);
  }
}
