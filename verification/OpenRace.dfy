/** Opening looks twice, in two lock regions: for the file, and for its database's option file. What
    other threads do in between can make it succeed where opening at once never would. */
module OpenRace {
  import opened Text
  import opened Paths
  import opened Content
  import opened FileLayer
  import A = AbstractFiles
  import opened FileLaws
  import opened Refinement

  /** The result when the first lookup meets one store and the second another. */
  function OpenSplit(first: Store, second: Store, pathname: string, creat: bool, fd: int): CResult
  {
    var path := Normalize(pathname);
    if !IsKnownExtension(path) then
      if EndsWith(path, ".frm~") && !IsTempFile(path) then Failed(EIO) else Unhandled
    else if !IsKnownFile(path) then Failed(EIO)
    else if !creat && !Exists(first, path) then Failed(ENOENT)
    else if EndsWith(path, ".frm") && !Exists(second, path[..RFind(path, '/') + 1] + "db.opt") then Failed(ENOENT)
    else if fd < 0 then Failed(EMFILE)
    else Ret(fd)
  }

  /** Opening at once, on one store. */
  function OpenAt(st: Store, pathname: string, creat: bool, fd: int): CResult
  {
    PlanOpen(World(st, map[], map[]), pathname, creat, fd).result
  }

  lemma OpenUndisturbed(st: Store, pathname: string, creat: bool, fd: int)
    ensures OpenSplit(st, st, pathname, creat, fd) == OpenAt(st, pathname, creat, fd)
  {
    hide ParseFile, EndsWith, IsTempFile, Normalize, RFind, Exists;
  }

  predicate IsTable(path: string) { IsKnownFile(path) && ParseFile(path).value.Table? }

  /** The table and its database's option file exist together. */
  predicate Together(st: Store, path: string)
    requires IsTable(path)
  {
    Exists(st, path) && Exists(st, Key(DbOpt(ParseFile(path).value.d)))
  }

  /** Over the stores from the first lookup to the second: some moment explains the result, as that of
      opening at once, if and only if the call may create the file, the path is no table's, the table is
      missing at the first lookup, the option file is missing at the second, or there is a moment at which
      both exist. */
  lemma OpenIsAtomicIff(sts: seq<Store>, pathname: string, creat: bool, fd: int)
    requires sts != []
    ensures
      var path := Normalize(pathname);
      var first, last := sts[0], sts[|sts| - 1];
      (exists i :: 0 <= i < |sts| && OpenAt(sts[i], pathname, creat, fd) == OpenSplit(first, last, pathname, creat, fd))
      <==> (|| creat || !IsTable(path)
            || !Exists(first, path)
            || !Exists(last, Key(DbOpt(ParseFile(path).value.d)))
            || exists i :: 0 <= i < |sts| && Together(sts[i], path))
  {
    hide ParseFile, EndsWith, IsTempFile, Normalize, RFind, Exists, Key, OpenAt, OpenSplit;
    var path := Normalize(pathname);
    var first, last := sts[0], sts[|sts| - 1];
    var r := OpenSplit(first, last, pathname, creat, fd);
    OpenCases(first, last, pathname, creat, fd);
    forall i | 0 <= i < |sts| ensures IsTable(path) && !creat ==>
      (OpenAt(sts[i], pathname, creat, fd) == if Together(sts[i], path) then Opened(fd) else Failed(ENOENT))
    {
      OpenCases(sts[i], sts[i], pathname, creat, fd);
      OpenUndisturbed(sts[i], pathname, creat, fd);
    }
    OpenCases(last, last, pathname, creat, fd);
    OpenUndisturbed(last, pathname, creat, fd);
    OpenCases(first, first, pathname, creat, fd);
    OpenUndisturbed(first, pathname, creat, fd);
    OneLookup(first, last, pathname, creat, fd);
    assert OpenAt(sts[0], pathname, creat, fd) == OpenAt(first, pathname, creat, fd);
    assert OpenAt(sts[|sts| - 1], pathname, creat, fd) == OpenAt(last, pathname, creat, fd);
  }

  function Opened(fd: int): CResult { if fd < 0 then Failed(EMFILE) else Ret(fd) }

  /** A table opened without creation needs itself at the first lookup and the option file at the second. */
  lemma OpenCases(first: Store, second: Store, pathname: string, creat: bool, fd: int)
    ensures
      var path := Normalize(pathname);
      IsTable(path) && !creat ==>
        OpenSplit(first, second, pathname, creat, fd) ==
          if Exists(first, path) && Exists(second, Key(DbOpt(ParseFile(path).value.d))) then Opened(fd)
          else Failed(ENOENT)
  {
    hide ParseFile, EndsWith, IsTempFile, Normalize, RFind, Exists, Key;
    var path := Normalize(pathname);
    if IsKnownFile(path) {
      KeyExtension(ParseFile(path).value);
      OptionFileOf(ParseFile(path).value);
    }
  }

  /** In every other case there is one lookup at most. */
  lemma OneLookup(first: Store, second: Store, pathname: string, creat: bool, fd: int)
    ensures
      var r := OpenSplit(first, second, pathname, creat, fd);
      creat || !IsTable(Normalize(pathname)) ==>
        r == OpenAt(first, pathname, creat, fd) || r == OpenAt(second, pathname, creat, fd)
  {
    hide ParseFile, EndsWith, IsTempFile, Normalize, RFind, Exists, Key;
    var path := Normalize(pathname);
    if IsKnownFile(path) { KeyExtension(ParseFile(path).value); }
  }

  /** A thread removes the table and another, which had opened the missing option file for writing, writes
      it. At no moment can the table be opened, and yet the call that was looking succeeds. */
  lemma OpenRaces(w: World, d: string, t: string, h: int, buf: Buffer, fd: int)
    requires IsName(d) && IsName(t) && 0 <= fd && |buf| <= MAX_SIZE
    requires Exists(w.store, Key(Table(d, t))) && !Exists(w.store, Key(DbOpt(d)))
    requires h in w.handles && w.handles[h] == Handle(Key(DbOpt(d)), 0)
    ensures
      var table := Key(Table(d, t));
      var w1 := Step(w, Unlink(table));
      var w2 := Step(w1, Write(h, buf));
      && OpenSplit(w.store, w2.store, table, false, fd) == Ret(fd)
      && OpenAt(w.store, table, false, fd) == Failed(ENOENT)
      && OpenAt(w1.store, table, false, fd) == Failed(ENOENT)
      && OpenAt(w2.store, table, false, fd) == Failed(ENOENT)
  {
    hide ParseFile, EndsWith, IsTempFile, Normalize, RFind, Key, Copy, Grow, PlanOf;
    var table, option := Key(Table(d, t)), Key(DbOpt(d));
    NormalizeKey(Table(d, t));
    ParseKey(Table(d, t));
    KeyExtension(Table(d, t));
    KeyExtension(DbOpt(d));
    OptionFileOf(Table(d, t));
    var w1 := Step(w, Unlink(table));
    UnlinkTable(w, d, t);
    WriteOption(w1, d, h, buf);
  }

  lemma UnlinkTable(w: World, d: string, t: string)
    requires IsName(d) && IsName(t)
    ensures
      var w1 := Step(w, Unlink(Key(Table(d, t))));
      w1.store == Delete(w.store, Frm, Key(Table(d, t))) && w1.handles == w.handles
  {
    hide EndsWith, Normalize, Key;
    NormalizeKey(Table(d, t));
    KeyExtension(Table(d, t));
    var op := DeleteOp(Frm, Key(Table(d, t)));
    ApplyFew(w.store, op, op);
  }

  lemma WriteOption(w: World, d: string, h: int, buf: Buffer)
    requires IsName(d) && |buf| <= MAX_SIZE && h in w.handles && w.handles[h] == Handle(Key(DbOpt(d)), 0)
    ensures
      var st := Step(w, Write(h, buf)).store;
      exists v :: st == Put(w.store, Db, Key(DbOpt(d)), v)
  {
    hide EndsWith, Key, Copy, Grow;
    KeyExtension(DbOpt(d));
    OverflowTest(0, |buf|);
    var op := PlanOf(w, Write(h, buf)).ops[0];
    ApplyFew(w.store, op, op);
    assert Step(w, Write(h, buf)).store == Put(w.store, Db, Key(DbOpt(d)), op.value);
  }

  /** A database with one table; its option file removed, and then opened to be created again. */
  function Setup(d: string, t: string): seq<Call>
  {
    [Open(Key(DbOpt(d)), true, 0), Write(0, []), Open(Key(Table(d, t)), true, 1), Write(1, []),
     Unlink(Key(DbOpt(d))), Open(Key(DbOpt(d)), true, 2)]
  }

  /** These calls lead from the empty store to where the race can happen. */
  lemma RaceIsReachable(d: string, t: string)
    requires IsName(d) && IsName(t)
    ensures
      var w := Run(EMPTY, Setup(d, t));
      && Exists(w.store, Key(Table(d, t))) && !Exists(w.store, Key(DbOpt(d)))
      && 2 in w.handles && w.handles[2] == Handle(Key(DbOpt(d)), 0)
  {
    hide Run, A.ARun, Key, PlanOf, A.AStep, Results, A.AResults, SameResult, RunOrphans, GetCf, Get, FilesMatch;
    var w := Run(EMPTY, Setup(d, t));
    var a := A.ARun(A.EMPTY_FS, Setup(d, t));
    AbstractSetup(d, t);
    RunFromEmpty(Setup(d, t));
    LookupMatch(w.store, a.files, Table(d, t));
    LookupMatch(w.store, a.files, DbOpt(d));
  }

  lemma AbstractSetup(d: string, t: string)
    requires IsName(d) && IsName(t)
    ensures
      var a := A.ARun(A.EMPTY_FS, Setup(d, t));
      && !RunOrphans(A.EMPTY_FS, Setup(d, t))
      && Table(d, t) in a.files && DbOpt(d) !in a.files && 2 in a.cursors && a.cursors[2] == A.Cursor(DbOpt(d), 0)
  {
    hide A.Classify, Normalize, Key, Overlay;
    var cs := Setup(d, t);
    Classified(DbOpt(d));
    Classified(Table(d, t));
    var o, x := DbOpt(d), Table(d, t);
    var a0 := A.EMPTY_FS;
    var a1 := Creates(a0, o, 0);
    var a2 := Writes(a1, o, 0);
    var a3 := Creates(a2, x, 1);
    var a4 := Writes(a3, x, 1);
    var a5 := a4.(files := a4.files - {o});
    var a6 := Creates(a5, o, 2);
    assert A.AStep(a4, cs[4]).0 == a5;
    SixSteps(cs, a0, a1, a2, a3, a4, a5, a6);
  }

  /** Opening a file to create it. */
  lemma Creates(a: A.Fs, id: FileId, fd: nat) returns (a': A.Fs)
    requires ValidId(id) && (id.Table? ==> DbOpt(id.d) in a.files)
    ensures a' == A.AStep(a, Open(Key(id), true, fd)).0 == a.(cursors := a.cursors[fd := A.Cursor(id, 0)])
  {
    hide A.Classify, Normalize, Key;
    Classified(id);
    a' := a.(cursors := a.cursors[fd := A.Cursor(id, 0)]);
  }

  /** Writing nothing at its start stores an empty file. */
  lemma Writes(a: A.Fs, id: FileId, fd: int) returns (a': A.Fs)
    requires fd in a.cursors && a.cursors[fd] == A.Cursor(id, 0) && id !in a.files
    ensures a' == A.AStep(a, Write(fd, [])).0 == a.(files := a.files[id := []])
  {
    a' := a.(files := a.files[id := []]);
    assert a.cursors[fd := A.Cursor(id, 0)] == a.cursors;
  }

  lemma SixSteps(cs: seq<Call>, a0: A.Fs, a1: A.Fs, a2: A.Fs, a3: A.Fs, a4: A.Fs, a5: A.Fs, a6: A.Fs)
    requires |cs| == 6 && forall i :: 0 <= i < 6 ==> !cs[i].Rename?
    requires A.AStep(a0, cs[0]).0 == a1 && A.AStep(a1, cs[1]).0 == a2 && A.AStep(a2, cs[2]).0 == a3
    requires A.AStep(a3, cs[3]).0 == a4 && A.AStep(a4, cs[4]).0 == a5 && A.AStep(a5, cs[5]).0 == a6
    ensures A.ARun(a0, cs) == a6 && !RunOrphans(a0, cs)
  {
    hide A.AStep;
    assert cs[1..][1..] == cs[2..] && cs[2..][1..] == cs[3..] && cs[3..][1..] == cs[4..] && cs[4..][1..] == cs[5..];
    assert cs[5..][1..] == [];
    assert A.ARun(a6, []) == a6 && A.ARun(a5, cs[5..]) == a6 && A.ARun(a4, cs[4..]) == a6 && A.ARun(a3, cs[3..]) == a6;
    assert A.ARun(a2, cs[2..]) == a6 && A.ARun(a1, cs[1..]) == a6;
    assert !RunOrphans(a6, []) && !RunOrphans(a5, cs[5..]) && !RunOrphans(a4, cs[4..]) && !RunOrphans(a3, cs[3..]);
    assert !RunOrphans(a2, cs[2..]) && !RunOrphans(a1, cs[1..]);
  }

  lemma Classified(id: FileId)
    requires ValidId(id)
    ensures A.Classify(Normalize(Key(id))) == A.File(id)
  {
    hide Key, ParseFile;
    NormalizeKey(id);
    ParseKey(id);
  }
}
