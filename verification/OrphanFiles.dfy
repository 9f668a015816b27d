/** What a temporary file renamed onto a `db.opt` leaves behind, and who sees it. */
module OrphanFiles {
  import opened Text
  import opened Paths
  import opened Content
  import opened KeyOrder
  import opened FileLayer
  import opened AbstractFiles
  import opened Refinement
  import opened FileLaws
  import opened Directories

  /** The listing of its folder shows the orphan, as `db.opt`. */
  lemma OrphanListed(w: World, d: string)
    requires KeySpace(w.store) && HasOrphan(w.store, d)
    ensures
      var r := DirResult(w.store, "./" + d + "/");
      r.Names? && "db.opt" in r.names
  {
    hide Key, DirResult, KeySpace;
    TablesExact(w, d);
    assert ValidId(DbOpt(d)) && BaseName(DbOpt(d)) == "db.opt";
    assert StoredIn(w.store, d, "db.opt");
  }

  /** The world without the orphan of `d`. */
  function Without(w: World, d: string): World { w.(store := Delete(w.store, Frm, Key(DbOpt(d)))) }

  lemma LookupsSkipOrphan(st: Store, d: string, p: string)
    requires IsName(d)
    ensures
      var st' := Delete(st, Frm, Key(DbOpt(d)));
      Lookup(st', p) == Lookup(st, p) && (EndsWith(p, ".frm") ==> Get(st', Frm, p) == Get(st, Frm, p))
  {
    hide Key, EndsWith;
    KeyExtension(DbOpt(d));
  }

  /** Nothing but a folder listing shows it: every other call does and reports the same with and without
      the orphan. */
  lemma OrphanOnlyListed(w: World, c: Call, d: string)
    requires IsName(d) && (c.Dir? ==> Normalize(c.path) == ".")
    ensures PlanOf(Without(w, d), c) == PlanOf(w, c)
  {
    hide Key, EndsWith, Normalize, ParseFile, ParseFolder, IsTempFile, Copy, Grow, AddSigned, Lookup, Get, RFind;
    forall p ensures
      var st' := Delete(w.store, Frm, Key(DbOpt(d)));
      Lookup(st', p) == Lookup(w.store, p) && (EndsWith(p, ".frm") ==> Get(st', Frm, p) == Get(w.store, Frm, p))
    {
      LookupsSkipOrphan(w.store, d, p);
    }
    if c.Dir? {
      SameDatabases(w.store, d);
    }
  }

  lemma SameDatabases(st: Store, d: string)
    ensures KeysOf(Delete(st, Frm, Key(DbOpt(d))), Db) == KeysOf(st, Db)
  {
    hide Key;
    var st' := Delete(st, Frm, Key(DbOpt(d)));
    forall k | k in KeysOf(st, Db) ensures k in KeysOf(st', Db) {
      assert In(Db, k) in st';
    }
  }

  /** From the empty store, a temporary file with content and one rename. */
  function OrphaningCalls(src: string, v: Value, d: string): seq<Call>
  {
    [Memfs(map[src := v]), Rename(src, Key(DbOpt(d)))]
  }

  /** The run that breaks the agreement: the rename reports success, the file it should have made does
      not exist, and the folder of `d` lists a `db.opt` that no call can remove. */
  lemma OrphaningRun(src: string, v: Value, d: string)
    requires EndsWith(src, ".frm~") && v != [] && IsName(d)
    ensures
      var calls := OrphaningCalls(src, v, d);
      var w := Run(EMPTY, calls);
      && RunOrphans(EMPTY_FS, calls) && Results(EMPTY, calls)[1] == Ret(0)
      && !Refines(w, ARun(EMPTY_FS, calls))
      && HasOrphan(w.store, d) && !Exists(w.store, Key(DbOpt(d)))
  {
    hide Key, EndsWith, ParseFile, ParseFolder, IsTempFile, HasOrphan, Refines;
    var calls := OrphaningCalls(src, v, d);
    var w1, a1 := World(map[], map[src := v], map[]), Fs(map[], map[src := v], map[]);
    var c := calls[1];
    ParseKey(DbOpt(d));
    assert Orphans(a1, c);
    assert Step(EMPTY, calls[0]) == w1 && AStep(EMPTY_FS, calls[0]).0 == a1;
    assert calls[1..] == [c] && calls[1..][1..] == [];
    assert RunOrphans(a1, [c]);
    TempRenameOps(w1, src, DbOpt(d));
    var put := PutOp(Frm, Key(DbOpt(d)), v);
    ApplyFew(map[], put, put);
    assert Run(w1, [c]) == Step(w1, c) && Run(EMPTY, calls) == Step(w1, c);
    assert Results(w1, [c])[0] == Ret(0);
    OnlyOrphan(d, v);
    OrphanBreaks(Step(w1, c), ARun(EMPTY_FS, calls), d);
  }

  lemma OnlyOrphan(d: string, v: Value)
    requires IsName(d)
    ensures
      var st := Put(map[], Frm, Key(DbOpt(d)), v);
      HasOrphan(st, d) && !Exists(st, Key(DbOpt(d)))
  {
    hide Key, EndsWith;
    KeyExtension(DbOpt(d));
  }

  /** One such run, written out. */
  lemma OrphaningExample()
    ensures RunOrphans(EMPTY_FS, [Memfs(map["./d/t.frm~" := [1]]), Rename("./d/t.frm~", "./d/db.opt")])
  {
    hide RunOrphans, EndsWith, Key;
    assert EndsWith("./d/t.frm~", ".frm~") by { LiteralEnds(); }
    assert Key(DbOpt("d")) == "./d/db.opt" by { LiteralKey(); }
    OrphaningRun("./d/t.frm~", [1], "d");
  }

  lemma LiteralEnds()
    ensures EndsWith("./d/t.frm~", ".frm~")
  {
    assert "./d/t.frm~"[5..] == ".frm~";
  }

  lemma LiteralKey()
    ensures Key(DbOpt("d")) == "./d/db.opt"
  {
  }
}
