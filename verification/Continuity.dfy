/** What every life of an installation keeps: the key of the database, and the all-or-nothing
    bootstrap. */
module Continuity {
  import opened Text
  import opened Content
  import opened Keys
  import opened Lifecycle

  // --- the script -----------------------------------------------------------------

  /** The manifest's statements among those that ran. */
  function SqlOf(ran: seq<Stmt>): seq<string>
    decreases |ran|
  {
    if ran == [] then []
    else
      var rest := SqlOf(ran[..|ran| - 1]);
      var s := ran[|ran| - 1];
      if s.User? then rest + [s.sql] else rest
  }

  /** System tables first, then the manifest's statements, then the configuration. */
  ghost predicate InOrder(ran: seq<Stmt>)
  {
    forall i :: 0 <= i < |ran| ==>
      match ran[i]
      case CreateMysql => i == 0
      case SystemTables => i == 1 && ran[0] == CreateMysql
      case User(_) => SystemTables in ran[..i]
      case CreateEdgeless => SystemTables in ran[..i] && forall j :: i < j < |ran| ==> !ran[j].User?
      case CreateConfig => CreateEdgeless in ran[..i]
      case InsertConfig(_) => CreateConfig in ran[..i] && i == |ran| - 1
  }

  lemma {:induction false} SqlPrefix(ran: seq<Stmt>, m: Manifest)
    requires ran <= Script(m)
    ensures SqlOf(ran) == m.sql[..Min(Max(|ran| - 2, 0), |m.sql|)]
    decreases |ran|
  {
    if ran != [] {
      var n := |ran| - 1;
      SqlPrefix(ran[..n], m);
      assert ran[n] == Script(m)[n];
      if 2 <= n < 2 + |m.sql| { assert m.sql[..n - 2] + [m.sql[n - 2]] == m.sql[..n - 1]; }
    }
  }

  /** What a script says about the statements that ran: the manifest's own, in its order, from the first
      on, all of them once the configuration is there, and each in its place. */
  lemma RunsTheManifest(ran: seq<Stmt>, m: Manifest)
    requires ran <= Script(m)
    ensures SqlOf(ran) <= m.sql && InOrder(ran)
    ensures ran == Script(m) ==> SqlOf(ran) == m.sql && ran != [] && ran[|ran| - 1] == InsertConfig(m)
  {
    hide InOrder, SqlOf, Script;
    SqlPrefix(ran, m);
    ScriptShape(m);
    assert forall i :: 0 <= i < |ran| ==> ran[i] == Script(m)[i];
    PlacesInOrder(ran, |m.sql| + 2);
  }

  /** The kinds of statement at each place of a script whose `CreateEdgeless` is number `n`. */
  predicate Placed(s: Stmt, i: int, n: nat)
  {
    if i == 0 then s == CreateMysql
    else if i == 1 then s == SystemTables
    else if i < n then s.User?
    else if i == n then s == CreateEdgeless
    else if i == n + 1 then s == CreateConfig
    else s.InsertConfig?
  }

  lemma ScriptShape(m: Manifest)
    ensures |Script(m)| == |m.sql| + 5 && Script(m)[|m.sql| + 4] == InsertConfig(m)
    ensures forall i :: 0 <= i < |Script(m)| ==> Placed(Script(m)[i], i, |m.sql| + 2)
  {
  }

  lemma PlacesInOrder(ran: seq<Stmt>, n: nat)
    requires 2 <= n && |ran| <= n + 3 && forall i :: 0 <= i < |ran| ==> Placed(ran[i], i, n)
    ensures InOrder(ran)
  {
    forall i | 0 <= i < |ran|
      ensures i > 1 ==> SystemTables in ran[..i]
      ensures i > n ==> CreateEdgeless in ran[..i]
      ensures i > n + 1 ==> CreateConfig in ran[..i]
    {
      assert i > 1 ==> ran[..i][1] == ran[1] && Placed(ran[1], 1, n);
      assert i > n ==> ran[..i][n] == ran[n] && Placed(ran[n], n, n);
      assert i > n + 1 ==> ran[..i][n + 1] == ran[n + 1] && Placed(ran[n + 1], n + 1, n);
    }
    assert |ran| > 1 ==> Placed(ran[0], 0, n);
  }

  lemma {:induction false} NoConfigBefore(ran: seq<Stmt>)
    requires forall i :: 0 <= i < |ran| ==> !ran[i].InsertConfig?
    ensures ConfigOf(ran).None?
    decreases |ran|
  {
    if ran != [] { NoConfigBefore(ran[1..]); }
  }

  lemma {:induction false} ConfigLast(ran: seq<Stmt>, m: Manifest)
    requires ran != [] && ran[|ran| - 1] == InsertConfig(m)
    requires forall i :: 0 <= i < |ran| - 1 ==> !ran[i].InsertConfig?
    ensures ConfigOf(ran) == Some(m)
    decreases |ran|
  {
    if |ran| > 1 {
      assert ran[1..][|ran| - 2] == ran[|ran| - 1];
      ConfigLast(ran[1..], m);
    }
  }

  /** The configuration is the last thing the script writes, so a partial run has none. */
  lemma ConfigIffComplete(m: Manifest, ran: seq<Stmt>)
    requires ran <= Script(m)
    ensures ConfigOf(ran) == if ran == Script(m) then Some(m) else None
  {
    var full := Script(m);
    assert forall i :: 0 <= i < |full| - 1 ==> !full[i].InsertConfig?;
    if ran == full {
      ConfigLast(full, m);
    } else {
      assert forall i :: 0 <= i < |ran| ==> ran[i] == full[i];
      assert |ran| < |full|;
      NoConfigBefore(ran);
    }
  }

  lemma RanIsPrefix(m: Manifest, o: Bootstrap)
    ensures Ran(m, o) <= Script(m)
  {
    hide Script;
  }

  // --- the invariant -----------------------------------------------------------------

  /** The environment variable that holds `k`. */
  function Var(k: Bytes): Option<string> { Some(HexEncode(k)) }

  function Payload(b: Blob): Option<Bytes> { if b.Torn? then None else Some(b.key) }

  /** The sealed file, if it can be unsealed anywhere, holds `k`. */
  ghost predicate FilesHold(files: Files, k: Bytes)
  {
    Current in files ==> Payload(files[Current]).None? || Payload(files[Current]) == Some(k)
  }

  ghost predicate EnvHolds(p: Proc, k: Bytes) { p.env.None? || p.env == Var(k) }

  /** The database was created under `k`, and nothing on disk or in memory holds another key. */
  ghost predicate KeyedBy(disk: Disk, proc: Option<Proc>, k: Bytes)
  {
    && |k| == KEY_SIZE
    && (disk.db.Some? ==>
          && disk.db.value.key == Var(k)
          && FilesHold(disk.files, k)
          && (proc.Some? ==> EnvHolds(proc.value, k)))
  }

  /** The database holds a prefix of one manifest's script. */
  ghost predicate OneScript(db: Option<Database>, m: Manifest)
  {
    db.Some? ==> db.value.ran <= Script(m)
  }

  /** The process holds one key, in memory and in the environment; before there is a database the
      sealed file, if it can be unsealed anywhere, holds no other. */
  ghost predicate HasKey(disk: Disk, p: Proc)
  {
    && p.masterKey.Some? && |p.masterKey.value| == KEY_SIZE && p.env == Var(p.masterKey.value)
    && (disk.db.None? ==> FilesHold(disk.files, p.masterKey.value))
  }

  /** With a database on disk, this process will refuse a manifest. */
  ghost predicate Refuses(disk: Disk, p: Proc) { disk.db.Some? ==> p.sig.Some? || p.attemptedInit }

  ghost predicate ProcBase(disk: Disk, p: Proc, m: Manifest)
  {
    && (p.restarting ==> disk.db.Some?)
    && !p.wrongKey
    && p.bootstraps == (if p.attemptedInit then 1 else 0)
    && (p.dbAtBoot ==> disk.db.Some? && !p.attemptedInit)
    && (!p.dbAtBoot && !p.attemptedInit ==> disk.db.None?)
    && (p.running ==> p.sig.Some?)
    && (p.sig.Some? ==> disk.db.Some? && disk.db.value.ran == Script(m) && p.sig == Some(Sha256(m.text)))
  }

  ghost predicate ProcOk(disk: Disk, p: Proc, m: Manifest)
  {
    ProcBase(disk, p, m) && (p.keyInPlace ==> HasKey(disk, p) && Refuses(disk, p))
  }

  ghost predicate IssuedOk(issued: seq<Cipher>, db: Option<Database>)
  {
    |issued| <= 1 && forall c | c in issued :: db.Some? && db.value.key == Var(c.message)
  }

  ghost predicate DiskOk(disk: Disk, proc: Option<Proc>, k: Bytes, m: Manifest)
  {
    KeyedBy(disk, proc, k) && OneScript(disk.db, m)
  }

  ghost predicate Inv(s: Sys, k: Bytes, m: Manifest)
  {
    && DiskOk(s.disk, s.proc, k, m)
    && (s.proc.Some? ==> ProcOk(s.disk, s.proc.value, m))
    && IssuedOk(s.issued, s.disk.db)
    && !s.wrongKeyStart
  }

  // --- storing and loading ---------------------------------------------------------------

  /** What storing a key does to the sealed file, faults and all. */
  lemma CurrentAfter(files: Files, b: Blob, stamp: nat, f: Faults)
    ensures
      var files' := ApplyFiles(files, StoreWrites(files, b, stamp, f));
      && (f.write.Whole? ==> Current in files' && files'[Current] == b)
      && (Current in files' ==>
            || files'[Current] == b || files'[Current] == Torn
            || (Current in files && files'[Current] == files[Current]))
  {
    hide ApplyFiles, StoreWrites;
    AfterStore(files, b, stamp, f);
  }

  lemma VarLoads(k: Bytes)
    requires |k| == KEY_SIZE
    ensures LoadFromEnv(Var(k)) == Some(Key(k))
  {
    hide HexEncode, HexDecode;
    HexRoundTrip(k);
  }

  /** Loading gives the one key there is, and leaves it in the environment. */
  lemma LoadFindsKey(cfg: Config, host: int, disk: Disk, env: Option<string>, readFails: bool, k: Bytes)
    requires KeyedBy(disk, None, k) && !cfg.isMarble && (env.Some? ==> env == Var(k))
    ensures
      var r, env' := Load(cfg, host, env, disk.files, readFails).0, Load(cfg, host, env, disk.files, readFails).1;
      && (r.Key? ==> |r.key| == KEY_SIZE && env' == Var(r.key) && (disk.db.Some? ==> r.key == k))
      && (r.NoKey? ==> env'.None?)
      && (r.Key? && env.None? ==> Current in disk.files && Payload(disk.files[Current]) == Some(r.key))
  {
    hide HexEncode, HexDecode;
    VarLoads(k);
  }

  // --- starting and initialising --------------------------------------------------------------

  /** A start under the database's key either runs the whole of one script's database or dies. */
  lemma StartKeeps(cfg: Config, disk: Disk, p: Proc, l: Link, k: Bytes, m: Manifest)
    requires DiskOk(disk, Some(p), k, m) && ProcBase(disk, p, m) && (disk.db.Some? ==> p.env == Var(k))
    ensures
      var (p', r) := Start(cfg, disk.db, p, l);
      && ProcBase(disk, p', m) && (r.Running? ==> p'.sig.Some?)
      && p' == p.(starts := p'.starts, sig := p'.sig, running := p'.running)
  {
    hide ConfigOf, Script, HexEncode, LoadFromEnv;
    if disk.db.Some? {
      ConfigIffComplete(m, disk.db.value.ran);
    }
  }

  /** Whatever key the request has read: a new database is created under the process's key, an existing
      one is left alone, and a blob holds the key that was read. */
  lemma InitializeWithKeeps(cfg: Config, disk: Disk, p: Proc, key: Option<Bytes>, man: Manifest, o: Bootstrap,
                            k: Bytes, m: Manifest)
    returns (k': Bytes, m': Manifest)
    requires DiskOk(disk, Some(p), k, m) && ProcBase(disk, p, m) && HasKey(disk, p) && Refuses(disk, p)
    ensures
      var (db', p', r) := InitializeWith(cfg, disk.db, p, key, man, o);
      var disk' := Disk(disk.files, db');
      && DiskOk(disk', Some(p'), k', m') && ProcBase(disk', p', m') && HasKey(disk', p') && Refuses(disk', p')
      && (disk.db.Some? ==> db' == disk.db)
      && (r.Ok? ==> disk.db.None? && db' == Some(Database(p.env, Script(man))))
      && (r.Ok? && r.blob.Some? ==> r.blob.value.message == if key.Some? then key.value else [])
      && p'.keyInPlace == p.keyInPlace && p'.locked == p.locked
  {
    hide Script, HexEncode, LoadFromEnv, ConfigOf, Ran, Exec;
    k', m' := k, m;
    if disk.db.None? {
      k', m' := p.masterKey.value, man;
      RanIsPrefix(man, o);
      assert [] + Script(man) == Script(man);
    }
  }

  lemma InitializeKeeps(cfg: Config, disk: Disk, p: Proc, man: Option<Manifest>, o: Bootstrap, k: Bytes, m: Manifest)
    returns (k': Bytes, m': Manifest)
    requires DiskOk(disk, Some(p), k, m) && ProcBase(disk, p, m) && HasKey(disk, p) && Refuses(disk, p)
    ensures
      var (db', p', r) := Initialize(cfg, disk.db, p, man, o);
      var disk' := Disk(disk.files, db');
      && DiskOk(disk', Some(p'), k', m') && ProcBase(disk', p', m') && HasKey(disk', p') && Refuses(disk', p')
      && (disk.db.Some? ==> db' == disk.db)
      && (r.Ok? && r.blob.Some? ==> disk.db.None? && db'.Some? && db'.value.key == Var(r.blob.value.message))
      && p'.keyInPlace == p.keyInPlace && p'.locked == p.locked
  {
    hide InitializeWith, Script, HexEncode, DiskOk, ProcBase, Refuses;
    k', m' := k, m;
    if man.Some? { k', m' := InitializeWithKeeps(cfg, disk, p, p.masterKey, man.value, o, k, m); }
  }

  /** Starting the database, and initialising it when a manifest file is configured. */
  lemma StartDatabaseKeeps(cfg: Config, disk: Disk, p: Proc, a: StartArgs, k: Bytes, m: Manifest)
    returns (k': Bytes, m': Manifest)
    requires DiskOk(disk, Some(p), k, m) && ProcBase(disk, p, m) && HasKey(disk, p)
    requires disk.db.Some? ==> p.env == Var(k)
    ensures
      var (db', p', r) := StartDatabase(cfg, disk.db, p, a);
      var disk' := Disk(disk.files, db');
      && DiskOk(disk', Some(p'), k', m') && ProcBase(disk', p', m') && HasKey(disk', p')
      && (r.Ok? ==> Refuses(disk', p'))
      && (disk.db.Some? ==> db' == disk.db)
      && (r.Ok? && r.blob.Some? ==> disk.db.None? && db'.Some? && db'.value.key == Var(r.blob.value.message))
      && p'.keyInPlace == p.keyInPlace
  {
    hide Initialize, Start, Script, HexEncode;
    StartKeeps(cfg, disk, p, a.link, k, m);
    k', m' := k, m;
    var (p1, started) := Start(cfg, disk.db, p, a.link);
    StartReplies(cfg, disk.db, p, a.link);
    if started.NotInitializedYet? && cfg.hasManifestPath && a.file.Some? {
      k', m' := InitializeKeeps(cfg, disk, p1, a.file.value, a.boot, k, m);
    }
  }

  lemma StartReplies(cfg: Config, db: Option<Database>, p: Proc, l: Link)
    ensures Start(cfg, db, p, l).1.NotInitializedYet? <==> db.None?
  {
  }

  // --- events ---------------------------------------------------------------------------

  ghost predicate BootOk(before: Disk, b: Booted, k: Bytes, m: Manifest)
  {
    && (before.db.Some? ==> b.disk.db == before.db)
    && DiskOk(b.disk, None, k, m)
    && (b.Booted? ==>
          && !b.proc.wrongKey
          && (b.reply.Ok? ==> DiskOk(b.disk, Some(b.proc), k, m) && ProcOk(b.disk, b.proc, m))
          && (b.reply.Ok? && b.reply.blob.Some? ==>
                before.db.None? && b.disk.db.Some? && b.disk.db.value.key == Var(b.reply.blob.value.message)))
  }

  lemma BootKeeps(cfg: Config, host: int, disk: Disk, env: Option<string>, b: BootArgs, k: Bytes, m: Manifest)
    returns (k': Bytes, m': Manifest)
    requires !cfg.isMarble && DiskOk(disk, None, k, m) && |b.random| == KEY_SIZE
    requires env.Some? ==> disk.db.Some? && env == Var(k)
    ensures BootOk(disk, Boot(cfg, host, disk, env, b), k', m')
  {
    hide Load, StartDatabase, Script, HexEncode, StoreWrites, ApplyFiles;
    k', m' := k, m;
    LoadFindsKey(cfg, host, disk, env, b.readFails, k);
    var (files, proc) := InitMasterKey(cfg, host, disk, env, b);
    CurrentAfter(disk.files, Seal(cfg, host, b.random), b.stamp, b.faults);
    if proc.Some? && proc.value.state == Initialized {
      var p := proc.value;
      k', m' := StartDatabaseKeeps(cfg, Disk(files, disk.db), p, b.start, k, m);
    }
  }

  /** The disk and the process after recovery has stored, or failed to store, its key. */
  lemma StoringKeeps(cfg: Config, host: int, disk: Disk, p: Proc, key: Bytes, stamp: nat, f: Faults,
                     k: Bytes, m: Manifest)
    requires DiskOk(disk, Some(p), k, m) && ProcBase(disk, p, m) && (disk.db.Some? ==> key == k)
    ensures
      var st := StoreKey(cfg, host, p.env, disk.files, key, stamp, f);
      var disk1 := Disk(ApplyFiles(disk.files, st.writes), disk.db);
      var p1 := p.(masterKey := Some(key), env := st.env, keyInPlace := false);
      && DiskOk(disk1, Some(p1), k, m) && ProcBase(disk1, p1, m)
      && (st.error.None? ==> HasKey(disk1, p1) && (disk.db.Some? ==> p1.env == Var(k)))
  {
    hide Script, HexEncode, StoreWrites, ApplyFiles;
    CurrentAfter(disk.files, Seal(cfg, host, key), stamp, f);
    ApplyNone(disk.files);
  }

  lemma RecoverKeeps(cfg: Config, s: Sys, key: Bytes, stamp: nat, f: Faults, a: StartArgs, k: Bytes, m: Manifest)
    returns (k': Bytes, m': Manifest)
    requires !cfg.isMarble && Inv(s, k, m) && s.proc.Some? && Allowed(s, PostRecover(key, stamp, f, a))
    ensures Inv(Next(cfg, s, PostRecover(key, stamp, f, a)), k', m')
  {
    hide StartDatabase, Script, HexEncode, StoreKey, ApplyFiles, DiskOk, ProcBase, HasKey;
    k', m' := k, m;
    var p := s.proc.value;
    var st := StoreKey(cfg, s.host, p.env, s.disk.files, key, stamp, f);
    if s.disk.db.Some? { HexSame(s.disk, s.proc, k, m, key); }
    NoProcOk(s.disk, p, k, m);
    StoringKeeps(cfg, s.host, s.disk, p, key, stamp, f, k, m);
    NoProcOk(Disk(ApplyFiles(s.disk.files, st.writes), s.disk.db),
             p.(masterKey := Some(key), env := st.env, keyInPlace := false), k, m);
    if p.state == Recovering && !p.locked && st.error.None? {
      var p1 := p.(masterKey := Some(key), env := st.env, keyInPlace := false, locked := true);
      var disk1 := Disk(ApplyFiles(s.disk.files, st.writes), s.disk.db);
      Toggle(disk1, p1.(locked := p.locked), k, m, true, false);
      k', m' := StartDatabaseKeeps(cfg, disk1, p1, a, k, m);
      StartDatabaseLocked(cfg, s.disk.db, p1, a);
      var r := StartDatabase(cfg, s.disk.db, p1, a);
      Toggle(Disk(disk1.files, r.0), r.1, k', m', false, r.2.Ok?);
      NoProcOk(Disk(disk1.files, r.0), r.1, k', m');
    }
  }

  /** The mutex and the bookkeeping of recovery do not matter to the rest of the invariant. */
  lemma Toggle(disk: Disk, p: Proc, k: Bytes, m: Manifest, lock: bool, inPlace: bool)
    requires DiskOk(disk, Some(p), k, m) && ProcBase(disk, p, m)
    ensures
      var q := p.(locked := lock, keyInPlace := inPlace);
      && DiskOk(disk, Some(q), k, m) && ProcBase(disk, q, m)
      && (HasKey(disk, p) <==> HasKey(disk, q)) && (Refuses(disk, p) <==> Refuses(disk, q))
  {
    hide Script, HexEncode;
  }

  lemma NoProcOk(disk: Disk, p: Proc, k: Bytes, m: Manifest)
    requires DiskOk(disk, Some(p), k, m) && ProcBase(disk, p, m)
    ensures DiskOk(disk, None, k, m) && !p.wrongKey
  {
    hide Script, HexEncode;
  }

  lemma HexSame(disk: Disk, proc: Option<Proc>, k: Bytes, m: Manifest, key: Bytes)
    requires DiskOk(disk, proc, k, m) && disk.db.Some? && disk.db.value.key == Some(HexEncode(key))
    ensures k == key
  {
    hide HexEncode;
    HexInjective(k, key);
  }

  /** With the mutex held, a start hands out no blob. */
  lemma StartDatabaseLocked(cfg: Config, db: Option<Database>, p: Proc, a: StartArgs)
    requires p.locked
    ensures
      var r := StartDatabase(cfg, db, p, a);
      r.0 == db && (r.2.Ok? ==> r.2.blob.None?)
  {
    hide ConfigOf, EncryptRecovery;
  }

  /** A blob is only ever added to an empty list. */
  lemma IssueKeeps(issued: seq<Cipher>, db: Option<Database>, r: Reply, db': Option<Database>)
    requires IssuedOk(issued, db) && (db.Some? ==> db' == db)
    requires r.Ok? && r.blob.Some? ==> db.None? && db'.Some? && db'.value.key == Var(r.blob.value.message)
    ensures IssuedOk(Issue(issued, r), db')
  {
    hide HexEncode;
    assert issued != [] ==> issued[0] in issued;
  }

  lemma ManifestKeeps(cfg: Config, s: Sys, man: Option<Manifest>, o: Bootstrap, k: Bytes, m: Manifest)
    returns (k': Bytes, m': Manifest)
    requires Inv(s, k, m) && s.proc.Some? && Allowed(s, PostManifest(man, o))
    ensures Inv(Next(cfg, s, PostManifest(man, o)), k', m')
  {
    hide Initialize, Script, HexEncode;
    k', m' := InitializeKeeps(cfg, s.disk, s.proc.value, man, o, k, m);
    var r := Initialize(cfg, s.disk.db, s.proc.value, man, o);
    IssueKeeps(s.issued, s.disk.db, r.2, r.0);
  }

  /** A request that gets the mutex with the key it has read still in place. */
  lemma SubmitKeeps(cfg: Config, s: Sys, t: int, o: Bootstrap, k: Bytes, m: Manifest)
    returns (k': Bytes, m': Manifest)
    requires Inv(s, k, m) && s.proc.Some? && t in s.requests && Allowed(s, Submit(t, o))
    ensures Inv(Next(cfg, s, Submit(t, o)), k', m')
  {
    hide InitializeWith, Script, HexEncode;
    k', m' := InitializeWithKeeps(cfg, s.disk, s.proc.value, s.requests[t].key, s.requests[t].man, o, k, m);
    var r := InitializeWith(cfg, s.disk.db, s.proc.value, s.requests[t].key, s.requests[t].man, o);
    IssueKeeps(s.issued, s.disk.db, r.2, r.0);
  }

  lemma AfterBootKeeps(s: Sys, b: Booted, k: Bytes, m: Manifest)
    requires IssuedOk(s.issued, s.disk.db) && !s.wrongKeyStart && BootOk(s.disk, b, k, m)
    ensures Inv(AfterBoot(s, b), k, m)
  {
    hide Script, HexEncode, ProcBase, HasKey, DiskOk;
    IssueKeeps(s.issued, s.disk.db, if b.Booted? then b.reply else Error, b.disk.db);
  }

  /** Every allowed event keeps the invariant. */
  lemma NextKeeps(cfg: Config, s: Sys, e: Event, k: Bytes, m: Manifest) returns (k': Bytes, m': Manifest)
    requires !cfg.isMarble && Inv(s, k, m) && Allowed(s, e)
    ensures Inv(Next(cfg, s, e), k', m')
  {
    hide Boot, Initialize, Recover, Script, HexEncode;
    k', m' := k, m;
    match e
    case PowerOn(env, b) =>
      if s.proc.None? {
        k', m' := BootKeeps(cfg, s.host, s.disk, None, b, k, m);
        AfterBootKeeps(s, Boot(cfg, s.host, s.disk, None, b), k', m');
      }
    case Restart(keepEnv, b) =>
      if s.proc.Some? && s.proc.value.restarting {
        var env := if keepEnv then s.proc.value.env else None;
        k', m' := BootKeeps(cfg, s.host, s.disk, env, b, k, m);
        AfterBootKeeps(s, Boot(cfg, s.host, s.disk, env, b), k', m');
      }
    case PostManifest(man, o) =>
      if s.proc.Some? { k', m' := ManifestKeeps(cfg, s, man, o, k, m); }
    case Submit(t, o) =>
      if s.proc.Some? && t in s.requests { k', m' := SubmitKeeps(cfg, s, t, o, k, m); }
    case PostRecover(key, stamp, f, a) =>
      if s.proc.Some? { k', m' := RecoverKeeps(cfg, s, key, stamp, f, a, k, m); }
    case _ =>
  }

  lemma {:induction false} LifeKeeps(cfg: Config, s: Sys, es: seq<Event>, k: Bytes, m: Manifest)
    returns (k': Bytes, m': Manifest)
    requires !cfg.isMarble && Inv(s, k, m) && AllAllowed(cfg, s, es)
    ensures Inv(Life(cfg, s, es), k', m')
    decreases |es|
  {
    hide Inv, Next, Allowed;
    k', m' := k, m;
    if es != [] {
      var k1, m1 := NextKeeps(cfg, s, es[0], k, m);
      k', m' := LifeKeeps(cfg, Next(cfg, s, es[0]), es[1..], k1, m1);
    }
  }

  lemma LifeIsGood(cfg: Config, host: int, es: seq<Event>) returns (k: Bytes, m: Manifest)
    requires !cfg.isMarble && AllAllowed(cfg, NewInstall(host), es)
    ensures Inv(Life(cfg, NewInstall(host), es), k, m)
  {
    hide Next, Allowed;
    k, m := LifeKeeps(cfg, NewInstall(host), es, Zeros(KEY_SIZE), Manifest([], [], false, NoRecovery));
  }

  // --- the main results --------------------------------------------------------------------

  /** Key continuity. Over every allowed life of a standalone installation, with manifest requests that
      overlap each other and recovery: no start ever meets a database of another key; at most one recovery
      blob is ever handed out, and it decrypts to the database's key; and a key in the environment next to
      a database is that database's. */
  lemma KeyContinuity(cfg: Config, host: int, es: seq<Event>)
    requires !cfg.isMarble && AllAllowed(cfg, NewInstall(host), es)
    ensures
      var s := Life(cfg, NewInstall(host), es);
      && !s.wrongKeyStart
      && |s.issued| <= 1
      && (forall c | c in s.issued :: s.disk.db.Some? && s.disk.db.value.key == Var(c.message))
      && (s.proc.Some? && s.disk.db.Some? && s.proc.value.env.Some? ==> s.proc.value.env == s.disk.db.value.key)
  {
    hide Life, AllAllowed;
    var k, m := LifeIsGood(cfg, host, es);
  }

  /** A database on disk keeps the process from ever making a new key: booting leaves the files alone. */
  lemma BootKeepsFiles(cfg: Config, host: int, disk: Disk, env: Option<string>, b: BootArgs)
    requires disk.db.Some?
    ensures Boot(cfg, host, disk, env, b).disk.files == disk.files
  {
    hide Load, StartDatabase;
  }

  /** All or nothing. Over every allowed life: a signature is shown only of a database that ran one
      manifest's whole script, with all of the manifest's statements, each once and in order, and it is
      that manifest's digest; any database has run the manifest's statements from the first on, in their
      place; and a process bootstraps at most once, and only if there was no database when it booted. */
  lemma AllOrNothing(cfg: Config, host: int, es: seq<Event>) returns (m: Manifest)
    requires !cfg.isMarble && AllAllowed(cfg, NewInstall(host), es)
    ensures
      var s := Life(cfg, NewInstall(host), es);
      && (s.disk.db.Some? ==>
            s.disk.db.value.ran <= Script(m) && SqlOf(s.disk.db.value.ran) <= m.sql && InOrder(s.disk.db.value.ran))
      && (s.proc.Some? ==>
            var p := s.proc.value;
            && (p.sig.Some? ==>
                  && s.disk.db.Some? && s.disk.db.value.ran == Script(m) && SqlOf(s.disk.db.value.ran) == m.sql
                  && p.sig == Some(Sha256(m.text)))
            && (p.running ==> p.sig.Some?)
            && p.bootstraps <= 1 && (p.bootstraps == 1 ==> !p.dbAtBoot))
  {
    hide Life, AllAllowed, Script, InOrder, SqlOf;
    var k;
    k, m := LifeIsGood(cfg, host, es);
    var s := Life(cfg, NewInstall(host), es);
    if s.disk.db.Some? { RunsTheManifest(s.disk.db.value.ran, m); }
  }
}
