/** Whole lives of an installation: it comes back by itself or by recovery from every allowed life,
    and the lives in which the limits of module Limits show. */
module Lives {
  import opened Text
  import opened Content
  import opened Keys
  import opened Lifecycle
  import opened Continuity
  import opened Limits

  // --- consent to debug mode is recorded -------------------------------------------------

  /** In debug mode every configuration on disk is one that consents. */
  ghost predicate Consents(cfg: Config, db: Option<Database>)
  {
    cfg.debug && db.Some? ==> forall x | x in db.value.ran && x.InsertConfig? :: x.man.debug
  }

  lemma {:induction false} ExecConsents(ran: seq<Stmt>, todo: seq<Stmt>, n: nat, x: Stmt)
    requires x in Exec(ran, todo, n)
    ensures x in ran || x in todo
    decreases |todo|
  {
    if todo != [] && n != 0 && !AlreadyThere(ran, todo[0]) { ExecConsents(ran + [todo[0]], todo[1..], n - 1, x); }
  }

  lemma ScriptRow(m: Manifest, x: Stmt)
    requires x in Script(m) && x.InsertConfig?
    ensures x.man == m
  {
  }

  lemma InitializeConsents(cfg: Config, db: Option<Database>, p: Proc, key: Option<Bytes>, m: Manifest, o: Bootstrap)
    requires Consents(cfg, db)
    ensures Consents(cfg, InitializeWith(cfg, db, p, key, m, o).0)
  {
    hide EncryptRecovery, Script, Exec, Attempted, Restarting, RanToEnd;
    forall x | x in Ran(m, o) && x.InsertConfig? ensures x.man == m {
      ScriptRow(m, x);
    }
    if db.Some? {
      forall x | x in Exec(db.value.ran, Script(m), o.n) && x.InsertConfig? ensures x in db.value.ran || x.man == m {
        ExecConsents(db.value.ran, Script(m), o.n, x);
        if x in Script(m) { ScriptRow(m, x); }
      }
    }
  }

  lemma StartConsents(cfg: Config, db: Option<Database>, p: Proc, a: StartArgs)
    requires Consents(cfg, db)
    ensures Consents(cfg, StartDatabase(cfg, db, p, a).0)
  {
    hide Consents, InitializeWith, Start;
    var p1 := Start(cfg, db, p, a.link).0;
    if a.file.Some? && a.file.value.Some? { InitializeConsents(cfg, db, p1, p1.masterKey, a.file.value.value, a.boot); }
  }

  lemma BootConsents(cfg: Config, host: int, disk: Disk, env: Option<string>, b: BootArgs)
    requires Consents(cfg, disk.db)
    ensures Consents(cfg, Boot(cfg, host, disk, env, b).disk.db)
  {
    hide Consents, StartDatabase, Load, StoreKey, ApplyFiles;
    var p := InitMasterKey(cfg, host, disk, env, b).1;
    if p.Some? { StartConsents(cfg, disk.db, p.value, b.start); }
  }

  lemma NextConsents(cfg: Config, s: Sys, e: Event)
    requires Consents(cfg, s.disk.db)
    ensures Consents(cfg, Next(cfg, s, e).disk.db)
  {
    hide Consents, Boot, InitializeWith, StartDatabase, StoreKey, ApplyFiles, Attempt;
    match e
    case PowerOn(env, b) => BootConsents(cfg, s.host, s.disk, env, b);
    case Restart(keepEnv, b) =>
      if s.proc.Some? { BootConsents(cfg, s.host, s.disk, if keepEnv then s.proc.value.env else None, b); }
    case PostManifest(man, o) =>
      if s.proc.Some? && man.Some? {
        InitializeConsents(cfg, s.disk.db, s.proc.value, s.proc.value.masterKey, man.value, o);
      }
    case Submit(t, o) =>
      if s.proc.Some? && t in s.requests {
        InitializeConsents(cfg, s.disk.db, s.proc.value, s.requests[t].key, s.requests[t].man, o);
      }
    case PostRecover(key, stamp, f, a) =>
      if s.proc.Some? {
        var p, st := s.proc.value, StoreKey(cfg, s.host, s.proc.value.env, s.disk.files, key, stamp, f);
        StartConsents(cfg, s.disk.db, Attempt(p, key, st.env).(locked := true), a);
      }
    case _ =>
  }

  lemma {:induction false} LifeConsents(cfg: Config, s: Sys, es: seq<Event>)
    requires Consents(cfg, s.disk.db)
    ensures Consents(cfg, Life(cfg, s, es).disk.db)
    decreases |es|
  {
    hide Consents, Next;
    if es != [] {
      NextConsents(cfg, s, es[0]);
      LifeConsents(cfg, Next(cfg, s, es[0]), es[1..]);
    }
  }

  lemma {:induction false} ConfigIsRow(ran: seq<Stmt>) returns (i: nat)
    requires ConfigOf(ran).Some?
    ensures i < |ran| && ran[i] == InsertConfig(ConfigOf(ran).value)
    decreases |ran|
  {
    if ran[0].InsertConfig? {
      i := 0;
    } else {
      i := ConfigIsRow(ran[1..]);
      i := i + 1;
    }
  }

  // --- coming back -------------------------------------------------------------------------

  /** The boot finds the key by itself: in the variable, or in a readable file sealed on this host. */
  predicate FindsKey(cfg: Config, host: int, files: Files, env: Option<string>, readFails: bool)
  {
    env.Some? || (Current in files && !readFails && Unseal(cfg, host, files[Current]).Some?)
  }

  ghost predicate RunsAs(proc: Option<Proc>, m: Manifest)
  {
    proc.Some? && proc.value.running && proc.value.sig == Some(Sha256(m.text))
  }

  ghost predicate Waits(proc: Option<Proc>)
  {
    proc.Some? && proc.value.state == Recovering && !proc.value.running && !proc.value.locked && proc.value.starts == 0
  }

  /** A start that meets no failure of its own. */
  predicate Smooth(l: Link) { !l.configFails && !l.setupFails && !l.dialRefused }

  /** Booting over a complete database runs it if and only if the key is found; otherwise the process
      waits for recovery. The disk stays as it was. */
  lemma BootRunsIff(cfg: Config, host: int, disk: Disk, env: Option<string>, b: BootArgs, k: Bytes, m: Manifest)
    requires !cfg.isMarble && DiskOk(disk, None, k, m) && disk.db.Some? && disk.db.value.ran == Script(m)
    requires (cfg.debug ==> m.debug) && (env.Some? ==> env == Var(k)) && Smooth(b.start.link)
    ensures
      var r := Boot(cfg, host, disk, env, b);
      && r.Booted? && r.reply == Ok(None) && r.disk == disk
      && (if FindsKey(cfg, host, disk.files, env, b.readFails) then RunsAs(Some(r.proc), m) else Waits(Some(r.proc)))
  {
    hide HexEncode, HexDecode, Script, ConfigOf;
    VarLoads(k);
    ConfigIffComplete(m, Script(m));
  }

  /** The old sealed file is kept, unless its backup fails. */
  ghost predicate BackedUp(files: Files, files': Files, stamp: nat, f: Faults)
  {
    Current in files && f.backup.Whole? ==> Backup(stamp) in files' && files'[Backup(stamp)] == files[Current]
  }

  /** Recovery with the database's key, over a complete database. */
  lemma RecoverRuns(cfg: Config, host: int, disk: Disk, p: Proc, k: Bytes, stamp: nat, f: Faults, a: StartArgs,
                    m: Manifest)
    requires !cfg.isMarble && disk.db.Some? && disk.db.value == Database(Var(k), Script(m)) && Waits(Some(p))
    requires (cfg.debug ==> m.debug) && Stores(cfg, k, f) && Smooth(a.link)
    ensures
      var r := Recover(cfg, host, disk, p, k, stamp, f, a);
      && r.2.Ok? && RunsAs(Some(r.1), m) && r.0.db == disk.db && r.1.starts == 1 && r.1.state == Recovering && !r.1.locked
      && Current in r.0.files && r.0.files[Current] == Seal(cfg, host, k)
      && BackedUp(disk.files, r.0.files, stamp, f)
  {
    hide HexEncode, HexDecode, Script, ConfigOf, ApplyFiles, StoreWrites;
    AfterStore(disk.files, Seal(cfg, host, k), stamp, f);
    ConfigIffComplete(m, Script(m));
  }

  /** What an allowed life leaves when the database has its configuration. */
  lemma CompleteLife(cfg: Config, host: int, es: seq<Event>) returns (k: Bytes, m: Manifest)
    requires !cfg.isMarble && AllAllowed(cfg, NewInstall(host), es)
    requires var db := Life(cfg, NewInstall(host), es).disk.db; db.Some? && ConfigOf(db.value.ran).Some?
    ensures
      var s := Life(cfg, NewInstall(host), es);
      && Inv(s, k, m) && s.disk.db.value == Database(Var(k), Script(m)) && ConfigOf(s.disk.db.value.ran) == Some(m)
      && (cfg.debug ==> m.debug)
  {
    hide Life, AllAllowed, HexEncode, Script;
    k, m := LifeIsGood(cfg, host, es);
    var s := Life(cfg, NewInstall(host), es);
    ConfigIffComplete(m, s.disk.db.value.ran);
    LifeConsents(cfg, NewInstall(host), es);
    var i := ConfigIsRow(s.disk.db.value.ran);
  }

  /** From every allowed life with a complete database: killed, moved to any host, with whatever is left
      of the key file, and powered on, it runs again by itself if and only if the key file can be read
      and unsealed there; otherwise it waits, and recovery with the database's key, in particular with
      the message of any blob handed out, runs it with the same signature, seals the key anew and keeps
      the old sealed file. */
  lemma ComesBack(cfg: Config, host: int, es: seq<Event>, other: int, b: BootArgs,
                  key: Bytes, stamp: nat, f: Faults, a: StartArgs)
    requires !cfg.isMarble && AllAllowed(cfg, NewInstall(host), es)
    requires var db := Life(cfg, NewInstall(host), es).disk.db;
             db.Some? && ConfigOf(db.value.ran).Some? && db.value.key == Var(key)
    requires Stores(cfg, key, f) && Smooth(b.start.link) && Smooth(a.link)
    ensures
      var s := Life(cfg, NewInstall(host), es);
      var m := ConfigOf(s.disk.db.value.ran).value;
      var s1 := Next(cfg, Next(cfg, Next(cfg, s, Kill), Move(other)), PowerOn(None, b));
      var s2 := Next(cfg, s1, PostRecover(key, stamp, f, a));
      && s1.disk == s.disk
      && (if FindsKey(cfg, other, s.disk.files, None, b.readFails) then RunsAs(s1.proc, m)
          else
            && Waits(s1.proc) && RunsAs(s2.proc, m) && s2.disk.db == s.disk.db
            && Current in s2.disk.files && s2.disk.files[Current] == Seal(cfg, other, key)
            && BackedUp(s.disk.files, s2.disk.files, stamp, f))
      && (forall c | c in s.issued :: c.message == key)
  {
    hide Life, AllAllowed, HexEncode, Script, Boot, Recover, ConfigOf, StoreKey;
    var k, m := CompleteLife(cfg, host, es);
    var s := Life(cfg, NewInstall(host), es);
    HexInjective(k, key);
    BootRunsIff(cfg, other, s.disk, None, b, k, m);
    if !FindsKey(cfg, other, s.disk.files, None, b.readFails) {
      RecoverRuns(cfg, other, s.disk, Boot(cfg, other, s.disk, None, b).proc, key, stamp, f, a, m);
    }
    forall c | c in s.issued ensures c.message == key {
      HexInjective(c.message, key);
    }
  }

  /** From every allowed life with a complete database whose process is about to restart: it runs again
      if and only if the restart keeps the variable or the key file can be unsealed. */
  lemma RestartRuns(cfg: Config, host: int, es: seq<Event>, keepEnv: bool, b: BootArgs)
    requires !cfg.isMarble && AllAllowed(cfg, NewInstall(host), es) && Smooth(b.start.link)
    requires var s := Life(cfg, NewInstall(host), es);
             s.proc.Some? && s.proc.value.restarting && s.disk.db.Some? && ConfigOf(s.disk.db.value.ran).Some?
    ensures
      var s := Life(cfg, NewInstall(host), es);
      var s1 := Next(cfg, s, Restart(keepEnv, b));
      && s1.disk == s.disk
      && (if FindsKey(cfg, s.host, s.disk.files, if keepEnv then s.proc.value.env else None, b.readFails)
          then RunsAs(s1.proc, ConfigOf(s.disk.db.value.ran).value) else Waits(s1.proc))
  {
    hide Life, AllAllowed, HexEncode, Script, Boot, ConfigOf;
    var k, m := CompleteLife(cfg, host, es);
    var s := Life(cfg, NewInstall(host), es);
    BootRunsIff(cfg, s.host, s.disk, if keepEnv then s.proc.value.env else None, b, k, m);
  }

  // --- an installation -----------------------------------------------------------------------

  /** A start that finds nothing in its way. */
  const NO_FILE := StartArgs(SMOOTH, false, None, Bootstrap(false, true, 0, true, false))

  function BootWith(random: Bytes): BootArgs { BootArgs(random, 0, false, NO_FAULTS, NO_FILE) }

  function Completes(m: Manifest): Bootstrap { Bootstrap(false, true, |Script(m)|, true, false) }

  function Install(host: int, key: Bytes, m: Manifest): seq<Event>
  {
    [PowerOn(None, BootWith(key)), PostManifest(Some(m), Completes(m))]
  }

  /** From a new installation: power on, post the manifest. */
  lemma Installed(cfg: Config, host: int, key: Bytes, m: Manifest)
    requires !cfg.isMarble && !cfg.hasManifestPath && (cfg.debug ==> m.debug) && |key| == KEY_SIZE
    requires m.recovery.Public? && KEY_SIZE <= m.recovery.capacity
    ensures
      var s := Life(cfg, NewInstall(host), Install(host, key, m));
      && AllAllowed(cfg, NewInstall(host), Install(host, key, m))
      && s.disk == Disk(map[Current := Seal(cfg, host, key)], Some(Database(Var(key), Script(m))))
      && s.issued == [Rsa(m.recovery.id, key)] && s.host == host
      && s.proc.Some? && s.proc.value.restarting && s.proc.value.env == Var(key)
  {
    hide HexEncode, HexDecode, Script, ApplyFiles;
    var b := Seal(cfg, host, key);
    var s0, es := NewInstall(host), Install(host, key, m);
    ApplyFilesFew(map[], FileWrite(Current, Torn), FileWrite(Current, b), FileWrite(Current, b), FileWrite(Current, b));
    assert StoreWrites(map[], b, 0, NO_FAULTS) == [FileWrite(Current, Torn), FileWrite(Current, b)];
    assert Ran(m, Completes(m)) == Script(m);
    var s1 := Next(cfg, s0, es[0]);
    var s2 := Next(cfg, s1, es[1]);
    FirstStep(cfg, s0, es[0], [es[1]]);
    FirstStep(cfg, s1, es[1], []);
    assert [es[0]] + [es[1]] == es && [es[1]] + [] == [es[1]];
    assert Life(cfg, s2, []) == s2 && AllAllowed(cfg, s2, []);
  }

  /** Right after installation it comes back by itself, with or without the kept environment. */
  lemma InstalledRestarts(cfg: Config, host: int, key: Bytes, m: Manifest, keepEnv: bool, b: BootArgs)
    requires !cfg.isMarble && !cfg.hasManifestPath && (cfg.debug ==> m.debug) && |key| == KEY_SIZE
    requires m.recovery.Public? && KEY_SIZE <= m.recovery.capacity && !b.readFails && Smooth(b.start.link)
    ensures RunsAs(Next(cfg, Life(cfg, NewInstall(host), Install(host, key, m)), Restart(keepEnv, b)).proc, m)
  {
    hide Life, HexEncode, HexDecode, Script, ConfigOf, AllAllowed, Install, Boot;
    Installed(cfg, host, key, m);
    ConfigIffComplete(m, Script(m));
    RestartRuns(cfg, host, Install(host, key, m), keepEnv, b);
  }

  function Moved(cfg: Config, host: int, other: int, key: Bytes, m: Manifest, random: Bytes): Sys
  {
    var s := Life(cfg, NewInstall(host), Install(host, key, m));
    Next(cfg, Next(cfg, Next(cfg, s, Kill), Move(other)), PowerOn(None, BootWith(random)))
  }

  /** Moved to another host after installation, an enclave waits for recovery. */
  lemma MovedAfterInstall(cfg: Config, host: int, other: int, key: Bytes, m: Manifest, random: Bytes)
    requires cfg.enclave && !cfg.isMarble && !cfg.hasManifestPath && (cfg.debug ==> m.debug)
    requires |key| == KEY_SIZE && other != host && m.recovery.Public? && KEY_SIZE <= m.recovery.capacity
    ensures
      var s := Moved(cfg, host, other, key, m, random);
      && Waits(s.proc) && s.host == other && s.disk.db == Some(Database(Var(key), Script(m)))
      && s.proc.value.sig.None? && !s.proc.value.attemptedInit
  {
    hide Life, HexEncode, HexDecode, Script, ApplyFiles, ConfigOf, AllAllowed, Install;
    Installed(cfg, host, key, m);
  }

  /** Two successful recovery calls start the server twice in one process; if the second query finds the
      stale ready flag and no listener, the process ends instead. */
  lemma TwoStarts(cfg: Config, s: Sys, k: Bytes, m: Manifest, stamp: nat, stamp': nat, refused: bool)
    requires !cfg.isMarble && Waits(s.proc) && s.disk.db == Some(Database(Var(k), Script(m)))
    requires (cfg.debug ==> m.debug) && |k| == KEY_SIZE
    ensures
      var s1 := Next(cfg, s, PostRecover(k, stamp, NO_FAULTS, NO_FILE));
      var s2 := Next(cfg, s1, PostRecover(k, stamp', NO_FAULTS, NO_FILE.(link := SMOOTH.(queryRefused := refused))));
      && RunsAs(s1.proc, m) && s1.proc.value.starts == 1
      && (if refused then s2.proc.None? else RunsAs(s2.proc, m) && s2.proc.value.starts == 2)
  {
    hide HexEncode, HexDecode, Script, ApplyFiles, StoreWrites, ConfigOf, Recover;
    var p := s.proc.value;
    RecoverRuns(cfg, s.host, s.disk, p, k, stamp, NO_FAULTS, NO_FILE, m);
    var r := Recover(cfg, s.host, s.disk, p, k, stamp, NO_FAULTS, NO_FILE);
    SecondStart(cfg, s.host, r.0, r.1, k, stamp', m, refused);
  }

  lemma SecondStart(cfg: Config, host: int, disk: Disk, p: Proc, k: Bytes, stamp: nat, m: Manifest, refused: bool)
    requires !cfg.isMarble && p.state == Recovering && !p.locked && p.starts == 1 && RunsAs(Some(p), m)
    requires disk.db == Some(Database(Var(k), Script(m))) && (cfg.debug ==> m.debug) && |k| == KEY_SIZE
    ensures
      var r := Recover(cfg, host, disk, p, k, stamp, NO_FAULTS, NO_FILE.(link := SMOOTH.(queryRefused := refused)));
      if refused then r.2.Died? else r.2.Ok? && RunsAs(Some(r.1), m) && r.1.starts == 2
  {
    hide HexEncode, HexDecode, Script, ApplyFiles, StoreWrites, ConfigOf;
    ConfigIffComplete(m, Script(m));
  }

  /** So it happens to an installation that is moved to another host. */
  lemma AfterTheMove(cfg: Config, host: int, other: int, key: Bytes, m: Manifest, random: Bytes)
    requires cfg.enclave && !cfg.isMarble && !cfg.hasManifestPath && (cfg.debug ==> m.debug)
    requires |key| == KEY_SIZE && other != host && m.recovery.Public? && KEY_SIZE <= m.recovery.capacity
    ensures
      var s := Moved(cfg, host, other, key, m, random);
      var recovered := Next(cfg, s, PostRecover(key, 0, NO_FAULTS, NO_FILE));
      var again := Next(cfg, recovered, PostRecover(key, 1, NO_FAULTS, NO_FILE));
      RunsAs(again.proc, m) && again.proc.value.starts == 2
  {
    hide Next, Script, HexEncode, Moved;
    MovedAfterInstall(cfg, host, other, key, m, random);
    TwoStarts(cfg, Moved(cfg, host, other, key, m, random), key, m, 0, 1, false);
  }

  // --- lives in which limits show -----------------------------------------------------------------

  /** A first boot with a new key. */
  lemma FirstBoot(cfg: Config, host: int, key: Bytes)
    requires !cfg.isMarble && !cfg.hasManifestPath && |key| == KEY_SIZE
    ensures
      var s := Next(cfg, NewInstall(host), PowerOn(None, BootWith(key)));
      && s.disk == Disk(map[Current := Seal(cfg, host, key)], None) && s.host == host && s.issued == []
      && s.proc == Some(NewProc(Var(key), Some(key), false))
  {
    hide HexEncode, HexDecode, ApplyFiles;
    FirstKey(cfg, host, key);
  }

  lemma FirstKey(cfg: Config, host: int, key: Bytes)
    ensures ApplyFiles(map[], StoreWrites(map[], Seal(cfg, host, key), 0, NO_FAULTS))
         == map[Current := Seal(cfg, host, key)]
  {
    AfterStore(map[], Seal(cfg, host, key), 0, NO_FAULTS);
  }

  /** Powered on with a key file that cannot be read. */
  function BootBlind(random: Bytes): BootArgs { BootWith(random).(readFails := true) }

  lemma BlindBoot(cfg: Config, s: Sys, random: Bytes)
    requires !cfg.isMarble && s.proc.None? && Current in s.disk.files
    ensures
      var s' := Next(cfg, s, PowerOn(None, BootBlind(random)));
      && s'.disk == s.disk && s'.host == s.host && s'.issued == s.issued && s'.requests == map[]
      && s'.proc == Some(NewProc(None, None, s.disk.db.Some?))
  {
    hide HexDecode, StartDatabase;
  }

  /** A manifest can get onto an existing database, one that has run nothing: its bootstrap failed at once,
      and a later recovery with its key sets the variable before it fails. */
  lemma EmptyDatabaseFilled(cfg: Config, host: int, key: Bytes, m: Manifest, random: Bytes, m2: Manifest)
    requires !cfg.isMarble && !cfg.hasManifestPath && |key| == KEY_SIZE && (cfg.debug ==> m.debug && m2.debug)
    requires Encryptable(Some(key), m.recovery) && Encryptable(Some(key), m2.recovery)
    ensures
      var s1 := Next(cfg, NewInstall(host), PowerOn(None, BootWith(key)));
      var s2 := Next(cfg, s1, PostManifest(Some(m), Bootstrap(false, true, 0, false, true)));
      var s3 := Next(cfg, Next(cfg, s2, Kill), PowerOn(None, BootBlind(random)));
      var s4 := Next(cfg, s3, PostRecover(key, 0, NO_FAULTS.(mkdir := true), NO_FILE));
      var s5 := Next(cfg, s4, PostManifest(Some(m2), Completes(m2)));
      && s4.disk.db == Some(Database(Var(key), [])) && !s4.proc.value.keyInPlace
      && s5.disk.db == Some(Database(Var(key), Script(m2)))
  {
    hide HexEncode, HexDecode, Script, ApplyFiles, StoreWrites, ConfigOf, Exec;
    FirstBoot(cfg, host, key);
    var s1 := Next(cfg, NewInstall(host), PowerOn(None, BootWith(key)));
    var o := Bootstrap(false, true, 0, false, true);
    assert Ran(m, o) == [];
    var s2 := Next(cfg, s1, PostManifest(Some(m), o));
    assert s2.disk == Disk(s1.disk.files, Some(Database(Var(key), [])));
    BlindBoot(cfg, Next(cfg, s2, Kill), random);
    ExecFresh(m2, Completes(m2));
    assert Ran(m2, Completes(m2)) == Script(m2);
  }

  /** Recovery locks itself out: the manifest file is unreadable at the first boot and readable at the
      recovery. */
  lemma DeadlockHappens(cfg: Config, host: int, key: Bytes, random: Bytes, m: Manifest)
    requires !cfg.isMarble && cfg.hasManifestPath && |key| == KEY_SIZE && |random| == KEY_SIZE
    requires Encryptable(Some(key), m.recovery)
    ensures
      var es := [PowerOn(None, BootWith(key)), PowerOn(None, BootBlind(random)),
                 PostRecover(key, 0, NO_FAULTS, NO_FILE.(file := Some(Some(m))))];
      var s := Life(cfg, NewInstall(host), es);
      AllAllowed(cfg, NewInstall(host), es) && s.proc.Some? && s.proc.value.locked
  {
    hide HexEncode, HexDecode, ApplyFiles, StoreWrites, Script;
    FirstKey(cfg, host, key);
    var e1, e2 := PowerOn(None, BootWith(key)), PowerOn(None, BootBlind(random));
    var e3 := PostRecover(key, 0, NO_FAULTS, NO_FILE.(file := Some(Some(m))));
    var s0 := NewInstall(host);
    var s1 := Next(cfg, s0, e1);
    assert s1.proc.None? && s1.disk == Disk(map[Current := Seal(cfg, host, key)], None);
    BlindBoot(cfg, s1, random);
    var s2 := Next(cfg, s1, e2);
    RecoverDeadlockIff(cfg, host, s2.disk, s2.proc.value, key, 0, NO_FAULTS, e3.start);
    ThreeSteps(cfg, s0, e1, e2, e3);
  }

  lemma ThreeSteps(cfg: Config, s: Sys, a: Event, b: Event, c: Event)
    ensures
      var s1 := Next(cfg, s, a);
      var s2 := Next(cfg, s1, b);
      && Life(cfg, s, [a, b, c]) == Next(cfg, s2, c)
      && (AllAllowed(cfg, s, [a, b, c]) <==> Allowed(s, a) && Allowed(s1, b) && Allowed(s2, c))
  {
    hide Next, Allowed;
    var s1 := Next(cfg, s, a);
    var s2 := Next(cfg, s1, b);
    FirstStep(cfg, s, a, [b, c]);
    FirstStep(cfg, s1, b, [c]);
    FirstStep(cfg, s2, c, []);
    assert [a] + [b, c] == [a, b, c] && [b] + [c] == [b, c] && [c] + [] == [c];
  }

  lemma FirstStep(cfg: Config, s: Sys, e: Event, es: seq<Event>)
    ensures Life(cfg, s, [e] + es) == Life(cfg, Next(cfg, s, e), es)
    ensures AllAllowed(cfg, s, [e] + es) <==> Allowed(s, e) && AllAllowed(cfg, Next(cfg, s, e), es)
  {
    hide Next, Allowed;
    assert ([e] + es)[0] == e && ([e] + es)[1..] == es;
  }

  /** In recovery with a good key in place and no database: reached by powering on, losing the process,
      powering on again and recovering with `k1`. */
  function InRecovery(cfg: Config, host: int, key: Bytes, random: Bytes, k1: Bytes): Sys
  {
    var s1 := Next(cfg, NewInstall(host), PowerOn(None, BootWith(key)));
    var s2 := Next(cfg, Next(cfg, s1, Kill), PowerOn(None, BootBlind(random)));
    Next(cfg, s2, PostRecover(k1, 0, NO_FAULTS, NO_FILE))
  }

  lemma InRecoveryWaits(cfg: Config, host: int, key: Bytes, random: Bytes, k1: Bytes)
    requires !cfg.isMarble && !cfg.hasManifestPath && |key| == KEY_SIZE && |k1| == KEY_SIZE
    ensures
      var s := InRecovery(cfg, host, key, random, k1);
      && s.disk.db.None? && s.host == host && s.issued == [] && s.proc.Some? && s.proc.value.keyInPlace
      && s.proc.value.masterKey == Some(k1) && s.proc.value.env == Var(k1) && s.proc.value.state == Recovering
      && !s.proc.value.locked && !s.proc.value.attemptedInit && s.proc.value.sig.None?
  {
    hide HexEncode, HexDecode, Recover;
    FirstBoot(cfg, host, key);
    var s1 := Next(cfg, NewInstall(host), PowerOn(None, BootWith(key)));
    BlindBoot(cfg, Next(cfg, s1, Kill), random);
    var s2 := Next(cfg, Next(cfg, s1, Kill), PowerOn(None, BootBlind(random)));
    RecoverNothing(cfg, host, s2.disk, s2.proc.value, k1, 0, NO_FAULTS, NO_FILE);
  }

  /** An allowed life leads there. */
  lemma InRecoveryIsAllowed(cfg: Config, host: int, key: Bytes, random: Bytes, k1: Bytes)
    requires !cfg.isMarble && !cfg.hasManifestPath && |key| == KEY_SIZE && |random| == KEY_SIZE
    ensures
      var es := [PowerOn(None, BootWith(key)), Kill, PowerOn(None, BootBlind(random)),
                 PostRecover(k1, 0, NO_FAULTS, NO_FILE)];
      AllAllowed(cfg, NewInstall(host), es) && Life(cfg, NewInstall(host), es) == InRecovery(cfg, host, key, random, k1)
  {
    hide HexEncode, Boot, Recover;
    var a, b, c := PowerOn(None, BootWith(key)), Kill, PowerOn(None, BootBlind(random));
    var d := PostRecover(k1, 0, NO_FAULTS, NO_FILE);
    FirstBoot(cfg, host, key);
    var s1 := Next(cfg, NewInstall(host), a);
    BlindBoot(cfg, Next(cfg, s1, b), random);
    ThreeSteps(cfg, s1, b, c, d);
    FirstStep(cfg, NewInstall(host), a, [b, c, d]);
    assert [a] + [b, c, d] == [a, b, c, d];
  }

  /** A second recovery attempt with a key of the wrong size, and then a manifest: the blob is not for the
      database's key. */
  lemma WrongBlob(cfg: Config, host: int, key: Bytes, random: Bytes, k1: Bytes, bad: Bytes, m: Manifest)
    requires !cfg.isMarble && !cfg.hasManifestPath && (cfg.debug ==> m.debug)
    requires |key| == KEY_SIZE && |k1| == KEY_SIZE && |bad| != KEY_SIZE
    requires m.recovery.Public? && |bad| <= m.recovery.capacity
    ensures
      var s := Next(cfg, InRecovery(cfg, host, key, random, k1), PostRecover(bad, 1, NO_FAULTS, NO_FILE));
      var s' := Next(cfg, s, PostManifest(Some(m), Completes(m)));
      && s'.issued == [Rsa(m.recovery.id, bad)]
      && s'.disk.db.Some? && s'.disk.db.value.key == Var(k1) && Var(k1) != Var(bad)
  {
    hide HexEncode, Recover, Initialize, InRecovery, Script;
    InRecoveryWaits(cfg, host, key, random, k1);
    var s := InRecovery(cfg, host, key, random, k1);
    BlobMatchesIff(cfg, host, s.disk, s.proc.value, bad, 1, NO_FAULTS, NO_FILE, m, Completes(m));
    RecoverNothing(cfg, host, s.disk, s.proc.value, bad, 1, NO_FAULTS, NO_FILE);
    var s1 := Next(cfg, s, PostRecover(bad, 1, NO_FAULTS, NO_FILE));
    CreatedUnder(cfg, s1.proc.value, m, Completes(m));
    if Var(k1) == Var(bad) { HexInjective(k1, bad); }
  }

  /** A new database is created under the variable. */
  lemma CreatedUnder(cfg: Config, p: Proc, m: Manifest, o: Bootstrap)
    ensures
      var db := Initialize(cfg, None, p, Some(m), o).0;
      db.Some? ==> db.value.key == p.env
  {
    hide EncryptRecovery, Script, Ran, RanToEnd, Attempted, Restarting;
  }
}
