/** The Go objects of the life cycle, statement by statement. Each method computes what module Lifecycle
    says and keeps the invariant of module Continuity; the mutex is locked only when free and released
    only when held, on every path. */
module Core {
  import opened Text
  import opened Content
  import opened Keys
  import opened Lifecycle
  import opened Continuity

  /** What outlives a Go object: the environment variable, the key files and the data directory. */
  class Machine {
    var env: Option<string>
    var files: Files
    var db: Option<Database>
  }

  class Mariadb {
    const cfg: Config
    const machine: Machine
    var attemptedInit: bool
    var sig: Option<Digest>
    var starts: nat   // the server's ready flag stays set after the first
    ghost var running: bool
    ghost var wrongKey: bool
    ghost var bootstraps: nat

    constructor (cfg: Config, machine: Machine)
      ensures this.cfg == cfg && this.machine == machine
      ensures !attemptedInit && sig.None? && !running && starts == 0 && !wrongKey && bootstraps == 0
    {
      this.cfg, this.machine := cfg, machine;
      attemptedInit, sig, starts := false, None, 0;
      running, wrongKey, bootstraps := false, false, 0;
    }

    /** The object's part of a process. */
    ghost predicate Matches(p: Proc)
      reads this, machine
    {
      && p.attemptedInit == attemptedInit && p.sig == sig && p.running == running && p.starts == starts
      && p.wrongKey == wrongKey && p.bootstraps == bootstraps && p.env == machine.env
    }

    method Start(l: Link, ghost p: Proc) returns (r: StartReply)
      requires Matches(p)
      modifies this
      ensures
        r == Lifecycle.Start(cfg, machine.db, p, l).1 && Matches(Lifecycle.Start(cfg, machine.db, p, l).0)
    {
      hide ConfigOf, Launched, Signed;
      if machine.db.None? {
        return NotInitializedYet;
      }
      LaunchFields(p, machine.db.value.key);
      if l.configFails {
        return StartFailed;
      }
      var d := machine.db.value;
      var staleFlag := 0 < starts;
      starts := starts + 1;
      wrongKey := wrongKey || d.key != machine.env;
      if d.key != machine.env {
        return StartDied;
      }
      var man := ConfigOf(d.ran);
      if man.None? || (staleFlag && l.queryRefused) {
        return StartDied;
      }
      if cfg.debug && !man.value.debug {
        return StartPanicked;
      }
      SignFields(Launched(p, d.key), man.value, !l.setupFails);
      sig := Some(Sha256(man.value.text));
      if l.setupFails {
        return StartPanicked;
      }
      running := true;
      // the final connection is refused only by a server that has already started
      r := if l.dialRefused then StartPanicked else Running;
    }

    method Initialize(m: Manifest, o: Bootstrap, ghost p: Proc) returns (r: Reply)
      requires Matches(p)
      modifies this, machine`db
      ensures
        var (db', p', r') := InitDatabase(cfg, old(machine.db), p, m, o);
        machine.db == db' && r == r' && Matches(p')
    {
      hide Ran, Script, Exec;
      if sig.Some? {
        return Error;
      }
      if attemptedInit {
        return Error;
      }
      if cfg.debug && !m.debug {
        return Error;
      }
      if o.configFails {
        return Error;
      }
      attemptedInit := true;
      bootstraps := bootstraps + 1;
      var opens, toEnd := Opens(machine.db, machine.env), RanToEnd(machine.db, machine.env, m, o);
      machine.db := Bootstrapped(machine.db, machine.env, m, o);
      if !o.exitOk || !opens {
        return Panicked;
      }
      r := if o.logError || !toEnd then Error else Ok(None);
    }
  }

  class Core {
    const cfg: Config
    const host: int
    const machine: Machine
    const db: Mariadb
    var state: CoreState
    var masterKey: Option<Bytes>
    var locked: bool
    var restarting: bool
    ghost var dbAtBoot: bool
    ghost var keyInPlace: bool
    // the key and the manifest this installation is about
    ghost var key: Bytes
    ghost var origin: Manifest

    ghost predicate Valid()
      reads this
    {
      db.machine == machine && db.cfg == cfg
    }

    ghost function View(): Proc
      reads this, db, machine
    {
      Proc(machine.env, masterKey, state, locked, db.attemptedInit, db.sig, db.running, restarting,
           db.starts, db.wrongKey, db.bootstraps, dbAtBoot, keyInPlace)
    }

    ghost function DiskView(): Disk
      reads machine
    {
      Disk(machine.files, machine.db)
    }

    ghost function SysView(): Sys
      reads this, db, machine
    {
      Sys(host, DiskView(), Some(View()), map[], [], false)
    }

    /** One key, one manifest: what every life of the installation keeps. */
    ghost predicate Good()
      reads this, db, machine
    {
      Inv(SysView(), key, origin)
    }

    /** Nothing has happened to the objects yet. */
    ghost predicate New()
      reads this, db
    {
      && Valid() && state == Uninitialized && masterKey.None? && !locked && !restarting
      && db.sig.None? && !db.attemptedInit && !db.running && db.starts == 0 && !db.wrongKey && db.bootstraps == 0
    }

    constructor (cfg: Config, host: int, machine: Machine, db: Mariadb, ghost key: Bytes, ghost origin: Manifest)
      requires db.machine == machine && db.cfg == cfg
      requires db.sig.None? && !db.attemptedInit && !db.running && db.starts == 0 && !db.wrongKey && db.bootstraps == 0
      ensures New() && this.cfg == cfg && this.host == host && this.machine == machine && this.db == db
      ensures this.key == key && this.origin == origin
    {
      this.cfg, this.host, this.machine, this.db := cfg, host, machine, db;
      state, masterKey, locked, restarting, keyInPlace, dbAtBoot := Uninitialized, None, false, false, false, false;
      this.key, this.origin := key, origin;
    }

    // --- the mutex ---------------------------------------------------------------

    method Lock()
      requires !locked
      modifies this`locked
      ensures locked && View() == WithLock(old(View()), true)
    {
      locked := true;
    }

    method Unlock()
      requires locked
      modifies this`locked
      ensures !locked && View() == WithLock(old(View()), false)
    {
      locked := false;
    }

    // --- key.go ----------------------------------------------------------------

    method LoadMasterKey(readFails: bool) returns (r: KeyResult)
      requires Valid()
      modifies machine`env
      ensures (r, machine.env) == Load(cfg, host, old(machine.env), machine.files, readFails)
    {
      hide HexEncode, HexDecode;
      var fromEnv := LoadFromEnv(machine.env);
      if fromEnv.Some? {
        return fromEnv.value;
      }
      if cfg.isMarble {
        return NoKey(NotProvidedByMarblerun);
      }
      if Current !in machine.files {
        return NoKey(NotExist);
      }
      if readFails {
        return NoKey(CannotRead);
      }
      var key := Unseal(cfg, host, machine.files[Current]);
      if key.None? {
        return NoKey(CannotUnseal);
      }
      if |key.value| != KEY_SIZE {
        return NoKey(WrongSize);
      }
      machine.env := Some(HexEncode(key.value));
      r := Key(key.value);
    }

    /** `WriteFile`: truncates first, so an interrupted write leaves a torn file. */
    method WriteTo(name: FileName, b: Blob, o: WriteOutcome)
      modifies machine`files
      ensures machine.files == ApplyFiles(old(machine.files), WriteFile(name, b, o))
    {
      hide ApplyFiles;
      var t, w := FileWrite(name, Torn), FileWrite(name, b);
      ApplyFilesFew(machine.files, t, w, w, w);
      if !o.Nothing? {
        machine.files := machine.files[name := Torn];
      }
      if o.Whole? {
        machine.files := machine.files[name := b];
      }
    }

    method StoreMasterKey(key: Bytes, stamp: nat, f: Faults) returns (error: Option<KeyError>)
      requires Valid()
      modifies machine`env, machine`files
      ensures
        var s := StoreKey(cfg, host, old(machine.env), old(machine.files), key, stamp, f);
        error == s.error && machine.env == s.env && machine.files == ApplyFiles(old(machine.files), s.writes)
    {
      hide HexEncode, ApplyFiles;
      ghost var files := machine.files;
      ApplyNone(files);
      if |key| != KEY_SIZE {
        return Some(WrongSize);
      }
      machine.env := Some(HexEncode(key));
      if cfg.enclave && f.seal {
        return Some(CannotStore);
      }
      var blob := Seal(cfg, host, key);
      if f.mkdir {
        return Some(CannotStore);
      }
      ghost var backup := [];
      if Current in machine.files {
        backup := WriteFile(Backup(stamp), machine.files[Current], f.backup);
        WriteTo(Backup(stamp), machine.files[Current], f.backup);
      }
      ApplyConcat(files, backup, WriteFile(Current, blob, f.write));
      WriteTo(Current, blob, f.write);
      error := if f.write.Whole? then None else Some(CannotStore);
    }

    /** Takes the key over before it is checked or stored. */
    method SetMasterKey(key: Bytes, stamp: nat, f: Faults) returns (error: Option<KeyError>)
      requires Valid() && !cfg.isMarble
      modifies this`masterKey, machine`env, machine`files
      ensures
        var s := StoreKey(cfg, host, old(machine.env), old(machine.files), key, stamp, f);
        && error == s.error
        && View() == old(View()).(masterKey := Some(key), env := s.env)
        && DiskView() == Disk(ApplyFiles(old(machine.files), s.writes), old(machine.db))
    {
      hide StoreKey, ApplyFiles;
      masterKey := Some(key);
      error := StoreMasterKey(key, stamp, f);
    }

    // --- core.go ----------------------------------------------------------------

    /** On a good installation with a key in place, a successful call has created the database, run the
        whole script under the key in the variable, and hands out that very key. */
    method Initialize(man: Option<Manifest>, o: Bootstrap) returns (r: Reply)
      requires Valid()
      modifies this`locked, this`restarting, this`key, this`origin, db, machine`db
      ensures (machine.db, View(), r) == Lifecycle.Initialize(cfg, old(machine.db), old(View()), man, o)
      ensures locked == old(locked)
      ensures old(Good()) && Allowed(old(SysView()), PostManifest(man, o)) ==>
                && Good()
                && (r.Ok? ==>
                      && old(machine.db).None?
                      && machine.db == Some(Database(machine.env, Script(man.value)))
                      && (r.blob.Some? ==> machine.env == Var(r.blob.value.message)))
    {
      hide Lifecycle.Initialize, Inv, Allowed, HexEncode, Script;
      ghost var s := SysView();
      r := InitializeSteps(man, o);
      if Inv(s, key, origin) && Allowed(s, PostManifest(man, o)) {
        ghost var k, m := ManifestKeeps(cfg, s, man, o, key, origin);
        InitializeOk(cfg, s, man, o, key, origin);
        SameInv(Next(cfg, s, PostManifest(man, o)), k, m);
        key, origin := k, m;
      }
    }

    /** The statements of `Initialize`. */
    method InitializeSteps(man: Option<Manifest>, o: Bootstrap) returns (r: Reply)
      requires Valid()
      modifies this`locked, this`restarting, db, machine`db
      ensures (machine.db, View(), r) == Lifecycle.Initialize(cfg, old(machine.db), old(View()), man, o)
      ensures locked == old(locked)
    {
      hide Lifecycle.InitializeWith;
      if man.None? {
        return Error;
      }
      // not under the mutex
      var key := masterKey;
      r := InitializeWith(key, man.value, o);
    }

    /** The rest of it, with the key as it was read. */
    method InitializeWith(key: Option<Bytes>, man: Manifest, o: Bootstrap) returns (r: Reply)
      requires Valid()
      modifies this`locked, this`restarting, db, machine`db
      ensures (machine.db, View(), r) == Lifecycle.InitializeWith(cfg, old(machine.db), old(View()), key, man, o)
      ensures locked == old(locked)
    {
      hide EncryptRecovery, Bootstrapped, InitDatabase, HexEncode, Script, Restarting;
      var blob := EncryptRecovery(key, man.recovery);
      if blob.None? {
        return Error;
      }
      if locked {
        return Deadlock;
      }
      ghost var before := View();
      Lock();
      r := db.Initialize(man, o, before);
      InitTouches(cfg, old(machine.db), before, man, o);
      if r.Ok? {
        restarting := true;
        r := Ok(blob.value);
      }
      Unlock();
    }

    /** Fails under Marblerun only. */
    method GenerateReport(fails: bool) returns (error: bool)
      ensures error <==> cfg.isMarble && fails
    {
      error := cfg.isMarble && fails;
    }

    method StartDatabase(a: StartArgs) returns (r: Reply)
      requires Valid()
      modifies this`locked, this`restarting, this`key, this`origin, db, machine`db
      ensures (machine.db, View(), r) == Lifecycle.StartDatabase(cfg, old(machine.db), old(View()), a)
      ensures locked == old(locked)
    {
      hide Lifecycle.Initialize, Lifecycle.Start, Inv, Allowed;
      StartUntouched(cfg, machine.db, View(), a.link);
      var started := db.Start(a.link, View());
      match started {
        case StartDied => return Died;
        case StartPanicked => return Panicked;
        case StartFailed => return Error;
        case _ =>
      }
      var error := GenerateReport(a.reportFails);
      if error {
        return Error;
      }
      if started.Running? {
        return Ok(None);
      }
      if cfg.hasManifestPath {
        if a.file.None? {
          return Error;
        }
        r := Initialize(a.file.value, a.boot);
      } else {
        r := if cfg.isMarble then Error else Ok(None);
      }
    }

    /** On a good installation, given the key of the database there is, a successful call runs that
        database with its manifest's signature, and the mutex is free unless the call never returns. */
    method Recover(key: Bytes, stamp: nat, f: Faults, a: StartArgs) returns (r: Reply)
      requires Valid() && !locked
      modifies this, db, machine
      ensures Valid()
      ensures (DiskView(), View(), r) == Lifecycle.Recover(cfg, host, old(DiskView()), old(View()), key, stamp, f, a)
      ensures locked <==> r.Deadlock?
      ensures !r.Died? && !cfg.isMarble && old(Good()) && Allowed(old(SysView()), PostRecover(key, stamp, f, a)) ==>
                && Good()
                && (r.Ok? && old(machine.db).Some? ==>
                      machine.db == old(machine.db) && db.running && db.sig == Some(Sha256(origin.text)))
    {
      hide Lifecycle.StartDatabase, StoreKey, ApplyFiles, Inv, Allowed;
      ghost var s := SysView();
      ghost var k, m := this.key, origin;
      ghost var good := !cfg.isMarble && Good() && Allowed(s, PostRecover(key, stamp, f, a));
      if good {
        k, m := RecoverKeeps(cfg, s, key, stamp, f, a, k, m);
        RecoverOk(cfg, s, key, stamp, f, a, k, m);
      }
      r := RecoverSteps(key, stamp, f, a);
      if good {
        SameInv(Next(cfg, s, PostRecover(key, stamp, f, a)), k, m);
        this.key, origin := k, m;
      }
    }

    /** The statements of `Recover`. */
    method RecoverSteps(key: Bytes, stamp: nat, f: Faults, a: StartArgs) returns (r: Reply)
      requires Valid() && !locked
      modifies this, db, machine
      ensures Valid()
      ensures (DiskView(), View(), r) == Lifecycle.Recover(cfg, host, old(DiskView()), old(View()), key, stamp, f, a)
      ensures locked <==> r.Deadlock?
    {
      hide Lifecycle.StartDatabase, Lifecycle.Recover, WhileLocked, Inv, Allowed, WithLock;
      RecoverCases(cfg, host, DiskView(), View(), key, stamp, f, a);
      Lock();
      r := Error;
      if state == Recovering && !cfg.isMarble {
        r := SetKeyAndStart(key, stamp, f, a);
      }
      // deferred, so not reached if the call never returns
      if !r.Deadlock? {
        Unlock();
      }
    }

    method SetKeyAndStart(key: Bytes, stamp: nat, f: Faults, a: StartArgs) returns (r: Reply)
      requires Valid() && locked && !cfg.isMarble
      modifies this, db, machine
      ensures Valid() && locked
      ensures (DiskView(), View(), r) == WhileLocked(cfg, host, old(DiskView()), old(View()), key, stamp, f, a)
    {
      hide Lifecycle.StartDatabase, StoreKey, ApplyFiles, Inv, Allowed;
      keyInPlace := false;
      var error := SetMasterKey(key, stamp, f);
      if error.Some? {
        return Error;
      }
      r := StartDatabase(a);
      if !r.Deadlock? {
        keyInPlace := r.Ok?;
      }
    }

    method IsRecovering() returns (b: bool)
      requires !locked
      modifies this`locked
      ensures !locked && (b <==> state == Recovering)
    {
      Lock();
      b := state == Recovering;
      Unlock();
    }

    /** `mustInitMasterKey` on a new object. */
    method MustInitMasterKey(b: BootArgs) returns (panicked: bool)
      requires New()
      modifies this, machine
      ensures Valid() && machine.db == old(machine.db)
      ensures (machine.files, if panicked then None else Some(View()))
           == InitMasterKey(cfg, host, old(DiskView()), old(machine.env), b)
      ensures key == old(key) && origin == old(origin) && !locked
    {
      hide Load, StoreKey, ApplyFiles;
      panicked := false;
      var rocksDbExists := machine.db.Some?;
      dbAtBoot := rocksDbExists;
      var r := LoadMasterKey(b.readFails);
      if r == NoKey(NotExist) && !rocksDbExists {
        var error := StoreMasterKey(b.random, b.stamp, b.faults);
        if error.Some? {
          return true;
        }
        r := Key(b.random);
      } else if r == NoKey(NotProvidedByMarblerun) {
        return true;
      }
      if r.NoKey? {
        state := Recovering;
        keyInPlace := false;
        return;
      }
      state := Initialized;
      masterKey := Some(r.key);
      keyInPlace := true;
    }

    /** `run`, up to serving: None when the process panicked before it had a key or a state. On a disk that
        holds one key and one manifest's database, a process that comes up is good, whatever is missing. */
    method Run(b: BootArgs) returns (r: Option<Reply>)
      requires New()
      modifies this, db, machine
      ensures Valid()
      ensures (if r.None? then NoProcess(DiskView()) else Booted(DiskView(), View(), r.value))
           == Boot(cfg, host, old(DiskView()), old(machine.env), b)
      ensures && r.Some? && r.value.Ok? && !cfg.isMarble && |b.random| == KEY_SIZE
              && old(DiskOk(DiskView(), None, key, origin))
              && (old(machine.env).Some? ==> old(machine.db).Some? && old(machine.env) == Var(old(key)))
              ==> Good()
    {
      hide InitMasterKey, Lifecycle.StartDatabase, DiskOk, ProcOk, HexEncode;
      ghost var disk, env, k, m := DiskView(), machine.env, key, origin;
      ghost var good := && !cfg.isMarble && |b.random| == KEY_SIZE && DiskOk(disk, None, key, origin)
                        && (env.Some? ==> disk.db.Some? && env == Var(key));
      if good {
        k, m := BootKeeps(cfg, host, disk, env, b, key, origin);
      }
      var panicked := MustInitMasterKey(b);
      if panicked {
        return None;
      }
      var recovering := IsRecovering();
      if recovering {
        var error := GenerateReport(b.start.reportFails);
        r := Some(if error then Error else Ok(None));
      } else {
        var reply := StartDatabase(b.start);
        r := Some(reply);
      }
      key, origin := k, m;
    }
  }

  /** What initialising the database changes in the process. */
  lemma InitTouches(cfg: Config, db: Option<Database>, p: Proc, m: Manifest, o: Bootstrap)
    ensures
      var q := InitDatabase(cfg, db, p, m, o).1;
      && Untouched(p, q) && q.restarting == p.restarting
      && Untouched(p, Restarting(q)) && SameServer(q, Restarting(q)) && Restarting(q).restarting
  {
    hide Bootstrapped, RanToEnd;
  }

  /** What belongs to the core. */
  predicate Untouched(p: Proc, q: Proc)
  {
    && p.masterKey == q.masterKey && p.state == q.state && p.locked == q.locked
    && p.dbAtBoot == q.dbAtBoot && p.keyInPlace == q.keyInPlace
  }

  /** What belongs to the database object. */
  predicate SameServer(p: Proc, q: Proc)
  {
    && p.env == q.env && p.attemptedInit == q.attemptedInit && p.sig == q.sig && p.running == q.running
    && p.starts == q.starts && p.wrongKey == q.wrongKey && p.bootstraps == q.bootstraps
  }

  predicate SameRest(p: Proc, q: Proc)
  {
    p.attemptedInit == q.attemptedInit && p.bootstraps == q.bootstraps && p.env == q.env
  }

  lemma StartUntouched(cfg: Config, db: Option<Database>, p: Proc, l: Link)
    ensures
      var q := Start(cfg, db, p, l).0;
      Untouched(p, q) && q.restarting == p.restarting
  {
    hide ConfigOf, Launched, Signed;
    if db.Some? {
      LaunchUntouched(p, db.value.key);
      var man := ConfigOf(db.value.ran);
      if man.Some? { SignUntouched(Launched(p, db.value.key), man.value, !l.setupFails); }
    }
  }

  lemma LaunchUntouched(p: Proc, key: Option<string>)
    ensures Untouched(p, Launched(p, key)) && Launched(p, key).restarting == p.restarting
  {
  }

  lemma SignUntouched(p: Proc, m: Manifest, serves: bool)
    ensures Untouched(p, Signed(p, m, serves)) && Signed(p, m, serves).restarting == p.restarting
  {
  }

  lemma LaunchFields(p: Proc, key: Option<string>)
    ensures
      var q := Launched(p, key);
      && q.starts == p.starts + 1 && q.wrongKey == (p.wrongKey || key != p.env) && SameRest(p, q)
      && q.sig == p.sig && q.running == p.running
  {
  }

  lemma SignFields(p: Proc, m: Manifest, serves: bool)
    ensures
      var q := Signed(p, m, serves);
      && q.sig == Some(Sha256(m.text)) && q.running == (p.running || serves) && SameRest(p, q)
      && q.starts == p.starts && q.wrongKey == p.wrongKey
  {
  }

  function WithLock(p: Proc, held: bool): Proc { p.(locked := held) }

  /** Recovery between taking and releasing the mutex. */
  function WhileLocked(cfg: Config, host: int, disk: Disk, p: Proc, key: Bytes, stamp: nat, f: Faults, a: StartArgs)
    : (Disk, Proc, Reply)
  {
    var s := StoreKey(cfg, host, p.env, disk.files, key, stamp, f);
    var files := ApplyFiles(disk.files, s.writes);
    var p1 := Attempt(p, key, s.env);
    if s.error.Some? then (Disk(files, disk.db), p1, Error)
    else
      var r := StartDatabase(cfg, disk.db, p1, a);
      (Disk(files, r.0), if r.2.Deadlock? then r.1 else r.1.(keyInPlace := r.2.Ok?), r.2)
  }

  lemma RecoverCases(cfg: Config, host: int, disk: Disk, p: Proc, key: Bytes, stamp: nat, f: Faults, a: StartArgs)
    requires !p.locked
    ensures
      var r := Recover(cfg, host, disk, p, key, stamp, f, a);
      var t := WhileLocked(cfg, host, disk, WithLock(p, true), key, stamp, f, a);
      if p.state != Recovering || cfg.isMarble then r == (disk, p, Error)
      else r == (t.0, if t.2.Deadlock? then t.1 else WithLock(t.1, false), t.2)
  {
    hide StartDatabase, StoreKey, ApplyFiles, Attempt;
    var env := StoreKey(cfg, host, p.env, disk.files, key, stamp, f).env;
    AttemptLock(p, key, env);
    assert WithLock(p, true).env == p.env;
  }

  lemma AttemptLock(p: Proc, key: Bytes, env: Option<string>)
    ensures Attempt(WithLock(p, true), key, env) == Attempt(p, key, env).(locked := true)
    ensures !p.locked ==> WithLock(Attempt(WithLock(p, true), key, env), false) == Attempt(p, key, env)
  {
  }

  /** The invariant does not depend on requests and issued blobs. */
  lemma SameInv(s: Sys, k: Bytes, m: Manifest)
    requires Inv(s, k, m)
    ensures Inv(s.(requests := map[], issued := []), k, m) && !s.wrongKeyStart
  {
    hide DiskOk, ProcOk;
  }

  lemma InitializeOk(cfg: Config, s: Sys, man: Option<Manifest>, o: Bootstrap, k: Bytes, m: Manifest)
    requires Inv(s, k, m) && s.proc.Some? && Allowed(s, PostManifest(man, o))
    ensures
      var r := Initialize(cfg, s.disk.db, s.proc.value, man, o);
      r.2.Ok? ==>
        && s.disk.db.None? && r.0 == Some(Database(s.proc.value.env, Script(man.value)))
        && (r.2.blob.Some? ==> s.proc.value.env == Var(r.2.blob.value.message))
  {
    hide Script, HexEncode, InitializeWith;
    if man.Some? {
      var k', m' := InitializeWithKeeps(cfg, s.disk, s.proc.value, s.proc.value.masterKey, man.value, o, k, m);
    }
  }

  lemma RecoverOk(cfg: Config, s: Sys, key: Bytes, stamp: nat, f: Faults, a: StartArgs, k: Bytes, m: Manifest)
    requires s.proc.Some? && Inv(Next(cfg, s, PostRecover(key, stamp, f, a)), k, m) && !s.proc.value.locked
    ensures
      var r := Recover(cfg, s.host, s.disk, s.proc.value, key, stamp, f, a);
      r.2.Ok? && s.disk.db.Some? ==> r.0.db == s.disk.db && r.1.running && r.1.sig == Some(Sha256(m.text))
  {
    hide HexEncode, Script, ConfigOf, StoreKey, ApplyFiles, DiskOk, HasKey;
  }
}
