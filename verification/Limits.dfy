/** Exact conditions for promises the life cycle keeps only under them. */
module Limits {
  import opened Text
  import opened Content
  import opened Keys
  import opened Lifecycle
  import opened Continuity

  /** The key is stored: it has the right size, and neither sealing, the directory nor the write fails. */
  predicate Stores(cfg: Config, key: Bytes, f: Faults)
  {
    |key| == KEY_SIZE && !(cfg.enclave && f.seal) && !f.mkdir && f.write.Whole?
  }

  // --- what the calls leave alone -----------------------------------------------------------

  /** The key, the variable and the state are not changed by initialising or starting. */
  lemma InitializeTouches(cfg: Config, db: Option<Database>, p: Proc, key: Option<Bytes>, m: Manifest, o: Bootstrap)
    ensures
      var q := InitializeWith(cfg, db, p, key, m, o).1;
      && q.env == p.env && q.masterKey == p.masterKey && q.state == p.state && q.starts == p.starts
      && q.locked == p.locked && q.sig == p.sig && q.running == p.running
  {
    hide EncryptRecovery, Bootstrapped, RanToEnd, Attempted, Restarting;
    AttemptedTouches(p);
  }

  lemma AttemptedTouches(p: Proc)
    ensures forall q | q == Attempted(p) || q == Restarting(Attempted(p)) ::
      && q.env == p.env && q.masterKey == p.masterKey && q.state == p.state && q.starts == p.starts
      && q.locked == p.locked && q.sig == p.sig && q.running == p.running
  {
  }

  lemma StartOnly(cfg: Config, db: Option<Database>, p: Proc, l: Link)
    ensures
      var q := Start(cfg, db, p, l).0;
      && q.env == p.env && q.masterKey == p.masterKey && q.state == p.state && q.locked == p.locked
      && q.starts == p.starts + if db.Some? && !l.configFails then 1 else 0
  {
    hide ConfigOf, Launched, Signed;
    if db.Some? {
      var p1 := Launched(p, db.value.key);
      LaunchedTouches(p, db.value.key);
      if ConfigOf(db.value.ran).Some? { SignedTouches(p1, ConfigOf(db.value.ran).value, !l.setupFails); }
    }
  }

  lemma LaunchedTouches(p: Proc, key: Option<string>)
    ensures
      var q := Launched(p, key);
      && q.env == p.env && q.masterKey == p.masterKey && q.state == p.state && q.locked == p.locked
      && q.starts == p.starts + 1 && q.wrongKey == (p.wrongKey || key != p.env)
      && q.sig == p.sig && q.running == p.running
  {
  }

  lemma SignedTouches(p: Proc, m: Manifest, serves: bool)
    ensures
      var q := Signed(p, m, serves);
      && q.env == p.env && q.masterKey == p.masterKey && q.state == p.state && q.locked == p.locked
      && q.starts == p.starts && q.wrongKey == p.wrongKey && q.sig == Some(Sha256(m.text))
      && q.running == (p.running || serves)
  {
  }

  lemma StartTouches(cfg: Config, db: Option<Database>, p: Proc, a: StartArgs)
    ensures
      var q := StartDatabase(cfg, db, p, a).1;
      && q.env == p.env && q.masterKey == p.masterKey && q.state == p.state && q.locked == p.locked
      && q.starts == p.starts + if db.Some? && !a.link.configFails then 1 else 0
  {
    hide InitializeWith, Start;
    StartOnly(cfg, db, p, a.link);
    var p1 := Start(cfg, db, p, a.link).0;
    if a.file.Some? && a.file.value.Some? {
      InitializeTouches(cfg, db, p1, p1.masterKey, a.file.value.value, a.boot);
    }
  }

  /** The manifest asks for no recovery blob, or its key can encrypt the master key. */
  predicate Encryptable(key: Option<Bytes>, r: Recovery)
  {
    r.NoRecovery? || (r.Public? && (if key.Some? then |key.value| else 0) <= r.capacity)
  }

  // --- recovery ---------------------------------------------------------------------

  /** Recovery locks itself out exactly when it stores its key, finds no database, and a configured
      manifest file is readable with a recovery entry that can encrypt the key. In every other case,
      errors and panics included, it returns with the mutex released. */
  lemma RecoverDeadlockIff(cfg: Config, host: int, disk: Disk, p: Proc, key: Bytes, stamp: nat, f: Faults, a: StartArgs)
    requires !p.locked
    ensures
      var (_, p', reply) := Recover(cfg, host, disk, p, key, stamp, f, a);
      && (reply.Deadlock? <==>
            && p.state == Recovering && !cfg.isMarble && Stores(cfg, key, f)
            && disk.db.None? && cfg.hasManifestPath
            && a.file.Some? && a.file.value.Some?
            && Encryptable(Some(key), a.file.value.value.recovery))
      && (p'.locked <==> reply.Deadlock?)
  {
    hide HexEncode, StoreWrites, ApplyFiles, ConfigOf, InitDatabase;
  }

  /** A bootstrap of a new database that runs to its end without an error. */
  predicate Succeeds(m: Manifest, o: Bootstrap)
  {
    !o.configFails && o.dir && |Script(m)| <= o.n && o.exitOk && !o.logError
  }

  /** Recovery assigns the key before it checks its size. Initialising right after a recovery attempt,
      whatever went wrong in it, hands out a blob that decrypts to the new database's key if and only
      if the attempted key had the right size. */
  lemma BlobMatchesIff(cfg: Config, host: int, disk: Disk, p: Proc, key: Bytes, stamp: nat, f: Faults, a: StartArgs,
                       m: Manifest, o: Bootstrap)
    requires p.state == Recovering && !p.locked && !p.attemptedInit && p.sig.None? && disk.db.None?
    requires !cfg.isMarble && !cfg.hasManifestPath && (cfg.debug ==> m.debug)
    requires p.env.None? || exists e: Bytes :: |e| == KEY_SIZE && p.env == Var(e)
    requires m.recovery.Public? && |key| <= m.recovery.capacity
    requires Succeeds(m, o)
    ensures
      var (disk1, p1, _) := Recover(cfg, host, disk, p, key, stamp, f, a);
      var (db, _, reply) := Initialize(cfg, disk1.db, p1, Some(m), o);
      && reply == Ok(Some(Rsa(m.recovery.id, key))) && db.Some?
      && (db.value.key == Var(key) <==> |key| == KEY_SIZE)
  {
    hide HexEncode, Recover, Script, Attempted, Restarting;
    RecoverNothing(cfg, host, disk, p, key, stamp, f, a);
    assert [] + Script(m) == Script(m);
    forall e: Bytes | Var(e) == Var(key) ensures e == key {
      HexInjective(e, key);
    }
  }

  /** Without a database and without a manifest file, recovery comes down to taking the key over. */
  lemma RecoverNothing(cfg: Config, host: int, disk: Disk, p: Proc, key: Bytes, stamp: nat, f: Faults, a: StartArgs)
    requires p.state == Recovering && !p.locked && disk.db.None? && !cfg.isMarble && !cfg.hasManifestPath
    ensures
      var r := Recover(cfg, host, disk, p, key, stamp, f, a);
      && r.0.db.None? && r.1.masterKey == Some(key) && r.1.env == (if |key| == KEY_SIZE then Var(key) else p.env)
      && !r.1.locked && r.1.attemptedInit == p.attemptedInit && r.1.sig == p.sig && r.1.state == Recovering
      && (r.1.keyInPlace <==> Stores(cfg, key, f)) && (r.2.Ok? <==> Stores(cfg, key, f)) && !r.2.Died?
  {
    hide HexEncode, ApplyFiles, StoreWrites;
  }

  /** A recovery call starts the server exactly when a process in recovery stores its key, there is a
      database and the configuration can be written; otherwise it starts nothing. */
  lemma RecoverStartsIff(cfg: Config, host: int, disk: Disk, p: Proc, key: Bytes, stamp: nat, f: Faults, a: StartArgs)
    ensures
      var p' := Recover(cfg, host, disk, p, key, stamp, f, a).1;
      && p'.state == p.state
      && p'.starts == p.starts +
           if p.state == Recovering && !cfg.isMarble && Stores(cfg, key, f) && disk.db.Some? && !a.link.configFails
           then 1 else 0
  {
    hide HexEncode, StoreWrites, ApplyFiles, StartDatabase;
    var st := StoreKey(cfg, host, p.env, disk.files, key, stamp, f);
    StartTouches(cfg, disk.db, Attempt(p, key, st.env).(locked := true), a);
  }

  // --- manifests ------------------------------------------------------------------------

  /** Initialising has no state guard. A manifest changes an existing database exactly when the key
      variable is that database's key, this process has neither shown its signature nor tried to
      initialise, the manifest can be accepted, and the database has not got even its first statement. */
  lemma ManifestChangesDatabaseIff(cfg: Config, d: Database, p: Proc, man: Option<Manifest>, o: Bootstrap)
    ensures
      var db := Initialize(cfg, Some(d), p, man, o).0;
      && (db != Some(d) <==>
            && man.Some? && Encryptable(p.masterKey, man.value.recovery) && !p.locked
            && d.key == p.env && p.sig.None? && !p.attemptedInit
            && (cfg.debug ==> man.value.debug) && !o.configFails && 0 < o.n && CreateMysql !in d.ran)
      && (db != Some(d) && d.ran == [] ==> db == Some(d.(ran := Ran(man.value, o))))
  {
    hide Script, Ran, Exec;
    if man.Some? {
      ExecChangesIff(d.ran, man.value, o.n);
      ExecFresh(man.value, o);
    }
  }

  lemma {:induction false} ExecGrows(ran: seq<Stmt>, todo: seq<Stmt>, n: nat)
    ensures ran <= Exec(ran, todo, n)
    decreases |todo|
  {
    if todo != [] && n != 0 { ExecGrows(ran + [todo[0]], todo[1..], n - 1); }
  }

  /** The first statement of every script is one that cannot run twice. */
  lemma ExecChangesIff(ran: seq<Stmt>, m: Manifest, n: nat)
    ensures Exec(ran, Script(m), n) != ran <==> 0 < n && CreateMysql !in ran
  {
    if 0 < n && CreateMysql !in ran {
      ExecGrows(ran + [Script(m)[0]], Script(m)[1..], n - 1);
      assert |ran + [Script(m)[0]]| > |ran|;
    }
  }

  /** On a database that has run nothing a script gets as far as on a new one. */
  lemma ExecFresh(m: Manifest, o: Bootstrap)
    ensures Exec([], Script(m), o.n) == Ran(m, o)
  {
    hide Exec;
    var s := Script(m);
    assert forall i, j :: 0 <= i < j < |s| ==> !AlreadyThere([s[i]], s[j]) by { hide AlreadyThere; Distinct(m); }
    ExecPrefix(s, 0, o.n);
    assert s[..0] == [] && s[0..] == s && s[..|s|] == s;
  }

  /** No statement of a script finds what an earlier one made. */
  lemma Distinct(m: Manifest)
    ensures forall i, j :: 0 <= i < j < |Script(m)| ==> !AlreadyThere([Script(m)[i]], Script(m)[j])
  {
    var s := Script(m);
    forall i, j | 0 <= i < j < |s| && !s[j].User? && !s[j].InsertConfig? ensures s[i] != s[j] {
    }
  }

  lemma {:induction false} ExecPrefix(s: seq<Stmt>, i: nat, n: nat)
    requires i <= |s| && forall k, j :: 0 <= k < j < |s| ==> !AlreadyThere([s[k]], s[j])
    ensures Exec(s[..i], s[i..], n) == if i + n <= |s| then s[..i + n] else s[..|s|]
    decreases |s| - i
  {
    if i < |s| && n != 0 {
      assert s[i..][0] == s[i] && s[i..][1..] == s[i + 1..] && s[..i] + [s[i]] == s[..i + 1];
      assert !AlreadyThere(s[..i], s[i]) by {
        if s[i] in s[..i] {
          var k :| 0 <= k < i && s[..i][k] == s[i];
          assert !AlreadyThere([s[k]], s[i]);
        }
      }
      ExecPrefix(s, i + 1, n - 1);
    }
  }

  /** Nothing disturbs the handshake. */
  predicate Quiet(p: Proc, l: Link)
  {
    !l.configFails && !(0 < p.starts && l.queryRefused) && !l.setupFails && !l.dialRefused
  }

  /** Whatever an initialisation reports, a later first start under the same key runs if and only if the
      script had run to its end: an attempt reported as failed because of a logged error can still
      leave a database that starts. */
  lemma StartsIffComplete(cfg: Config, p: Proc, m: Manifest, o: Bootstrap, q: Proc, l: Link)
    requires p.sig.None? && !p.attemptedInit && !p.locked && !o.configFails && (cfg.debug ==> m.debug)
    requires Encryptable(p.masterKey, m.recovery) && q.env == p.env && Quiet(q, l)
    ensures
      var db := Initialize(cfg, None, p, Some(m), o).0;
      Start(cfg, db, q, l).1.Running? <==> o.dir && |Script(m)| <= o.n
  {
    hide Script, ConfigOf;
    if o.dir {
      RanIsPrefix(m, o);
      ConfigIffComplete(m, Ran(m, o));
      if o.n < |Script(m)| {
        assert |Ran(m, o)| == o.n;
      }
    }
  }

  /** With the script complete, an error reply and a running restart go together. */
  lemma ReportedFailureMayRun(cfg: Config, p: Proc, m: Manifest, q: Proc)
    requires p.sig.None? && !p.attemptedInit && !p.locked && (cfg.debug ==> m.debug)
    requires Encryptable(p.masterKey, m.recovery) && q.env == p.env
    ensures
      var o := Bootstrap(false, true, |Script(m)|, true, true);
      var (db, _, reply) := Initialize(cfg, None, p, Some(m), o);
      reply == Error && Start(cfg, db, q, SMOOTH).1.Running?
  {
    hide Script, ConfigOf;
    StartsIffComplete(cfg, p, m, Bootstrap(false, true, |Script(m)|, true, true), q, SMOOTH);
  }

  const SMOOTH := Link(false, false, false, false)

  // --- every life, without any rule for the operator ------------------------------------------

  /** What a boot makes of the key it was given, and one start at most. */
  lemma BootTouches(cfg: Config, host: int, disk: Disk, env: Option<string>, b: BootArgs)
    ensures
      var r, p := Boot(cfg, host, disk, env, b), InitMasterKey(cfg, host, disk, env, b).1;
      && (r.Booted? <==> p.Some?)
      && r.disk.files == InitMasterKey(cfg, host, disk, env, b).0
      && (r.Booted? ==>
            && r.proc.env == p.value.env && r.proc.masterKey == p.value.masterKey && r.proc.state == p.value.state
            && r.proc.starts <= p.value.starts + 1 && p.value.starts == 0)
  {
    hide StartDatabase, Load, StoreKey, ApplyFiles;
    var p := InitMasterKey(cfg, host, disk, env, b).1;
    if p.Some? { StartTouches(cfg, disk.db, p.value, b.start); }
  }

  /** A process that booted with a key has started the server once at most. */
  ghost predicate StartedOnce(s: Sys)
  {
    s.proc.Some? && s.proc.value.state == Initialized ==> s.proc.value.starts <= 1
  }

  lemma StartedOnceNext(cfg: Config, s: Sys, e: Event)
    requires StartedOnce(s)
    ensures StartedOnce(Next(cfg, s, e))
  {
    hide Boot, InitializeWith, StartDatabase, InitMasterKey, StoreKey, ApplyFiles;
    match e
    case PowerOn(env, b) => BootTouches(cfg, s.host, s.disk, env, b);
    case Restart(keepEnv, b) =>
      if s.proc.Some? { BootTouches(cfg, s.host, s.disk, if keepEnv then s.proc.value.env else None, b); }
    case PostManifest(man, o) =>
      if s.proc.Some? && man.Some? {
        InitializeTouches(cfg, s.disk.db, s.proc.value, s.proc.value.masterKey, man.value, o);
      }
    case Submit(t, o) =>
      if s.proc.Some? && t in s.requests {
        InitializeTouches(cfg, s.disk.db, s.proc.value, s.requests[t].key, s.requests[t].man, o);
      }
    case PostRecover(key, stamp, f, a) =>
      if s.proc.Some? { RecoverTouches(cfg, s.host, s.disk, s.proc.value, key, stamp, f, a); }
    case _ =>
  }

  /** Recovery does nothing to a process that is not in recovery, and does not end it. */
  lemma RecoverTouches(cfg: Config, host: int, disk: Disk, p: Proc, key: Bytes, stamp: nat, f: Faults, a: StartArgs)
    ensures
      var r := Recover(cfg, host, disk, p, key, stamp, f, a);
      r.1.state == p.state && (p.state != Recovering || cfg.isMarble ==> r.0 == disk && r.1 == p)
  {
    hide StartDatabase, StoreKey, ApplyFiles;
    var st := StoreKey(cfg, host, p.env, disk.files, key, stamp, f);
    StartTouches(cfg, disk.db, Attempt(p, key, st.env).(locked := true), a);
  }

  lemma {:induction false} KeyedProcessStartsOnce(cfg: Config, s: Sys, es: seq<Event>)
    requires StartedOnce(s)
    ensures StartedOnce(Life(cfg, s, es))
    decreases |es|
  {
    hide Next, StartedOnce;
    if es != [] {
      StartedOnceNext(cfg, s, es[0]);
      KeyedProcessStartsOnce(cfg, Next(cfg, s, es[0]), es[1..]);
    }
  }

  /** A running process shows a signature; a signature shown is that of the configuration on disk, and in
      debug mode that manifest consents. */
  ghost predicate ShowsConfig(cfg: Config, db: Option<Database>, p: Proc)
  {
    && (p.running ==> p.sig.Some?)
    && (p.sig.Some? ==>
          && db.Some? && ConfigOf(db.value.ran).Some?
          && p.sig == Some(Sha256(ConfigOf(db.value.ran).value.text))
          && (cfg.debug ==> ConfigOf(db.value.ran).value.debug))
  }

  ghost predicate RunsItsConfig(cfg: Config, s: Sys)
  {
    s.proc.Some? ==> ShowsConfig(cfg, s.disk.db, s.proc.value)
  }

  lemma InitializeShows(cfg: Config, db: Option<Database>, p: Proc, key: Option<Bytes>, m: Manifest, o: Bootstrap)
    requires ShowsConfig(cfg, db, p)
    ensures ShowsConfig(cfg, InitializeWith(cfg, db, p, key, m, o).0, InitializeWith(cfg, db, p, key, m, o).1)
  {
    hide ConfigOf, EncryptRecovery, Bootstrapped, RanToEnd;
  }

  lemma StartShows(cfg: Config, db: Option<Database>, p: Proc, a: StartArgs)
    requires ShowsConfig(cfg, db, p)
    ensures ShowsConfig(cfg, StartDatabase(cfg, db, p, a).0, StartDatabase(cfg, db, p, a).1)
  {
    hide ConfigOf, InitializeWith;
    var p1 := Start(cfg, db, p, a.link).0;
    assert ShowsConfig(cfg, db, p1);
    if a.file.Some? && a.file.value.Some? { InitializeShows(cfg, db, p1, p1.masterKey, a.file.value.value, a.boot); }
  }

  lemma BootShows(cfg: Config, host: int, disk: Disk, env: Option<string>, b: BootArgs)
    ensures
      var r := Boot(cfg, host, disk, env, b);
      r.Booted? ==> ShowsConfig(cfg, r.disk.db, r.proc)
  {
    hide ConfigOf, StartDatabase, Load, StoreKey, ApplyFiles;
    var p := InitMasterKey(cfg, host, disk, env, b).1;
    if p.Some? {
      assert ShowsConfig(cfg, disk.db, p.value);
      StartShows(cfg, disk.db, p.value, b.start);
    }
  }

  lemma RecoverShows(cfg: Config, host: int, disk: Disk, p: Proc, key: Bytes, stamp: nat, f: Faults, a: StartArgs)
    requires ShowsConfig(cfg, disk.db, p)
    ensures
      var r := Recover(cfg, host, disk, p, key, stamp, f, a);
      ShowsConfig(cfg, r.0.db, r.1)
  {
    hide ConfigOf, StartDatabase, StoreKey, ApplyFiles;
    var st := StoreKey(cfg, host, p.env, disk.files, key, stamp, f);
    StartShows(cfg, disk.db, Attempt(p, key, st.env).(locked := true), a);
  }

  lemma RunsItsConfigNext(cfg: Config, s: Sys, e: Event)
    requires RunsItsConfig(cfg, s)
    ensures RunsItsConfig(cfg, Next(cfg, s, e))
  {
    hide ShowsConfig, Boot, Recover, InitializeWith;
    match e
    case PowerOn(env, b) => BootShows(cfg, s.host, s.disk, env, b);
    case Restart(keepEnv, b) =>
      if s.proc.Some? { BootShows(cfg, s.host, s.disk, if keepEnv then s.proc.value.env else None, b); }
    case PostManifest(man, o) =>
      if s.proc.Some? && man.Some? {
        InitializeShows(cfg, s.disk.db, s.proc.value, s.proc.value.masterKey, man.value, o);
      }
    case Submit(t, o) =>
      if s.proc.Some? && t in s.requests {
        InitializeShows(cfg, s.disk.db, s.proc.value, s.requests[t].key, s.requests[t].man, o);
      }
    case PostRecover(key, stamp, f, a) =>
      if s.proc.Some? { RecoverShows(cfg, s.host, s.disk, s.proc.value, key, stamp, f, a); }
    case _ =>
  }

  /** Over every life, from any disk: debug mode never runs a database whose manifest does not consent. */
  lemma {:induction false} DebugNeedsConsent(cfg: Config, s: Sys, es: seq<Event>)
    requires RunsItsConfig(cfg, s)
    ensures RunsItsConfig(cfg, Life(cfg, s, es))
    decreases |es|
  {
    hide Next, RunsItsConfig;
    if es != [] {
      RunsItsConfigNext(cfg, s, es[0]);
      DebugNeedsConsent(cfg, Next(cfg, s, es[0]), es[1..]);
    }
  }

  // --- Marblerun -----------------------------------------------------------------------------

  /** Under Marblerun the variable decides alone: 32 hexadecimal digits boot, no variable panics, and
      anything else enters recovery. */
  lemma MarbleBoot(cfg: Config, host: int, disk: Disk, env: Option<string>, b: BootArgs)
    requires cfg.isMarble
    ensures
      var (files, proc) := InitMasterKey(cfg, host, disk, env, b);
      && files == disk.files
      && (proc.None? <==> env.None?)
      && (proc.Some? ==>
            proc.value.state == if |env.value| == 32 && AllHex(env.value) then Initialized else Recovering)
  {
    hide HexDecode, AllHex;
    if env.Some? { HexDecodesIff(env.value); }
  }

  /** The key in memory is the one Marblerun put into the variable, or none. */
  ghost predicate KeyIsVariable(s: Sys)
  {
    s.proc.Some? ==>
      && s.proc.value.env.Some?
      && s.proc.value.masterKey ==
           (if LoadFromEnv(s.proc.value.env).value.Key? then Some(LoadFromEnv(s.proc.value.env).value.key) else None)
      && (s.proc.value.state == Initialized <==> s.proc.value.masterKey.Some?)
  }

  /** No key file was written: what is on disk was there, up to damage from outside. */
  ghost predicate NothingStored(files: Files, files': Files)
  {
    forall n | n in files' :: n in files && (files'[n] == files[n] || files'[n] == Torn)
  }

  lemma MarbleNext(cfg: Config, s: Sys, e: Event)
    requires cfg.isMarble && KeyIsVariable(s)
    ensures KeyIsVariable(Next(cfg, s, e)) && NothingStored(s.disk.files, Next(cfg, s, e).disk.files)
  {
    hide Boot, InitializeWith, Recover, InitMasterKey, LoadFromEnv;
    match e
    case PowerOn(env, b) =>
      BootTouches(cfg, s.host, s.disk, env, b);
      MarbleKey(cfg, s.host, s.disk, env, b);
    case Restart(keepEnv, b) =>
      if s.proc.Some? {
        var env := if keepEnv then s.proc.value.env else None;
        BootTouches(cfg, s.host, s.disk, env, b);
        MarbleKey(cfg, s.host, s.disk, env, b);
      }
    case PostManifest(man, o) =>
      if s.proc.Some? && man.Some? {
        InitializeTouches(cfg, s.disk.db, s.proc.value, s.proc.value.masterKey, man.value, o);
      }
    case Submit(t, o) =>
      if s.proc.Some? && t in s.requests {
        InitializeTouches(cfg, s.disk.db, s.proc.value, s.requests[t].key, s.requests[t].man, o);
      }
    case PostRecover(key, stamp, f, a) =>
      if s.proc.Some? { RecoverTouches(cfg, s.host, s.disk, s.proc.value, key, stamp, f, a); }
    case _ =>
  }

  lemma MarbleKey(cfg: Config, host: int, disk: Disk, env: Option<string>, b: BootArgs)
    requires cfg.isMarble
    ensures
      var r := InitMasterKey(cfg, host, disk, env, b);
      && r.0 == disk.files
      && (r.1.Some? ==>
            && r.1.value.env == env && env.Some?
            && r.1.value.masterKey ==
                 (if LoadFromEnv(env).value.Key? then Some(LoadFromEnv(env).value.key) else None)
            && (r.1.value.state == Initialized <==> r.1.value.masterKey.Some?))
  {
    hide HexDecode;
  }

  /** Over every life under Marblerun, recovery attempts included, the key in memory stays the variable's
      and no key file is ever written. */
  lemma {:induction false} MarbleKeyIsVariable(cfg: Config, s: Sys, es: seq<Event>)
    requires cfg.isMarble && KeyIsVariable(s)
    ensures KeyIsVariable(Life(cfg, s, es)) && NothingStored(s.disk.files, Life(cfg, s, es).disk.files)
    decreases |es|
  {
    hide Next, KeyIsVariable;
    if es != [] {
      MarbleNext(cfg, s, es[0]);
      MarbleKeyIsVariable(cfg, Next(cfg, s, es[0]), es[1..]);
    }
  }
}
