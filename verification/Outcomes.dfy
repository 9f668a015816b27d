/** What booting and initialising come to, case by case, in terms of what the caller can see: the variable,
    the files, the manifest and what goes wrong. */
module Outcomes {
  import opened Text
  import opened Content
  import opened Keys
  import opened Lifecycle
  import opened Continuity
  import opened Limits
  import opened Lives

  // --- keys ---------------------------------------------------------------------------------

  /** A blob unseals to a key exactly where sealing that key gives the blob: in the same mode, and inside an
      enclave on the same host. */
  lemma UnsealsIff(cfg: Config, host: int, b: Blob, k: Bytes)
    ensures Unseal(cfg, host, b) == Some(k) <==> b == Seal(cfg, host, k)
    ensures cfg.enclave ==> forall other | other != host :: Unseal(cfg, other, Seal(cfg, host, k)).None?
    ensures !cfg.enclave ==> forall other :: Unseal(cfg, other, Seal(cfg, host, k)) == Some(k)
  {
  }

  /** The key file holds a key of the right size that can be read and unsealed here. */
  ghost predicate Holds(cfg: Config, host: int, files: Files, readFails: bool, k: Bytes)
  {
    Current in files && !readFails && files[Current] == Seal(cfg, host, k) && |k| == KEY_SIZE
  }

  predicate ValidHex(env: Option<string>) { env.Some? && |env.value| == 32 && AllHex(env.value) }

  /** The process comes up with this key, in memory and in the variable. */
  ghost predicate HasBooted(proc: Option<Proc>, k: Bytes, env: Option<string>)
  {
    proc.Some? && proc.value.state == Initialized && proc.value.masterKey == Some(k) && proc.value.env == env
  }

  ghost predicate InRecoveryMode(proc: Option<Proc>, env: Option<string>)
  {
    proc.Some? && proc.value.state == Recovering && proc.value.masterKey.None? && proc.value.env == env
  }

  /** Standalone, with a variable: 32 hexadecimal digits are the key, anything else is recovery, and the
      files are not touched. */
  lemma BootFromVariable(cfg: Config, host: int, disk: Disk, env: Option<string>, b: BootArgs)
    requires !cfg.isMarble && env.Some?
    ensures
      var r := InitMasterKey(cfg, host, disk, env, b);
      && r.0 == disk.files
      && (ValidHex(env) ==> exists k :: HasBooted(r.1, k, env) && |k| == KEY_SIZE && HexEncode(k) == Lowered(env.value))
      && (!ValidHex(env) ==> InRecoveryMode(r.1, env))
  {
    hide HexDecode, HexEncode, AllHex, Lowered;
    HexDecodesIff(env.value);
    if ValidHex(env) {
      assert HasBooted(InitMasterKey(cfg, host, disk, env, b).1, HexDecode(env.value).value, env);
    }
  }

  /** Standalone, without a variable, over a key file that holds a key: that is the key. */
  lemma BootFromFile(cfg: Config, host: int, disk: Disk, b: BootArgs, k: Bytes)
    requires !cfg.isMarble && Holds(cfg, host, disk.files, b.readFails, k)
    ensures
      var r := InitMasterKey(cfg, host, disk, None, b);
      r.0 == disk.files && HasBooted(r.1, k, Var(k))
  {
    hide HexEncode;
    UnsealsIff(cfg, host, disk.files[Current], k);
  }

  /** Standalone, without a variable and without a usable key, with a key file or a database: nothing is
      written, no key is made, and the process waits for recovery. */
  lemma BootWaits(cfg: Config, host: int, disk: Disk, b: BootArgs)
    requires !cfg.isMarble && (Current in disk.files || disk.db.Some?)
    requires !exists k :: Holds(cfg, host, disk.files, b.readFails, k)
    ensures
      var r := Boot(cfg, host, disk, None, b);
      && r.Booted? && r.disk == disk && r.reply == Ok(None)
      && Waits(Some(r.proc)) && InRecoveryMode(Some(r.proc), None)
  {
    hide HexEncode;
    if Current in disk.files {
      var u := Unseal(cfg, host, disk.files[Current]);
      if u.Some? {
        UnsealsIff(cfg, host, disk.files[Current], u.value);
        assert !Holds(cfg, host, disk.files, b.readFails, u.value);
      }
    }
  }

  /** Standalone, without a variable, a key file or a database: a new key is made and stored; if it cannot be
      stored there is no process. */
  lemma BootMakesKey(cfg: Config, host: int, disk: Disk, b: BootArgs)
    requires !cfg.isMarble && Current !in disk.files && disk.db.None?
    ensures
      var r := InitMasterKey(cfg, host, disk, None, b);
      if Stores(cfg, b.random, b.faults)
      then r.0 == disk.files[Current := Seal(cfg, host, b.random)] && HasBooted(r.1, b.random, Var(b.random))
      else r.1.None?
  {
    hide HexEncode, ApplyFiles, StoreWrites;
    AfterStore(disk.files, Seal(cfg, host, b.random), b.stamp, b.faults);
  }

  /** Under Marblerun, with a variable that is no key: the process stays up if and only if its report can be
      made, and touches nothing. */
  lemma MarbleMalformed(cfg: Config, host: int, disk: Disk, env: Option<string>, b: BootArgs)
    requires cfg.isMarble && env.Some? && !ValidHex(env)
    ensures
      var r := Boot(cfg, host, disk, env, b);
      && r.Booted? && r.disk == disk && InRecoveryMode(Some(r.proc), env)
      && r.reply == if b.start.reportFails then Error else Ok(None)
  {
    hide HexDecode, AllHex, StartDatabase;
    HexDecodesIff(env.value);
  }

  // --- initialising ------------------------------------------------------------------------

  /** Nothing in this process or in the manifest refuses it. */
  predicate Accepted(cfg: Config, p: Proc, man: Option<Manifest>)
  {
    && man.Some? && Encryptable(p.masterKey, man.value.recovery)
    && p.sig.None? && !p.attemptedInit && (cfg.debug ==> man.value.debug)
  }

  /** Without a database: initialising succeeds if and only if the manifest is accepted and its bootstrap
      succeeds. Then the database holds the whole script under the variable's key, the process restarts,
      and a blob is handed out exactly if the manifest has a recovery key, with the master key in it. */
  lemma InitializesIff(cfg: Config, p: Proc, man: Option<Manifest>, o: Bootstrap)
    requires !p.locked
    ensures
      var r := Initialize(cfg, None, p, man, o);
      && (r.2.Ok? <==> Accepted(cfg, p, man) && Succeeds(man.value, o))
      && (r.2.Ok? ==>
            && r.0 == Some(Database(p.env, Script(man.value))) && r.1.restarting
            && r.2.blob == (if man.value.recovery.NoRecovery? then None
                            else Some(Rsa(man.value.recovery.id, if p.masterKey.Some? then p.masterKey.value else []))))
      && (!Accepted(cfg, p, man) ==> r == (None, p, Error))
  {
    hide Script, Attempted;
    if man.Some? { assert [] + Script(man.value) == Script(man.value); }
  }

  /** A manifest that is not accepted leaves any database and the process as they are. */
  lemma RefusedLeaves(cfg: Config, db: Option<Database>, p: Proc, man: Option<Manifest>, o: Bootstrap)
    requires !p.locked && !Accepted(cfg, p, man)
    ensures Initialize(cfg, db, p, man, o) == (db, p, Error)
  {
    hide Script, Exec;
  }

  /** Initialising panics if and only if the manifest is accepted and the server cannot open the database
      there is or exits with an error; the mutex is left as it was. */
  lemma InitializePanicsIff(cfg: Config, db: Option<Database>, p: Proc, man: Option<Manifest>, o: Bootstrap)
    requires !p.locked
    ensures
      var r := Initialize(cfg, db, p, man, o);
      && (r.2.Panicked? <==>
            Accepted(cfg, p, man) && !o.configFails && (!o.exitOk || (db.Some? && db.value.key != p.env)))
      && !r.1.locked && !r.2.Deadlock? && !r.2.Died?
  {
    hide Script, Exec, Ran, RanToEnd;
  }

  /** No bootstrap ever makes a database or the configuration table twice. */
  lemma {:induction false} CreatesOnce(ran: seq<Stmt>, todo: seq<Stmt>, n: nat, c: Stmt)
    requires c in {CreateMysql, CreateEdgeless, CreateConfig} && multiset(ran)[c] <= 1
    ensures multiset(Exec(ran, todo, n))[c] <= 1
    decreases |todo|
  {
    if todo != [] && n != 0 && !AlreadyThere(ran, todo[0]) {
      assert multiset(ran + [todo[0]]) == multiset(ran) + multiset{todo[0]};
      CreatesOnce(ran + [todo[0]], todo[1..], n - 1, c);
    }
  }

  // --- starting -------------------------------------------------------------------------------

  /** The server comes up and answers the query: it is given the database's key, the configuration is there,
      and a stale ready flag does no harm. */
  predicate Answers(d: Database, p: Proc, l: Link)
  {
    d.key == p.env && ConfigOf(d.ran).Some? && !(0 < p.starts && l.queryRefused)
  }

  predicate Consenting(cfg: Config, d: Database)
    requires ConfigOf(d.ran).Some?
  {
    cfg.debug ==> ConfigOf(d.ran).value.debug
  }

  /** A start that gets as far as launching the server: it ends the process if and only if the query is not
      answered; a server given another key is noted; the signature is shown if and only if the manifest
      consents, and the server runs if and only if the files are in place too, whether or not the last
      connection is refused; it succeeds if nothing goes wrong, and panics otherwise. */
  lemma StartOutcomes(cfg: Config, d: Database, p: Proc, l: Link)
    requires !l.configFails
    ensures
      var (q, r) := Start(cfg, Some(d), p, l);
      && q.starts == p.starts + 1 && (q.wrongKey <==> p.wrongKey || d.key != p.env)
      && (r.StartDied? <==> !Answers(d, p, l))
      && (Answers(d, p, l) ==>
            var consents := Consenting(cfg, d);
            && (r.Running? <==> consents && !l.setupFails && !l.dialRefused)
            && (r.StartPanicked? <==> !r.Running?)
            && q.sig == (if consents then Some(Sha256(ConfigOf(d.ran).value.text)) else p.sig)
            && (q.running <==> p.running || (consents && !l.setupFails)))
  {
    hide ConfigOf, Launched, Signed;
    LaunchedTouches(p, d.key);
    if ConfigOf(d.ran).Some? { SignedTouches(Launched(p, d.key), ConfigOf(d.ran).value, !l.setupFails); }
  }

  /** Otherwise nothing is launched. */
  lemma StartLaunchesNothing(cfg: Config, db: Option<Database>, p: Proc, l: Link)
    requires db.None? || l.configFails
    ensures Start(cfg, db, p, l) == (p, if db.None? then NotInitializedYet else StartFailed)
  {
  }

  /** When starting succeeds. Under Marblerun the report must not fail, and without a database there must be
      a manifest file. */
  lemma StartSucceedsIff(cfg: Config, db: Option<Database>, p: Proc, a: StartArgs)
    requires !p.locked
    ensures
      StartDatabase(cfg, db, p, a).2.Ok? <==>
        && !(cfg.isMarble && a.reportFails)
        && (if db.Some? then
              && !a.link.configFails && Answers(db.value, p, a.link) && Consenting(cfg, db.value)
              && !a.link.setupFails && !a.link.dialRefused
            else if cfg.hasManifestPath then
              a.file.Some? && Accepted(cfg, p, a.file.value) && Succeeds(a.file.value.value, a.boot)
            else !cfg.isMarble)
  {
    hide ConfigOf, Initialize, Start, Succeeds;
    if db.Some? && !a.link.configFails {
      StartOutcomes(cfg, db.value, p, a.link);
    } else {
      StartLaunchesNothing(cfg, db, p, a.link);
      if a.file.Some? { InitializesIff(cfg, p, a.file.value, a.boot); }
    }
  }

  /** Recovery over a database, once the key is stored and the configuration written: the process ends if and
      only if the query is not answered; otherwise it goes on with the key, the mutex free, and the call
      panics exactly if the manifest does not consent or the handshake breaks later. */
  lemma RecoverOutcomes(cfg: Config, host: int, disk: Disk, p: Proc, key: Bytes, stamp: nat, f: Faults, a: StartArgs)
    requires p.state == Recovering && !p.locked && !cfg.isMarble && Stores(cfg, key, f)
    requires disk.db.Some? && !a.link.configFails
    ensures
      var r := Recover(cfg, host, disk, p, key, stamp, f, a);
      var answers := Answers(disk.db.value, p.(env := Var(key)), a.link);
      && (r.2.Died? <==> !answers)
      && (answers ==>
            && (r.2.Ok? <==> Consenting(cfg, disk.db.value) && !a.link.setupFails && !a.link.dialRefused)
            && (r.2.Panicked? <==> !r.2.Ok?)
            && r.1.masterKey == Some(key) && r.1.env == Var(key) && !r.1.locked && (r.1.keyInPlace <==> r.2.Ok?))
      && r.0.db == disk.db
  {
    hide HexEncode, StoreWrites, ApplyFiles, ConfigOf, Start;
    var q := Attempt(p, key, Var(key)).(locked := true);
    StartOutcomes(cfg, disk.db.value, q, a.link);
    StartOnly(cfg, disk.db, q, a.link);
  }

  /** A start under another key than the database's is noted, and ends the process: by recovery, and by a boot
      with a key from the file. */
  lemma WrongKeyIsNoted(cfg: Config, s: Sys, key: Bytes, stamp: nat, f: Faults, a: StartArgs)
    requires s.proc.Some? && s.proc.value.state == Recovering && !s.proc.value.locked && !cfg.isMarble
    requires Stores(cfg, key, f) && s.disk.db.Some? && !a.link.configFails && s.disk.db.value.key != Var(key)
    ensures
      var s' := Next(cfg, s, PostRecover(key, stamp, f, a));
      s'.proc.None? && s'.wrongKeyStart && s'.disk.db == s.disk.db
  {
    hide HexEncode, StoreWrites, ApplyFiles, ConfigOf, Start;
    var p := s.proc.value;
    var q := Attempt(p, key, Var(key)).(locked := true);
    StartOutcomes(cfg, s.disk.db.value, q, a.link);
    RecoverOutcomes(cfg, s.host, s.disk, p, key, stamp, f, a);
  }

  lemma WrongKeyBootIsNoted(cfg: Config, s: Sys, b: BootArgs, k: Bytes)
    requires s.proc.None? && !cfg.isMarble && Holds(cfg, s.host, s.disk.files, b.readFails, k)
    requires s.disk.db.Some? && !b.start.link.configFails && s.disk.db.value.key != Var(k)
    ensures
      var s' := Next(cfg, s, PowerOn(None, b));
      s'.proc.None? && s'.wrongKeyStart && s'.disk == s.disk
  {
    hide HexEncode, ConfigOf, Start, InitMasterKey;
    BootFromFile(cfg, s.host, s.disk, b, k);
    var p := InitMasterKey(cfg, s.host, s.disk, None, b).1.value;
    StartOutcomes(cfg, s.disk.db.value, p, b.start.link);
  }
}
