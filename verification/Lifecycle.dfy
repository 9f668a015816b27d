/** The life of an installation across processes and hosts: booting, initialising from a manifest,
    recovering, restarting, moving. Each Go entry point is a function of the disk and the process;
    what the outside decides (random keys, failing calls, how far a bootstrap gets) is a parameter. */
module Lifecycle {
  import opened Text
  import opened Content
  import opened Keys

  // --- manifests and the bootstrap script ---------------------------------------

  /** The recovery entry of a manifest: absent, unusable, or an RSA public key able to encrypt
      messages of up to `capacity` bytes. */
  datatype Recovery = NoRecovery | BadRecovery | Public(id: int, capacity: nat)

  datatype Manifest = Manifest(text: Bytes, sql: seq<string>, debug: bool, recovery: Recovery)

  datatype Stmt =
    | CreateMysql | SystemTables | User(sql: string) | CreateEdgeless | CreateConfig | InsertConfig(man: Manifest)

  function Users(sql: seq<string>): (r: seq<Stmt>)
    ensures |r| == |sql| && forall i :: 0 <= i < |r| ==> r[i] == User(sql[i])
  {
    seq(|sql|, i requires 0 <= i < |sql| => User(sql[i]))
  }

  /** The bootstrap script: the system tables, the manifest's statements, then the configuration. */
  function Script(m: Manifest): seq<Stmt>
  {
    [CreateMysql, SystemTables] + Users(m.sql) + [CreateEdgeless, CreateConfig, InsertConfig(m)]
  }

  /** None of the script's own `CREATE`s of databases and of the configuration table tolerates an object
      that is already there. */
  predicate AlreadyThere(ran: seq<Stmt>, s: Stmt)
  {
    (s.CreateMysql? || s.CreateEdgeless? || s.CreateConfig?) && s in ran
  }

  /** The statements a database has run after trying `todo`: up to the first that finds its object there,
      and at most `n` of them, where something else goes wrong. */
  function Exec(ran: seq<Stmt>, todo: seq<Stmt>, n: nat): seq<Stmt>
    decreases |todo|
  {
    if todo == [] || n == 0 || AlreadyThere(ran, todo[0]) then ran
    else Exec(ran + [todo[0]], todo[1..], n - 1)
  }

  /** `SELECT * from $edgeless.config`: the first configuration row, if any. */
  function ConfigOf(ran: seq<Stmt>): Option<Manifest>
  {
    if ran == [] then None
    else if ran[0].InsertConfig? then Some(ran[0].man)
    else ConfigOf(ran[1..])
  }

  /** SHA-256 as an ideal digest. */
  datatype Digest = Sha256(of: Bytes)

  /** RSAES-OAEP as an ideal cipher: the holder of the private key `id` gets `message`. */
  datatype Cipher = Rsa(id: int, message: Bytes)

  /** An existing `#rocksdb`: the key variable it was created under, and the statements it ran. */
  datatype Database = Database(key: Option<string>, ran: seq<Stmt>)

  // --- processes ------------------------------------------------------------------

  datatype CoreState = Uninitialized | Recovering | Initialized

  datatype Proc = Proc(
    env: Option<string>,
    masterKey: Option<Bytes>,
    state: CoreState,
    locked: bool,
    attemptedInit: bool,
    sig: Option<Digest>,
    running: bool,
    restarting: bool,
    // observations
    starts: nat,             // times the server was started
    wrongKey: bool,          // some start met a database created under another key
    bootstraps: nat,
    dbAtBoot: bool,
    keyInPlace: bool)        // booted with a key, or the last recovery attempt succeeded

  /** A start that died has ended the process; a panic does so only outside a request handler. */
  datatype StartReply = NotInitializedYet | StartFailed | StartDied | StartPanicked | Running

  /** What the handshake with the server may meet. The query is refused only if the ready flag is left
      over from an earlier start of the process. Writing the certificates or clearing the address may
      fail, and the final connection may be refused, which the server does only once it has started. */
  datatype Link = Link(configFails: bool, queryRefused: bool, setupFails: bool, dialRefused: bool)

  function Launched(p: Proc, key: Option<string>): Proc
  {
    p.(starts := p.starts + 1, wrongKey := p.wrongKey || key != p.env)
  }

  function Signed(p: Proc, m: Manifest, serves: bool): Proc
  {
    p.(sig := Some(Sha256(m.text)), running := p.running || serves)
  }

  function Start(cfg: Config, db: Option<Database>, p: Proc, l: Link): (Proc, StartReply)
  {
    match db
    case None => (p, NotInitializedYet)
    case Some(d) =>
      if l.configFails then (p, StartFailed)
      else
        var p1 := Launched(p, d.key);
        match ConfigOf(d.ran)
        case None => (p1, StartDied)
        case Some(m) =>
          if d.key != p.env || (0 < p.starts && l.queryRefused) then (p1, StartDied)
          else if cfg.debug && !m.debug then (p1, StartPanicked)
          else (Signed(p1, m, !l.setupFails), if l.setupFails || l.dialRefused then StartPanicked else Running)
  }

  /** How a bootstrap goes, apart from what the database makes of it: whether the directory comes into
      being, how many statements run, the exit code, and whether the log of a complete run has errors. */
  datatype Bootstrap = Bootstrap(configFails: bool, dir: bool, n: nat, exitOk: bool, logError: bool)

  /** What runs on a new database. */
  function Ran(m: Manifest, o: Bootstrap): seq<Stmt>
  {
    if o.n <= |Script(m)| then Script(m)[..o.n] else Script(m)
  }

  /** The server opens an existing database only under the key it was created with. */
  predicate Opens(db: Option<Database>, env: Option<string>) { db.Some? ==> db.value.key == env }

  function Bootstrapped(db: Option<Database>, env: Option<string>, m: Manifest, o: Bootstrap): Option<Database>
  {
    match db
    case None => if o.dir then Some(Database(env, Ran(m, o))) else None
    case Some(d) => if d.key == env then Some(d.(ran := Exec(d.ran, Script(m), o.n))) else db
  }

  /** The whole script ran. Otherwise the server stopped at a failing statement, and exits with an error
      or logs one. */
  predicate RanToEnd(db: Option<Database>, env: Option<string>, m: Manifest, o: Bootstrap)
  {
    var after := Bootstrapped(db, env, m, o);
    after.Some? && after.value.ran == (if db.Some? then db.value.ran else []) + Script(m)
  }

  datatype Reply = Ok(blob: Option<Cipher>) | Error | Panicked | Died | Deadlock

  function Attempted(p: Proc): Proc { p.(attemptedInit := true, bootstraps := p.bootstraps + 1) }

  function Restarting(p: Proc): Proc { p.(restarting := true) }

  /** `Mariadb.Initialize`: refused after a start or an earlier attempt in this process. */
  function InitDatabase(cfg: Config, db: Option<Database>, p: Proc, m: Manifest, o: Bootstrap)
    : (Option<Database>, Proc, Reply)
  {
    if p.sig.Some? || p.attemptedInit || (cfg.debug && !m.debug) || o.configFails then (db, p, Error)
    else
      (Bootstrapped(db, p.env, m, o), Attempted(p),
       if !o.exitOk || !Opens(db, p.env) then Panicked
       else if o.logError || !RanToEnd(db, p.env, m, o) then Error
       else Ok(None))
  }

  /** The outer None is an error. */
  function EncryptRecovery(key: Option<Bytes>, r: Recovery): Option<Option<Cipher>>
  {
    match r
    case NoRecovery => Some(None)
    case BadRecovery => None
    case Public(id, capacity) =>
      var message := if key.Some? then key.value else [];
      if capacity < |message| then None else Some(Some(Rsa(id, message)))
  }

  /** `Core.Initialize` from the encryption on, with the master key as the request has read it, before
      taking the mutex. Locking a mutex this process's caller already holds never returns. */
  function InitializeWith(cfg: Config, db: Option<Database>, p: Proc, key: Option<Bytes>, m: Manifest, o: Bootstrap)
    : (Option<Database>, Proc, Reply)
  {
    match EncryptRecovery(key, m.recovery)
    case None => (db, p, Error)
    case Some(blob) =>
      if p.locked then (db, p, Deadlock)
      else
        var (db', p', reply) := InitDatabase(cfg, db, p, m, o);
        if reply.Ok? then (db', Restarting(p'), Ok(blob)) else (db', p', reply)
  }

  /** `Core.Initialize` as one step; `man` is None when the text is no valid JSON. */
  function Initialize(cfg: Config, db: Option<Database>, p: Proc, man: Option<Manifest>, o: Bootstrap)
    : (Option<Database>, Proc, Reply)
  {
    if man.None? then (db, p, Error) else InitializeWith(cfg, db, p, p.masterKey, man.value, o)
  }

  /** What a start may meet: the handshake, a failing report (under Marblerun only), and the configured
      manifest file (None when unreadable). */
  datatype StartArgs = StartArgs(link: Link, reportFails: bool, file: Option<Option<Manifest>>, boot: Bootstrap)

  function StartDatabase(cfg: Config, db: Option<Database>, p: Proc, a: StartArgs): (Option<Database>, Proc, Reply)
  {
    var (p1, started) := Start(cfg, db, p, a.link);
    if started.StartDied? then (db, p1, Died)
    else if started.StartPanicked? then (db, p1, Panicked)
    else if started.StartFailed? || (cfg.isMarble && a.reportFails) then (db, p1, Error)
    else if started.Running? then (db, p1, Ok(None))
    else if cfg.hasManifestPath then
      if a.file.None? then (db, p1, Error) else Initialize(cfg, db, p1, a.file.value, a.boot)
    else (db, p1, if cfg.isMarble then Error else Ok(None))
  }

  datatype Disk = Disk(files: Files, db: Option<Database>)

  /** The process once recovery has taken the key over and tried to store it. */
  function Attempt(p: Proc, key: Bytes, env: Option<string>): Proc
  {
    p.(masterKey := Some(key), env := env, keyInPlace := false)
  }

  /** `Core.Recover`: holds the mutex throughout, assigns the key before checking it, and does not
      advance the state. */
  function Recover(cfg: Config, host: int, disk: Disk, p: Proc, key: Bytes, stamp: nat, f: Faults, a: StartArgs)
    : (Disk, Proc, Reply)
  {
    if p.state != Recovering || cfg.isMarble then (disk, p, Error)
    else
      var s := StoreKey(cfg, host, p.env, disk.files, key, stamp, f);
      var files := ApplyFiles(disk.files, s.writes);
      var p1 := Attempt(p, key, s.env);
      if s.error.Some? then (Disk(files, disk.db), p1, Error)
      else
        var (db, p2, reply) := StartDatabase(cfg, disk.db, p1.(locked := true), a);
        if reply.Deadlock? then (Disk(files, db), p2, Deadlock)
        else (Disk(files, db), p2.(locked := false, keyInPlace := reply.Ok?), reply)
  }

  datatype BootArgs = BootArgs(random: Bytes, stamp: nat, readFails: bool, faults: Faults, start: StartArgs)

  function NewProc(env: Option<string>, key: Option<Bytes>, dbAtBoot: bool): Proc
  {
    Proc(env, key, if key.Some? then Initialized else Recovering, false, false, None, false, false,
         0, false, 0, dbAtBoot, key.Some?)
  }

  /** `mustInitMasterKey`; the process is None when it panics. */
  function InitMasterKey(cfg: Config, host: int, disk: Disk, env: Option<string>, b: BootArgs): (Files, Option<Proc>)
  {
    var (r, env1) := Load(cfg, host, env, disk.files, b.readFails);
    match r
    case Key(k) => (disk.files, Some(NewProc(env1, Some(k), disk.db.Some?)))
    case NoKey(e) =>
      if e == NotExist && disk.db.None? then
        var s := StoreKey(cfg, host, env1, disk.files, b.random, b.stamp, b.faults);
        (ApplyFiles(disk.files, s.writes),
         if s.error.Some? then None else Some(NewProc(s.env, Some(b.random), false)))
      else if e == NotProvidedByMarblerun then (disk.files, None)
      else (disk.files, Some(NewProc(env1, None, disk.db.Some?)))
  }

  datatype Booted = Booted(disk: Disk, proc: Proc, reply: Reply) | NoProcess(disk: Disk)

  /** `run`: a process with a key starts the database, one without generates a report; the process
      panics if that fails. */
  function Boot(cfg: Config, host: int, disk: Disk, env: Option<string>, b: BootArgs): Booted
  {
    var (files, proc) := InitMasterKey(cfg, host, disk, env, b);
    match proc
    case None => NoProcess(Disk(files, disk.db))
    case Some(p) =>
      if p.state == Recovering then
        Booted(Disk(files, disk.db), p, if cfg.isMarble && b.start.reportFails then Error else Ok(None))
      else
        var (db, p1, reply) := StartDatabase(cfg, disk.db, p, b.start);
        Booted(Disk(files, db), p1, reply)
  }

  // --- the installation ---------------------------------------------------------

  /** A manifest request that has read the master key and waits for the mutex. */
  datatype Request = Request(man: Manifest, key: Option<Bytes>)

  datatype Sys = Sys(
    host: int,
    disk: Disk,
    proc: Option<Proc>,
    requests: map<int, Request>,
    issued: seq<Cipher>,   // recovery blobs handed out
    wrongKeyStart: bool)   // some start, in any process, met a database of another key

  datatype Event =
    | PowerOn(env: Option<string>, boot: BootArgs)             // a new process
    | Restart(keepEnv: bool, boot: BootArgs)                   // after a successful initialisation
    | PostManifest(man: Option<Manifest>, outcome: Bootstrap)  // undisturbed
    | Arrive(t: int, manifest: Manifest)                       // a manifest request reads the key ...
    | Submit(t: int, outcome: Bootstrap)                       // ... and gets the mutex, any time later
    | PostRecover(key: Bytes, stamp: nat, faults: Faults, start: StartArgs)
    | Kill
    | Move(host: int)                                          // the data directory goes to another host
    | LoseKey(torn: bool)                                      // the sealed file is deleted or damaged

  function Issue(issued: seq<Cipher>, r: Reply): seq<Cipher>
  {
    if r.Ok? && r.blob.Some? then issued + [r.blob.value] else issued
  }

  function AfterBoot(s: Sys, b: Booted): Sys
  {
    match b
    case NoProcess(disk) => s.(disk := disk, proc := None, requests := map[])
    case Booted(disk, p, reply) =>
      s.(disk := disk, proc := if reply.Ok? then Some(p) else None, requests := map[],
         issued := Issue(s.issued, reply), wrongKeyStart := s.wrongKeyStart || p.wrongKey)
  }

  function Next(cfg: Config, s: Sys, e: Event): Sys
  {
    match e
    case PowerOn(env, b) => if s.proc.Some? then s else AfterBoot(s, Boot(cfg, s.host, s.disk, env, b))
    case Restart(keepEnv, b) =>
      if s.proc.None? || !s.proc.value.restarting then s
      else AfterBoot(s, Boot(cfg, s.host, s.disk, if keepEnv then s.proc.value.env else None, b))
    case PostManifest(man, o) =>
      if s.proc.None? then s
      else
        var (db, p, reply) := Initialize(cfg, s.disk.db, s.proc.value, man, o);
        s.(disk := s.disk.(db := db), proc := Some(p), issued := Issue(s.issued, reply))
    case Arrive(t, m) =>
      if s.proc.None? then s else s.(requests := s.requests[t := Request(m, s.proc.value.masterKey)])
    case Submit(t, o) =>
      if s.proc.None? || t !in s.requests then s
      else
        var r := s.requests[t];
        var (db, p, reply) := InitializeWith(cfg, s.disk.db, s.proc.value, r.key, r.man, o);
        s.(disk := s.disk.(db := db), proc := Some(p), issued := Issue(s.issued, reply), requests := s.requests - {t})
    case PostRecover(key, stamp, f, a) =>
      if s.proc.None? || s.proc.value.locked then s
      else
        var (disk, p, reply) := Recover(cfg, s.host, s.disk, s.proc.value, key, stamp, f, a);
        s.(disk := disk, proc := if reply.Died? then None else Some(p), wrongKeyStart := s.wrongKeyStart || p.wrongKey)
    case Kill => s.(proc := None)
    case Move(h) => if s.proc.Some? then s else s.(host := h)
    case LoseKey(torn) =>
      if Current !in s.disk.files then s
      else s.(disk := s.disk.(files := if torn then s.disk.files[Current := Torn] else s.disk.files - {Current}))
  }

  /** The operator's side of the contract, in standalone mode. The key variable is not set from
      outside; a manifest is posted only once a key is in place, and that key is still the process's when
      the request gets the mutex; with a database on disk, recovery is given that database's key (before,
      any key). */
  predicate Allowed(s: Sys, e: Event)
  {
    match e
    case PowerOn(env, b) => env.None? && |b.random| == KEY_SIZE
    case Restart(_, b) => |b.random| == KEY_SIZE
    case PostManifest(_, _) => s.proc.Some? ==> s.proc.value.keyInPlace
    case Submit(t, _) =>
      s.proc.Some? && t in s.requests ==> s.proc.value.keyInPlace && s.proc.value.masterKey == s.requests[t].key
    case PostRecover(key, _, _, _) =>
      s.disk.db.Some? ==> s.disk.db.value.key == Some(HexEncode(key)) && |key| == KEY_SIZE
    case _ => true
  }

  function Life(cfg: Config, s: Sys, es: seq<Event>): Sys
    decreases |es|
  {
    if es == [] then s else Life(cfg, Next(cfg, s, es[0]), es[1..])
  }

  predicate AllAllowed(cfg: Config, s: Sys, es: seq<Event>)
    decreases |es|
  {
    es == [] || (Allowed(s, es[0]) && AllAllowed(cfg, Next(cfg, s, es[0]), es[1..]))
  }

  function NewInstall(host: int): Sys { Sys(host, Disk(map[], None), None, map[], [], false) }
}
