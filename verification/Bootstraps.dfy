/** What bootstraps can do to a database over every life, without any rule for the operator: it is
    written by one script, and once begun it never changes. */
module Bootstraps {
  import opened Text
  import opened Content
  import opened Keys
  import opened Lifecycle
  import opened Continuity
  import opened Limits

  ghost predicate OfScript(ran: seq<Stmt>) { exists m :: ran <= Script(m) }

  ghost predicate FromOneScript(db: Option<Database>) { db.Some? ==> OfScript(db.value.ran) }

  /** The database stays, or one that has run nothing gets the beginning of a script, under its key. */
  ghost predicate Evolves(db: Option<Database>, db': Option<Database>)
  {
    || db' == db
    || (&& (db.Some? ==> db.value.ran == [])
        && db'.Some? && OfScript(db'.value.ran)
        && (db.Some? ==> db'.value.key == db.value.key))
  }

  lemma NothingOrFirst(ran: seq<Stmt>)
    requires OfScript(ran)
    ensures ran == [] || CreateMysql in ran
  {
    var m :| ran <= Script(m);
    assert ran != [] ==> ran[0] == Script(m)[0];
  }

  lemma RanOfScript(m: Manifest, o: Bootstrap)
    ensures OfScript(Ran(m, o))
  {
    hide Script, Ran;
    RanIsPrefix(m, o);
  }

  lemma InitializeEvolves(cfg: Config, db: Option<Database>, p: Proc, key: Option<Bytes>, m: Manifest, o: Bootstrap)
    requires FromOneScript(db)
    ensures Evolves(db, InitializeWith(cfg, db, p, key, m, o).0)
  {
    hide Script, Ran, Exec, EncryptRecovery, Attempted, Restarting, RanToEnd, OfScript;
    RanOfScript(m, o);
    if db.Some? {
      NothingOrFirst(db.value.ran);
      ExecChangesIff(db.value.ran, m, o.n);
      ExecFresh(m, o);
    }
  }

  lemma StartEvolves(cfg: Config, db: Option<Database>, p: Proc, a: StartArgs)
    requires FromOneScript(db)
    ensures Evolves(db, StartDatabase(cfg, db, p, a).0)
  {
    hide FromOneScript, OfScript, InitializeWith, Start;
    var p1 := Start(cfg, db, p, a.link).0;
    if a.file.Some? && a.file.value.Some? { InitializeEvolves(cfg, db, p1, p1.masterKey, a.file.value.value, a.boot); }
  }

  lemma BootEvolves(cfg: Config, host: int, disk: Disk, env: Option<string>, b: BootArgs)
    requires FromOneScript(disk.db)
    ensures Evolves(disk.db, Boot(cfg, host, disk, env, b).disk.db)
  {
    hide FromOneScript, OfScript, StartDatabase, InitMasterKey;
    var p := InitMasterKey(cfg, host, disk, env, b).1;
    if p.Some? { StartEvolves(cfg, disk.db, p.value, b.start); }
  }

  lemma RecoverEvolves(cfg: Config, host: int, disk: Disk, p: Proc, key: Bytes, stamp: nat, f: Faults, a: StartArgs)
    requires FromOneScript(disk.db)
    ensures Evolves(disk.db, Recover(cfg, host, disk, p, key, stamp, f, a).0.db)
  {
    hide FromOneScript, OfScript, StartDatabase, StoreKey, ApplyFiles, Attempt;
    var st := StoreKey(cfg, host, p.env, disk.files, key, stamp, f);
    StartEvolves(cfg, disk.db, Attempt(p, key, st.env).(locked := true), a);
  }

  lemma NextEvolves(cfg: Config, s: Sys, e: Event)
    requires FromOneScript(s.disk.db)
    ensures Evolves(s.disk.db, Next(cfg, s, e).disk.db)
  {
    hide FromOneScript, OfScript, Boot, InitializeWith, Recover;
    match e
    case PowerOn(env, b) => BootEvolves(cfg, s.host, s.disk, env, b);
    case Restart(keepEnv, b) =>
      if s.proc.Some? { BootEvolves(cfg, s.host, s.disk, if keepEnv then s.proc.value.env else None, b); }
    case PostManifest(man, o) =>
      if s.proc.Some? && man.Some? {
        InitializeEvolves(cfg, s.disk.db, s.proc.value, s.proc.value.masterKey, man.value, o);
      }
    case Submit(t, o) =>
      if s.proc.Some? && t in s.requests {
        InitializeEvolves(cfg, s.disk.db, s.proc.value, s.requests[t].key, s.requests[t].man, o);
      }
    case PostRecover(key, stamp, f, a) =>
      if s.proc.Some? { RecoverEvolves(cfg, s.host, s.disk, s.proc.value, key, stamp, f, a); }
    case _ =>
  }

  lemma {:induction false} LifeEvolves(cfg: Config, s: Sys, es: seq<Event>)
    requires FromOneScript(s.disk.db)
    ensures FromOneScript(Life(cfg, s, es).disk.db) && Evolves(s.disk.db, Life(cfg, s, es).disk.db)
    decreases |es|
  {
    hide Next, OfScript;
    if es != [] {
      NextEvolves(cfg, s, es[0]);
      LifeEvolves(cfg, Next(cfg, s, es[0]), es[1..]);
    }
  }

  lemma {:induction false} LifeSplit(cfg: Config, s: Sys, es: seq<Event>, i: nat)
    requires i <= |es|
    ensures Life(cfg, s, es) == Life(cfg, Life(cfg, s, es[..i]), es[i..])
    decreases i
  {
    hide Next;
    if i == 0 {
      assert es[0..] == es;
    } else {
      assert es[..i][1..] == es[1..][..i - 1] && es[1..][i - 1..] == es[i..];
      LifeSplit(cfg, Next(cfg, s, es[0]), es[1..], i - 1);
    }
  }

  ghost predicate OneRow(ran: seq<Stmt>)
  {
    forall i, j :: 0 <= i < |ran| && 0 <= j < |ran| && ran[i].InsertConfig? && ran[j].InsertConfig? ==> i == j
  }

  lemma ScriptHasOneRow(ran: seq<Stmt>)
    requires OfScript(ran)
    ensures OneRow(ran)
  {
    var m :| ran <= Script(m);
    assert forall i :: 0 <= i < |ran| && ran[i].InsertConfig? ==> ran[i] == Script(m)[i] && i == |Script(m)| - 1;
  }

  /** Between any two moments of any life of an installation, standalone or under Marblerun, whatever the
      operator does: a database keeps its key; once a statement has run on it, it never changes; and it
      never has two configuration rows. */
  lemma WrittenOnce(cfg: Config, host: int, es: seq<Event>, i: nat)
    requires i <= |es|
    ensures
      var db, db' := Life(cfg, NewInstall(host), es[..i]).disk.db, Life(cfg, NewInstall(host), es).disk.db;
      && (db.Some? ==> db'.Some? && db'.value.key == db.value.key)
      && (db.Some? && db.value.ran != [] ==> db' == db)
      && (db'.Some? ==> OneRow(db'.value.ran))
  {
    hide Life, OfScript, OneRow;
    LifeSplit(cfg, NewInstall(host), es, i);
    LifeEvolves(cfg, NewInstall(host), es[..i]);
    LifeEvolves(cfg, Life(cfg, NewInstall(host), es[..i]), es[i..]);
    var db' := Life(cfg, NewInstall(host), es).disk.db;
    if db'.Some? { ScriptHasOneRow(db'.value.ran); }
  }

  /** Whatever has run on a database, in any life, is the beginning of one manifest's statements, in order
      and in place. */
  lemma RunsOneManifest(cfg: Config, host: int, es: seq<Event>)
    ensures
      var db := Life(cfg, NewInstall(host), es).disk.db;
      db.Some? ==> InOrder(db.value.ran) && exists m :: db.value.ran <= Script(m) && SqlOf(db.value.ran) <= m.sql
  {
    hide Life, Script, InOrder, SqlOf;
    LifeEvolves(cfg, NewInstall(host), es);
    var db := Life(cfg, NewInstall(host), es).disk.db;
    if db.Some? {
      var m :| db.value.ran <= Script(m);
      RunsTheManifest(db.value.ran, m);
    }
  }

  /** A signature is only ever shown of a whole script, with all of its manifest's statements. */
  lemma SignedIsWhole(cfg: Config, host: int, es: seq<Event>)
    ensures
      var s := Life(cfg, NewInstall(host), es);
      s.proc.Some? && s.proc.value.sig.Some? ==>
        && s.disk.db.Some?
        && InOrder(s.disk.db.value.ran)
        && exists m ::
             && s.disk.db.value.ran == Script(m) && SqlOf(s.disk.db.value.ran) == m.sql
             && s.proc.value.sig == Some(Sha256(m.text))
  {
    hide Life, Script, InOrder, SqlOf;
    LifeEvolves(cfg, NewInstall(host), es);
    DebugNeedsConsent(cfg, NewInstall(host), es);
    var s := Life(cfg, NewInstall(host), es);
    if s.proc.Some? && s.proc.value.sig.Some? {
      var m :| s.disk.db.value.ran <= Script(m);
      ConfigIffComplete(m, s.disk.db.value.ran);
      RunsTheManifest(s.disk.db.value.ran, m);
    }
  }

  /** A bootstrap that stopped after its first statement and before its last is final: from then on no
      process ever runs the database or shows a signature. */
  lemma FailedStaysFailed(cfg: Config, host: int, es: seq<Event>, i: nat)
    requires i <= |es|
    requires var db := Life(cfg, NewInstall(host), es[..i]).disk.db;
             db.Some? && db.value.ran != [] && ConfigOf(db.value.ran).None?
    ensures
      var s := Life(cfg, NewInstall(host), es);
      s.proc.Some? ==> !s.proc.value.running && s.proc.value.sig.None?
  {
    hide Life, ConfigOf, OneRow;
    WrittenOnce(cfg, host, es, i);
    DebugNeedsConsent(cfg, NewInstall(host), es);
  }
}
