/** A manifest request reads the master key, encrypts it for the recovery blob, and only then takes the
    mutex. What other requests do in between decides whether the blob is for the database's key. */
module ManifestRace {
  import opened Text
  import opened Content
  import opened Keys
  import opened Lifecycle
  import opened Continuity
  import opened Limits
  import opened Lives

  /** Nothing in between: the two halves of a request are the request. */
  lemma Undisturbed(cfg: Config, s: Sys, t: int, m: Manifest, o: Bootstrap)
    requires s.proc.Some? && t !in s.requests
    ensures Next(cfg, Next(cfg, s, Arrive(t, m)), Submit(t, o)) == Next(cfg, s, PostManifest(Some(m), o))
  {
    hide InitializeWith;
    assert s.requests[t := Request(m, s.proc.value.masterKey)] - {t} == s.requests;
  }

  /** Requests other than `t`, served by one process. */
  predicate Others(es: seq<Event>, t: int)
  {
    forall e | e in es ::
      e.PostManifest? || e.PostRecover? || ((e.Arrive? || e.Submit?) && e.t != t)
  }

  /** The key last put into the variable: by the last recovery request in between with a key of the right
      size, if the process is in recovery at all. */
  function LastKey(recovering: bool, k: Bytes, es: seq<Event>): Bytes
    decreases |es|
  {
    if es == [] then k
    else
      var stored := recovering && es[0].PostRecover? && |es[0].key| == KEY_SIZE;
      LastKey(recovering, if stored then es[0].key else k, es[1..])
  }

  /** What one such request does to the process. */
  lemma OneRequest(cfg: Config, s: Sys, e: Event, t: int, k: Bytes)
    requires !cfg.isMarble && s.proc.Some? && !s.proc.value.locked && s.proc.value.env == Var(k) && Others([e], t)
    ensures
      var s' := Next(cfg, s, e);
      && (t in s.requests ==> t in s'.requests && s'.requests[t] == s.requests[t])
      && (s'.proc.Some? ==>
            && s'.proc.value.state == s.proc.value.state
            && s'.proc.value.env == Var(LastKey(s.proc.value.state == Recovering, k, [e])))
  {
    hide InitializeWith, Recover, HexEncode;
    assert e in [e];
    var p := s.proc.value;
    OneKey(p.state == Recovering, k, e);
    match e
    case PostManifest(man, o) =>
      if man.Some? { InitializeTouches(cfg, s.disk.db, p, p.masterKey, man.value, o); }
    case Submit(u, o) =>
      if u in s.requests { InitializeTouches(cfg, s.disk.db, p, s.requests[u].key, s.requests[u].man, o); }
    case PostRecover(key, stamp, f, a) =>
      RecoverTouches(cfg, s.host, s.disk, p, key, stamp, f, a);
      if p.state == Recovering { RecoverSets(cfg, s.host, s.disk, p, key, stamp, f, a); }
    case _ =>
  }

  lemma OneKey(recovering: bool, k: Bytes, e: Event)
    ensures LastKey(recovering, k, [e]) == if recovering && e.PostRecover? && |e.key| == KEY_SIZE then e.key else k
  {
    assert [e][1..] == [];
  }

  /** Recovery sets the variable exactly when the key has the right size, whatever fails later. */
  lemma RecoverSets(cfg: Config, host: int, disk: Disk, p: Proc, key: Bytes, stamp: nat, f: Faults, a: StartArgs)
    requires p.state == Recovering && !cfg.isMarble
    ensures Recover(cfg, host, disk, p, key, stamp, f, a).1.env == if |key| == KEY_SIZE then Var(key) else p.env
  {
    hide HexEncode, StoreWrites, ApplyFiles, StartDatabase;
    var st := StoreKey(cfg, host, p.env, disk.files, key, stamp, f);
    StartTouches(cfg, disk.db, Attempt(p, key, st.env).(locked := true), a);
  }

  /** A process that is gone stays gone, and a mutex held for good stays held. */
  lemma Stuck(cfg: Config, s: Sys, e: Event, t: int)
    requires Others([e], t)
    ensures s.proc.None? ==> Next(cfg, s, e).proc.None?
    ensures s.proc.Some? && s.proc.value.locked ==> Next(cfg, s, e).proc.Some? && Next(cfg, s, e).proc.value.locked
  {
    hide InitializeWith, Recover;
    assert e in [e];
    if s.proc.Some? {
      var p := s.proc.value;
      match e
      case PostManifest(man, o) =>
        if man.Some? { InitializeTouches(cfg, s.disk.db, p, p.masterKey, man.value, o); }
      case Submit(u, o) =>
        if u in s.requests { InitializeTouches(cfg, s.disk.db, p, s.requests[u].key, s.requests[u].man, o); }
      case _ =>
    }
  }

  lemma {:induction false} StuckForever(cfg: Config, s: Sys, es: seq<Event>, t: int)
    requires Others(es, t) && (s.proc.Some? ==> s.proc.value.locked)
    ensures Life(cfg, s, es).proc.Some? ==> Life(cfg, s, es).proc.value.locked
    decreases |es|
  {
    hide Next;
    if es != [] {
      assert es[0] in es;
      Stuck(cfg, s, es[0], t);
      StuckForever(cfg, Next(cfg, s, es[0]), es[1..], t);
    }
  }

  /** After any requests, if the process lives and its mutex is free: the variable holds the last key, and
      request `t` still has the key it has read. */
  lemma {:induction false} VariableAfter(cfg: Config, s: Sys, es: seq<Event>, t: int, k: Bytes)
    requires !cfg.isMarble && s.proc.Some? && !s.proc.value.locked && s.proc.value.env == Var(k)
    requires Others(es, t) && t in s.requests
    ensures
      var s' := Life(cfg, s, es);
      s'.proc.Some? && !s'.proc.value.locked ==>
        && s'.proc.value.env == Var(LastKey(s.proc.value.state == Recovering, k, es))
        && t in s'.requests && s'.requests[t] == s.requests[t]
    decreases |es|
  {
    hide Next, HexEncode;
    if es != [] {
      var e := es[0];
      assert e in es;
      OneRequest(cfg, s, e, t, k);
      OneKey(s.proc.value.state == Recovering, k, e);
      var s1 := Next(cfg, s, e);
      if s1.proc.Some? && !s1.proc.value.locked {
        VariableAfter(cfg, s1, es[1..], t, LastKey(s.proc.value.state == Recovering, k, [e]));
      } else {
        StuckForever(cfg, s1, es[1..], t);
      }
    }
  }

  /** What a request that hands out a blob has done. */
  lemma HandsOut(cfg: Config, db: Option<Database>, p: Proc, key: Option<Bytes>, m: Manifest, o: Bootstrap)
    ensures
      var r := InitializeWith(cfg, db, p, key, m, o);
      r.2.Ok? && r.2.blob.Some? ==>
        && !p.locked && r.0.Some? && r.0.value.key == p.env && m.recovery.Public?
        && r.2.blob.value == Rsa(m.recovery.id, if key.Some? then key.value else [])
  {
    hide Script, Ran, Exec, Attempted, Restarting;
  }

  /** From any state with a key in place, whatever other requests do between the two halves of request `t`:
      if it hands out a blob, that blob is for the key it has read, and this is the database's key if and
      only if the last recovery in between with a key of the right size, if there is one, had that key. */
  lemma BlobIsKeyIff(cfg: Config, s: Sys, t: int, m: Manifest, es: seq<Event>, o: Bootstrap, k: Bytes)
    requires !cfg.isMarble && s.proc.Some? && !s.proc.value.locked && Others(es, t)
    requires s.proc.value.masterKey == Some(k) && s.proc.value.env == Var(k)
    ensures
      var s1 := Life(cfg, Next(cfg, s, Arrive(t, m)), es);
      var s2 := Next(cfg, s1, Submit(t, o));
      s2.issued != s1.issued ==>
        && m.recovery.Public? && s2.issued == s1.issued + [Rsa(m.recovery.id, k)]
        && s2.disk.db.Some?
        && (s2.disk.db.value.key == Var(k) <==> LastKey(s.proc.value.state == Recovering, k, es) == k)
  {
    hide Life, HexEncode, InitializeWith, Others;
    var s0 := Next(cfg, s, Arrive(t, m));
    var s1 := Life(cfg, s0, es);
    VariableAfter(cfg, s0, es, t, k);
    var last := LastKey(s.proc.value.state == Recovering, k, es);
    if s1.proc.Some? && t in s1.requests {
      HandsOut(cfg, s1.disk.db, s1.proc.value, s1.requests[t].key, s1.requests[t].man, o);
    }
    if Var(last) == Var(k) { HexInjective(last, k); }
  }

  /** It happens: a process in recovery, a manifest request that has read `k1`, a recovery with `k2`, and
      the request goes on. Every step but the last is allowed. */
  lemma BlobForOtherKey(cfg: Config, host: int, key: Bytes, random: Bytes, k1: Bytes, k2: Bytes, m: Manifest)
    requires !cfg.isMarble && !cfg.hasManifestPath && (cfg.debug ==> m.debug)
    requires |key| == KEY_SIZE && |k1| == KEY_SIZE && |k2| == KEY_SIZE && k1 != k2
    requires m.recovery.Public? && KEY_SIZE <= m.recovery.capacity
    ensures
      var s := InRecovery(cfg, host, key, random, k1);
      var s1 := Next(cfg, s, Arrive(0, m));
      var s2 := Next(cfg, s1, PostRecover(k2, 1, NO_FAULTS, NO_FILE));
      var s3 := Next(cfg, s2, Submit(0, Completes(m)));
      && Allowed(s, Arrive(0, m)) && Allowed(s1, PostRecover(k2, 1, NO_FAULTS, NO_FILE))
      && !Allowed(s2, Submit(0, Completes(m)))
      && s3.issued == [Rsa(m.recovery.id, k1)] && s3.disk.db == Some(Database(Var(k2), Script(m)))
      && Var(k1) != Var(k2)
  {
    hide HexEncode, Recover, InRecovery, Script, Attempted, Restarting;
    InRecoveryWaits(cfg, host, key, random, k1);
    var s := InRecovery(cfg, host, key, random, k1);
    RecoverNothing(cfg, host, s.disk, s.proc.value, k2, 1, NO_FAULTS, NO_FILE);
    assert [] + Script(m) == Script(m);
    if Var(k1) == Var(k2) { HexInjective(k1, k2); }
  }
}
