/** Threads on open files and paths, with the two mutexes of the source: one per open file, and the
    handler's. Every lock region is a step of its own, and inside the handler's region reading the
    store and writing it back are separate steps. */
module Interleaving {
  import opened Text
  import opened Paths
  import opened Content
  import opened FileLayer

  /** Calls that lock the open file. */
  predicate OnFile(c: Call) { c.Read? || c.Write? || c.Lseek? || c.Fstat? }

  /** Calls with one handler region and no open file. */
  predicate OnPath(c: Call) { c.Stat? || c.Access? || c.Rename? || c.Unlink? || c.Dir? }

  /** Absolute and relative seeks do not look at the store. */
  predicate NeedsStore(c: Call) { c.Lseek? ==> c.whence.SeekEnd? }

  datatype Phase =
    | Idle
    | Want(c: Call)               // nothing locked yet
    | HasFile(c: Call)            // holds the file mutex
    | InHandler(c: Call)          // holds the handler mutex too
    | Fetched(c: Call, p: Plan)   // has read the store
    | Committed(c: Call)          // has written the store back and left the handler

  /** What a thread that has left the handler will store in its open file. */
  datatype Pending = Pending(t: int, h: Handle)

  datatype State = State(
    w: World,
    phase: map<int, Phase>,
    pending: map<int, Pending>,
    log: seq<Call>,               // calls in the order they took effect
    results: seq<CResult>)

  datatype Move =
    | Start(t: int, c: Call) | TakeFile(t: int) | TakeHandler(t: int) | Fetch(t: int) | Effect(t: int) | Finish(t: int)

  /** The thread holds the mutex of open file `fd`. */
  predicate OwnsFile(ph: Phase, fd: int)
  {
    !ph.Idle? && !ph.Want? && OnFile(ph.c) && ph.c.fd == fd
  }

  /** The thread holds the handler's mutex. */
  predicate OwnsHandler(ph: Phase) { ph.InHandler? || ph.Fetched? }

  predicate FileFree(s: State, fd: int) { forall t | t in s.phase :: !OwnsFile(s.phase[t], fd) }

  predicate HandlerFree(s: State) { forall t | t in s.phase :: !OwnsHandler(s.phase[t]) }

  predicate Callable(w: World, c: Call) { OnPath(c) || (OnFile(c) && c.fd in w.handles) }

  /** A move waits for its mutex. */
  predicate Enabled(s: State, m: Move)
  {
    m.t in s.phase &&
    var ph := s.phase[m.t];
    match m
    case Start(t, c) => ph.Idle? && Callable(s.w, c)
    case TakeFile(t) => ph.Want? && OnFile(ph.c) && FileFree(s, ph.c.fd)
    case TakeHandler(t) =>
      ((ph.HasFile? && NeedsStore(ph.c)) || (ph.Want? && OnPath(ph.c))) && HandlerFree(s)
    case Fetch(t) => ph.InHandler?
    case Effect(t) => (ph.Fetched? || (ph.HasFile? && !NeedsStore(ph.c))) && Callable(s.w, ph.c)
    case Finish(t) => ph.Committed? && OnFile(ph.c) && ph.c.fd in s.pending
  }

  function NewHandle(w: World, c: Call, p: Plan): Handle
    requires OnFile(c) && c.fd in w.handles
  {
    if c.fd in p.handles then p.handles[c.fd] else w.handles[c.fd]
  }

  ghost function Do(s: State, m: Move): State
    requires Enabled(s, m)
  {
    var ph := s.phase[m.t];
    match m
    case Start(t, c) => s.(phase := s.phase[t := Want(c)])
    case TakeFile(t) => s.(phase := s.phase[t := HasFile(ph.c)])
    case TakeHandler(t) => s.(phase := s.phase[t := InHandler(ph.c)])
    case Fetch(t) => s.(phase := s.phase[t := Fetched(ph.c, PlanOf(s.w, ph.c))])
    case Effect(t) =>
      var p := if ph.Fetched? then ph.p else PlanOf(s.w, ph.c);
      s.(w := World(ApplyAll(s.w.store, p.ops), p.memfs, s.w.handles),
         phase := s.phase[t := if OnFile(ph.c) then Committed(ph.c) else Idle],
         pending := if OnFile(ph.c) then s.pending[ph.c.fd := Pending(t, NewHandle(s.w, ph.c, p))] else s.pending,
         log := s.log + [ph.c],
         results := s.results + [p.result])
    case Finish(t) =>
      s.(w := s.w.(handles := s.w.handles[ph.c.fd := s.pending[ph.c.fd].h]),
         phase := s.phase[t := Idle],
         pending := s.pending - {ph.c.fd})
  }

  // --- the invariant ---------------------------------------------------------

  /** Each mutex is held by one thread at most. */
  ghost predicate Exclusive(s: State)
  {
    && (forall t, u, fd | t in s.phase && u in s.phase && OwnsFile(s.phase[t], fd) && OwnsFile(s.phase[u], fd) :: t == u)
    && (forall t, u | t in s.phase && u in s.phase && OwnsHandler(s.phase[t]) && OwnsHandler(s.phase[u]) :: t == u)
  }

  ghost predicate PhaseOk(w: World, ph: Phase)
  {
    && (!ph.Idle? ==> Callable(w, ph.c))
    && (ph.HasFile? ==> OnFile(ph.c))
    && (ph.InHandler? || ph.Fetched? ==> NeedsStore(ph.c))
    && (ph.Committed? ==> OnFile(ph.c))
  }

  ghost predicate PhasesOk(s: State) { forall t | t in s.phase :: PhaseOk(s.w, s.phase[t]) }

  /** Two plans of a call agree on everything the call may do. */
  predicate SamePlan(c: Call, p: Plan, q: Plan)
  {
    p.ops == q.ops && p.memfs == q.memfs && p.result == q.result &&
    (OnFile(c) ==> c.fd in p.handles && c.fd in q.handles && p.handles[c.fd] == q.handles[c.fd])
  }

  predicate CommittedOn(ph: Phase, fd: int) { ph.Committed? && OnFile(ph.c) && ph.c.fd == fd }

  /** The pending offsets are those of the threads that have left the handler. */
  ghost predicate PendingOk(s: State)
  {
    && (forall fd | fd in s.pending :: s.pending[fd].t in s.phase && CommittedOn(s.phase[s.pending[fd].t], fd))
    && (forall t, fd | t in s.phase && CommittedOn(s.phase[t], fd) :: fd in s.pending && s.pending[fd].t == t)
  }

  /** Each handle as the last call on it left it, counting calls that have not stored it yet. */
  function Handles(s: State): map<int, Handle>
  {
    map fd | fd in s.w.handles :: if fd in s.pending then s.pending[fd].h else s.w.handles[fd]
  }

  /** What the threads inside the handler have read is still true of the serial world `g`. */
  ghost predicate Fresh(s: State, g: World)
  {
    forall t | t in s.phase && s.phase[t].Fetched? :: SamePlan(s.phase[t].c, s.phase[t].p, PlanOf(g, s.phase[t].c))
  }

  ghost predicate Matches(s: State, g: World)
  {
    g == World(s.w.store, s.w.memfs, Handles(s))
  }

  ghost predicate Inv(s: State, w0: World)
  {
    && Exclusive(s) && PhasesOk(s) && PendingOk(s)
    && s.results == Results(w0, s.log)
    && Matches(s, Run(w0, s.log))
    && Fresh(s, Run(w0, s.log))
  }

  // --- calls are local --------------------------------------------------------

  /** A call changes no handle but its own. */
  lemma OwnHandleOnly(w: World, c: Call)
    requires Callable(w, c)
    ensures PlanOf(w, c).handles.Keys == w.handles.Keys
    ensures forall fd | fd in w.handles && (OnPath(c) || fd != c.fd) :: PlanOf(w, c).handles[fd] == w.handles[fd]
  {
    hide PlanOpen, PlanAccess, PlanStat, PlanRename, PlanUnlink, DirResult, Copy, Grow, AddU64, AddSigned, Lookup, GetCf;
  }

  /** A call depends on the store, the in-memory files and its own handle only. */
  lemma CallsAreLocal(w: World, v: World, c: Call)
    requires Callable(w, c) && Callable(v, c)
    requires w.store == v.store && w.memfs == v.memfs
    requires OnFile(c) ==> w.handles[c.fd] == v.handles[c.fd]
    ensures SamePlan(c, PlanOf(w, c), PlanOf(v, c))
  {
    hide PlanOf, SamePlan;
    if OnFile(c) { FileCallsAreLocal(w, v, c); } else { PathCallsAreLocal(w, v, c); }
  }

  lemma FileCallsAreLocal(w: World, v: World, c: Call)
    requires OnFile(c) && c.fd in w.handles && c.fd in v.handles && w.handles[c.fd] == v.handles[c.fd]
    requires w.store == v.store && w.memfs == v.memfs
    ensures SamePlan(c, PlanOf(w, c), PlanOf(v, c))
  {
    hide Copy, Grow, AddU64, AddSigned, Lookup, GetCf, FileSize;
  }

  lemma PathCallsAreLocal(w: World, v: World, c: Call)
    requires OnPath(c) && w.store == v.store && w.memfs == v.memfs
    ensures SamePlan(c, PlanOf(w, c), PlanOf(v, c))
  {
    hide Lookup, GetCf, ParseFile, EndsWith, ParseFolder, Normalize, IsKnownExtension, IsKnownFile, IsFolder,
      Exists, DirResult, Get;
  }

  lemma SeekLeavesStore(w: World, c: Call)
    requires Callable(w, c) && !NeedsStore(c)
    ensures PlanOf(w, c).ops == [] && PlanOf(w, c).memfs == w.memfs
  {
    hide AddSigned, FileSize;
  }

  lemma {:induction false} RunSnoc(w: World, calls: seq<Call>, c: Call)
    ensures Run(w, calls + [c]) == Step(Run(w, calls), c)
    ensures Results(w, calls + [c]) == Results(w, calls) + [PlanOf(Run(w, calls), c).result]
    decreases |calls|
  {
    hide PlanOf, Commit;
    var all := calls + [c];
    if calls == [] {
      assert all[1..] == [];
    } else {
      assert all[1..] == calls[1..] + [c] && all[0] == calls[0];
      RunSnoc(Step(w, calls[0]), calls[1..], c);
    }
  }

  // --- preservation ------------------------------------------------------------

  lemma ExclusiveKept(s: State, m: Move)
    requires Exclusive(s) && PhasesOk(s) && Enabled(s, m)
    ensures Exclusive(Do(s, m))
  {
    hide PlanOf, ApplyAll, NeedsStore;
    var s' := Do(s, m);
    assert PhaseOk(s.w, s.phase[m.t]);
    assert forall t | t in s.phase && t != m.t :: s'.phase[t] == s.phase[t];
    assert !m.TakeFile? ==> forall fd | OwnsFile(s'.phase[m.t], fd) :: OwnsFile(s.phase[m.t], fd);
    assert !m.TakeHandler? ==> (OwnsHandler(s'.phase[m.t]) ==> OwnsHandler(s.phase[m.t]));
  }

  lemma PhasesKept(s: State, m: Move)
    requires PhasesOk(s) && Enabled(s, m)
    ensures PhasesOk(Do(s, m))
  {
    hide PlanOf, ApplyAll;
    var s', ph := Do(s, m), s.phase[m.t];
    assert PhaseOk(s.w, ph);
    assert s.w.handles.Keys <= s'.w.handles.Keys;
  }

  lemma PendingKept(s: State, m: Move)
    requires Exclusive(s) && PendingOk(s) && Enabled(s, m)
    ensures PendingOk(Do(s, m))
  {
    hide PlanOf, ApplyAll, NeedsStore, OwnsHandler, FileFree, HandlerFree, Callable, Exclusive;
    var s', ph := Do(s, m), s.phase[m.t];
    assert forall t | t in s.phase && t != m.t :: s'.phase[t] == s.phase[t];
    if !m.Effect? && !m.Finish? {
      assert forall t, fd | t in s.phase :: CommittedOn(s'.phase[t], fd) <==> CommittedOn(s.phase[t], fd);
    } else if OnFile(ph.c) {
      OthersNotCommitted(s, m.t, ph.c.fd);
      if m.Effect? { PendingEffect(s, s', m.t, ph.c); } else { PendingFinish(s, s', m.t, ph.c); }
    }
  }

  lemma PendingEffect(s: State, s': State, t: int, c: Call)
    requires PendingOk(s) && t in s.phase && OnFile(c) && !s.phase[t].Committed?
    requires s'.phase == s.phase[t := Committed(c)]
    requires c.fd in s'.pending && s'.pending[c.fd].t == t && s'.pending - {c.fd} == s.pending - {c.fd}
    requires forall u | u in s.phase && u != t :: !CommittedOn(s.phase[u], c.fd)
    ensures PendingOk(s')
  {
    forall fd | fd != c.fd
      ensures (fd in s.pending <==> fd in s'.pending) && (fd in s.pending ==> s.pending[fd] == s'.pending[fd])
    {
      assert fd in s.pending <==> fd in s.pending - {c.fd};
      assert fd in s'.pending <==> fd in s'.pending - {c.fd};
      assert fd in s.pending ==> (s.pending - {c.fd})[fd] == (s'.pending - {c.fd})[fd];
    }
    forall u, fd | u in s'.phase && CommittedOn(s'.phase[u], fd) ensures fd in s'.pending && s'.pending[fd].t == u {
      assert u != t ==> CommittedOn(s.phase[u], fd);
    }
  }

  lemma PendingFinish(s: State, s': State, t: int, c: Call)
    requires PendingOk(s) && t in s.phase && OnFile(c) && s.phase[t] == Committed(c)
    requires s'.phase == s.phase[t := Idle] && s'.pending == s.pending - {c.fd}
    requires forall u | u in s.phase && u != t :: !CommittedOn(s.phase[u], c.fd)
    ensures PendingOk(s')
  {
    forall u, fd | u in s'.phase && CommittedOn(s'.phase[u], fd) ensures fd in s'.pending && s'.pending[fd].t == u {
      assert u != t && CommittedOn(s.phase[u], fd);
    }
  }

  lemma OthersNotCommitted(s: State, t: int, fd: int)
    requires Exclusive(s) && t in s.phase && OwnsFile(s.phase[t], fd)
    ensures forall u | u in s.phase && u != t :: !CommittedOn(s.phase[u], fd)
  {
    assert forall u | u in s.phase && CommittedOn(s.phase[u], fd) :: OwnsFile(s.phase[u], fd);
  }

  /** Between taking the file mutex and taking effect, a thread's handle is the serial one. */
  lemma OwnerSeesSerial(s: State, t: int, c: Call)
    requires Exclusive(s) && PendingOk(s) && t in s.phase && Callable(s.w, c)
    requires s.phase[t] == HasFile(c) || s.phase[t] == InHandler(c)
    ensures SamePlan(c, PlanOf(s.w, c), PlanOf(World(s.w.store, s.w.memfs, Handles(s)), c))
  {
    hide PlanOf, SamePlan, OwnsHandler;
    var g := World(s.w.store, s.w.memfs, Handles(s));
    if OnFile(c) {
      OthersNotCommitted(s, t, c.fd);
      assert c.fd !in s.pending;
    }
    CallsAreLocal(s.w, g, c);
  }

  /** The serial world after a move: the same, or one call further when the move takes effect. */
  ghost function SerialAfter(s: State, m: Move, g: World): World
    requires Enabled(s, m)
  {
    if m.Effect? then Step(g, s.phase[m.t].c) else g
  }

  lemma MatchKeptQuiet(s: State, m: Move, g: World)
    requires PhasesOk(s) && Matches(s, g) && Enabled(s, m) && !m.Effect?
    ensures Matches(Do(s, m), g)
  {
    hide PlanOf, NeedsStore, FileFree, HandlerFree;
    assert PhaseOk(s.w, s.phase[m.t]);
    assert Handles(Do(s, m)) == Handles(s);
  }

  /** The plan a thread carries out is the one the serial world would make. */
  lemma PlanIsSerial(s: State, t: int, g: World)
    requires Exclusive(s) && PendingOk(s) && Matches(s, g) && Fresh(s, g) && Enabled(s, Effect(t))
    ensures
      var ph := s.phase[t];
      SamePlan(ph.c, if ph.Fetched? then ph.p else PlanOf(s.w, ph.c), PlanOf(g, ph.c))
  {
    hide PlanOf, SamePlan, NeedsStore, Exclusive, PendingOk;
    if s.phase[t].HasFile? {
      OwnerSeesSerial(s, t, s.phase[t].c);
    }
  }

  lemma MatchKeptCommit(s: State, t: int, g: World)
    requires Exclusive(s) && PendingOk(s) && Matches(s, g) && Fresh(s, g) && Enabled(s, Effect(t))
    ensures Matches(Do(s, Effect(t)), Step(g, s.phase[t].c))
    ensures Do(s, Effect(t)).results == s.results + [PlanOf(g, s.phase[t].c).result]
  {
    hide PlanOf, NeedsStore, Exclusive, PendingOk, Fresh, ApplyAll;
    PlanIsSerial(s, t, g);
    var c, s' := s.phase[t].c, Do(s, Effect(t));
    assert Callable(g, c);
    OwnHandleOnly(g, c);
    forall fd | fd in s.w.handles ensures Handles(s')[fd] == PlanOf(g, c).handles[fd] {
      if OnFile(c) && fd == c.fd {
        assert fd in s'.pending;
      } else {
        assert g.handles[fd] == Handles(s)[fd];
      }
    }
    assert Handles(s') == PlanOf(g, c).handles;
  }

  lemma FreshKept(s: State, m: Move, g: World)
    requires Exclusive(s) && PhasesOk(s) && PendingOk(s) && Matches(s, g) && Fresh(s, g) && Enabled(s, m)
    ensures Fresh(Do(s, m), SerialAfter(s, m, g))
  {
    hide PlanOf, NeedsStore, SamePlan, PendingOk, FileFree, HandlerFree, ApplyAll;
    var s', ph := Do(s, m), s.phase[m.t];
    var g' := SerialAfter(s, m, g);
    forall t | t in s'.phase && s'.phase[t].Fetched?
      ensures SamePlan(s'.phase[t].c, s'.phase[t].p, PlanOf(g', s'.phase[t].c))
    {
      if t == m.t {
        assert m.Fetch?;
        assert PhaseOk(s.w, ph);
        OwnerSeesSerial(s, t, ph.c);
      } else {
        assert s'.phase[t] == s.phase[t] && OwnsHandler(s.phase[t]);
        if m.Effect? {
          SeekKeepsFresh(s, m.t, t, g);
        }
      }
    }
  }

  /** A seek that takes effect while another thread is inside the handler does not disturb it. */
  lemma SeekKeepsFresh(s: State, t: int, u: int, g: World)
    requires Exclusive(s) && PhasesOk(s) && Matches(s, g) && Fresh(s, g) && Enabled(s, Effect(t))
    requires u in s.phase && u != t && s.phase[u].Fetched?
    ensures SamePlan(s.phase[u].c, s.phase[u].p, PlanOf(Step(g, s.phase[t].c), s.phase[u].c))
  {
    hide PlanOf, ApplyAll;
    assert OwnsHandler(s.phase[u]) && !OwnsHandler(s.phase[t]);
    assert PhaseOk(s.w, s.phase[u]) && PhaseOk(s.w, s.phase[t]);
    var c, d := s.phase[t].c, s.phase[u].c;
    OwnHandleOnly(g, c);
    SeekLeavesStore(g, c);
    ApplyNothing(g.store);
    assert OnFile(d) ==> OwnsFile(s.phase[u], d.fd) && !OwnsFile(s.phase[t], d.fd);
    CallsAreLocal(g, Step(g, c), d);
  }

  lemma ApplyNothing(st: Store)
    ensures ApplyAll(st, []) == st
  {
  }

  /** Every move keeps the invariant. */
  lemma InvKept(s: State, m: Move, w0: World)
    requires Inv(s, w0) && Enabled(s, m)
    ensures Inv(Do(s, m), w0)
  {
    hide PlanOf, Exclusive, PhasesOk, PendingOk, Matches, Fresh, ApplyAll, Results, Run, FileFree, HandlerFree;
    var g := Run(w0, s.log);
    ExclusiveKept(s, m);
    PhasesKept(s, m);
    PendingKept(s, m);
    FreshKept(s, m, g);
    if m.Effect? {
      MatchKeptCommit(s, m.t, g);
      RunSnoc(w0, s.log, s.phase[m.t].c);
    } else {
      MatchKeptQuiet(s, m, g);
    }
  }

  // --- runs -----------------------------------------------------------------------

  ghost predicate Runs(s: State, moves: seq<Move>)
    decreases |moves|
  {
    moves == [] || (Enabled(s, moves[0]) && Runs(Do(s, moves[0]), moves[1..]))
  }

  ghost function End(s: State, moves: seq<Move>): State
    requires Runs(s, moves)
    decreases |moves|
  {
    if moves == [] then s else End(Do(s, moves[0]), moves[1..])
  }

  predicate Initial(s: State)
  {
    s.pending == map[] && s.log == [] && s.results == [] && forall t | t in s.phase :: s.phase[t].Idle?
  }

  lemma {:induction false} RunKeepsInv(s: State, moves: seq<Move>, w0: World)
    requires Inv(s, w0) && Runs(s, moves)
    ensures Inv(End(s, moves), w0)
    decreases |moves|
  {
    hide Inv, PlanOf, Enabled, Do;
    if moves != [] {
      InvKept(s, moves[0], w0);
      RunKeepsInv(Do(s, moves[0]), moves[1..], w0);
    }
  }

  lemma InitialInv(s: State)
    requires Initial(s)
    ensures Inv(s, s.w)
  {
    hide PlanOf;
    assert Handles(s) == s.w.handles;
  }

  /** Every interleaving is serial: results and store are those of running the logged calls one
      after the other, and once all threads are idle so are the offsets. No update is lost. */
  lemma InterleavingIsSerial(s: State, moves: seq<Move>)
    requires Initial(s) && Runs(s, moves)
    ensures
      var e := End(s, moves);
      && e.results == Results(s.w, e.log)
      && e.w.store == Run(s.w, e.log).store
      && ((forall t | t in e.phase :: e.phase[t].Idle?) ==> e.w == Run(s.w, e.log))
  {
    hide PlanOf, Do, Enabled, Exclusive, PhasesOk, PendingOk, Fresh, Results, Run, Runs, End, Handles;
    InitialInv(s);
    RunKeepsInv(s, moves, s.w);
    var e := End(s, moves);
    if forall t | t in e.phase :: e.phase[t].Idle? {
      NothingPending(e);
    }
  }

  lemma NothingPending(e: State)
    requires PendingOk(e) && forall t | t in e.phase :: e.phase[t].Idle?
    ensures Handles(e) == e.w.handles
  {
    assert forall fd :: fd !in e.pending;
  }

  /** No deadlock: in every reachable state, if some thread is inside a call, some such thread can move on. */
  lemma NoDeadlock(s: State, moves: seq<Move>, t: int)
    requires Initial(s) && Runs(s, moves) && t in End(s, moves).phase && !End(s, moves).phase[t].Idle?
    ensures exists m :: Enabled(End(s, moves), m) && !m.Start?
  {
    hide PlanOf, Do, Results, Run, Runs, End, Enabled, Exclusive, Fresh, Matches;
    InitialInv(s);
    RunKeepsInv(s, moves, s.w);
    var e := End(s, moves);
    var u := if exists x | x in e.phase :: OwnsHandler(e.phase[x])
             then var x :| x in e.phase && OwnsHandler(e.phase[x]); x
             else t;
    SomeoneMoves(e, u);
  }

  /** A thread that holds the handler mutex, or any thread in a call when nobody holds it, leads to a
      thread that can move: the file mutex is only ever taken before the handler's. */
  lemma SomeoneMoves(e: State, u: int)
    requires PhasesOk(e) && PendingOk(e) && u in e.phase && !e.phase[u].Idle?
    requires OwnsHandler(e.phase[u]) || HandlerFree(e)
    ensures exists m :: Enabled(e, m) && !m.Start?
  {
    var x := u;
    if e.phase[u].Want? && OnFile(e.phase[u].c) && !FileFree(e, e.phase[u].c.fd) {
      x :| x in e.phase && OwnsFile(e.phase[x], e.phase[u].c.fd);
    }
    var ph := e.phase[x];
    assert PhaseOk(e.w, ph) && PhaseOk(e.w, e.phase[u]);
    if ph.Committed? {
      assert CommittedOn(ph, ph.c.fd);
      assert Enabled(e, Finish(x));
    } else if ph.Fetched? || (ph.HasFile? && !NeedsStore(ph.c)) {
      assert Enabled(e, Effect(x));
    } else if ph.InHandler? {
      assert Enabled(e, Fetch(x));
    } else if ph.Want? && OnFile(ph.c) {
      assert Enabled(e, TakeFile(x));
    } else {
      assert Enabled(e, TakeHandler(x));
    }
  }
}
