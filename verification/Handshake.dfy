/** The start-up handshake between `Mariadb.Start` and the server thread: an environment variable, an
    atomic flag and a listening socket, in every interleaving, with stray clients. */
module Handshake {

  /** Where `Mariadb.Start` is. */
  datatype Go =
    | SetAddr | Spawn | WaitReady | Connect | AwaitRow | Record | WriteCa | WriteCert | WriteKey
    | ClearAddr | Dial | WaitStarted | Returned | Dead

  /** Where the server thread is. */
  datatype Server =
    | NotSpawned | ReadAddr | Listen | SetReady | Accept | Handle(c: Client) | CheckAddr | Close | Started

  datatype Client = Query | Final | Stray

  datatype Addr = Unset | Address | Cleared

  const BACKLOG := 3

  datatype State = State(
    go: Go, server: Server,
    addr: Addr, ready: bool, listening: bool, queue: seq<Client>,
    served: bool,                               // the configuration query has been handled
    sig: bool, ca: bool, cert: bool, key: bool) // recorded and written

  /** `ready` is the flag as an earlier start in the same process would leave it. */
  function Init(ready: bool): State
  {
    State(SetAddr, NotSpawned, Unset, ready, false, [], false, false, false, false, false)
  }

  datatype Move = GoStep | GoFails | ServerStep | StrayConnects

  predicate Room(s: State) { s.listening && |s.queue| <= BACKLOG }

  /** A connection waits for room in the queue; without a listener it is refused at once. */
  predicate GoEnabled(s: State)
  {
    match s.go
    case WaitReady => s.ready
    case Connect => Room(s) || !s.listening
    case AwaitRow => s.served
    case Dial => Room(s) || !s.listening
    case WaitStarted => s.server == Started
    case Returned => false
    case Dead => false
    case _ => true
  }

  predicate Enabled(s: State, m: Move)
  {
    s.go != Dead &&
    match m
    case GoStep => GoEnabled(s)
    case GoFails => s.go in {AwaitRow, Record, WriteCa, WriteCert, WriteKey}
    case ServerStep => s.server != NotSpawned && s.server != Started && (s.server == Accept ==> s.queue != [])
    case StrayConnects => Room(s)
  }

  function NextGo(s: State): Go
  {
    match s.go
    case SetAddr => Spawn
    case Spawn => WaitReady
    case WaitReady => Connect
    case Connect => if s.listening then AwaitRow else Dead
    case AwaitRow => Record
    case Record => WriteCa
    case WriteCa => WriteCert
    case WriteCert => WriteKey
    case WriteKey => ClearAddr
    case ClearAddr => Dial
    case Dial => if s.listening then WaitStarted else Dead
    case WaitStarted => Returned
    case g => g
  }

  /** What `Start` sends. */
  function Sent(s: State): seq<Client>
  {
    if s.go == Connect && s.listening then [Query] else if s.go == Dial && s.listening then [Final] else []
  }

  function DoGo(s: State): State
  {
    s.(go := NextGo(s),
       server := if s.go == Spawn then ReadAddr else s.server,
       addr := if s.go == SetAddr then Address else if s.go == ClearAddr then Cleared else s.addr,
       queue := s.queue + Sent(s),
       sig := s.sig || s.go == Record,
       ca := s.ca || s.go == WriteCa,
       cert := s.cert || s.go == WriteCert,
       key := s.key || s.go == WriteKey)
  }

  function NextServer(s: State): Server
    requires s.server == Accept ==> s.queue != []
  {
    match s.server
    case ReadAddr => if s.addr == Unset then Started else if s.addr == Cleared then ReadAddr else Listen
    case Listen => SetReady
    case SetReady => Accept
    case Accept => Handle(s.queue[0])
    case Handle(_) => CheckAddr
    case CheckAddr => if s.addr == Address then Accept else Close
    case Close => Started
    case v => v
  }

  /** The server does not listen when the variable is unset, and aborts on an empty one. */
  function DoServer(s: State): State
    requires s.server == Accept ==> s.queue != []
  {
    s.(go := if s.server == ReadAddr && s.addr == Cleared then Dead else s.go,
       server := NextServer(s),
       ready := s.ready || s.server == SetReady,
       listening := (s.listening || s.server == Listen) && s.server != Close,
       queue := if s.server == Accept then s.queue[1..] else if s.server == Close then [] else s.queue,
       served := s.served || s.server == Handle(Query))
  }

  function Do(s: State, m: Move): State
    requires Enabled(s, m)
  {
    match m
    case GoStep => DoGo(s)
    case GoFails => s.(go := Dead)
    case ServerStep => DoServer(s)
    case StrayConnects => s.(queue := s.queue + [Stray])
  }

  ghost predicate Runs(s: State, ms: seq<Move>)
    decreases |ms|
  {
    ms == [] || (Enabled(s, ms[0]) && Runs(Do(s, ms[0]), ms[1..]))
  }

  ghost function End(s: State, ms: seq<Move>): State
    requires Runs(s, ms)
    decreases |ms|
  {
    if ms == [] then s else End(Do(s, ms[0]), ms[1..])
  }

  // --- the invariant -----------------------------------------------------------

  predicate Prepared(s: State) { s.sig && s.ca && s.cert && s.key }

  predicate InLoop(v: Server) { v.Accept? || v.Handle? || v.CheckAddr? }

  /** How far `Start` has come. */
  function Rank(g: Go): int
  {
    match g
    case SetAddr => 0 case Spawn => 1 case WaitReady => 2 case Connect => 3 case AwaitRow => 4
    case Record => 5 case WriteCa => 6 case WriteCert => 7 case WriteKey => 8 case ClearAddr => 9
    case Dial => 10 case WaitStarted => 11 case Returned => 12 case Dead => -1
  }

  predicate Inv(s: State)
  {
    var r := Rank(s.go);
    s.go != Dead ==>
      && (r == 0 <==> s.addr == Unset)
      && (10 <= r <==> s.addr == Cleared)
      && (r <= 1 <==> s.server == NotSpawned)
      // what has been recorded and written so far
      && (6 <= r ==> s.sig) && (7 <= r ==> s.ca) && (8 <= r ==> s.cert) && (9 <= r ==> s.key)
      // the socket
      && (s.listening <==> s.server == SetReady || InLoop(s.server) || s.server == Close)
      && (s.ready <==> InLoop(s.server) || s.server == Close || s.server == Started)
      && (3 <= r ==> s.ready)
      && (s.server == Close || s.server == Started ==> s.addr == Cleared)
      // the query is not lost, and the last wake-up
      && (r == 4 && !s.served ==> Query in s.queue || s.server == Handle(Query))
      && (r == 11 && s.server == Accept ==> s.queue != [])
      && (r == 12 ==> s.server == Started)
      // closing resets what was still waiting
      && (s.server == Started ==> s.queue == [])
  }

  lemma GoKeeps(s: State)
    requires Inv(s) && GoEnabled(s)
    ensures Inv(DoGo(s))
  {
  }

  lemma ServerKeeps(s: State)
    requires Inv(s) && Enabled(s, ServerStep)
    ensures Inv(DoServer(s))
  {
    hide GoEnabled, Rank;
  }

  lemma StepKeeps(s: State, m: Move)
    requires Inv(s) && Enabled(s, m)
    ensures Inv(Do(s, m))
  {
    hide DoGo, DoServer;
    match m
    case GoStep => GoKeeps(s);
    case ServerStep => ServerKeeps(s);
    case _ =>
  }

  lemma {:induction false} RunKeeps(s: State, ms: seq<Move>)
    requires Inv(s) && Runs(s, ms)
    ensures Inv(End(s, ms))
    decreases |ms|
  {
    hide Inv, Enabled, Do;
    if ms != [] {
      StepKeeps(s, ms[0]);
      RunKeeps(Do(s, ms[0]), ms[1..]);
    }
  }

  // --- the query ------------------------------------------------------------------

  /** The configuration query, wherever it is: in the queue, being handled, or handled. */
  function Queries(s: State): nat
  {
    multiset(s.queue)[Query] + (if s.server == Handle(Query) then 1 else 0) + (if s.served then 1 else 0)
  }

  /** Each thing is done after the one before it. */
  predicate Ordered(s: State)
  {
    var r := Rank(s.go);
    && (5 <= r ==> s.served) && (6 <= r ==> s.sig) && (7 <= r ==> s.ca) && (8 <= r ==> s.cert) && (9 <= r ==> s.key)
    && (s.sig ==> s.served) && (s.ca ==> s.sig) && (s.cert ==> s.ca) && (s.key ==> s.cert)
  }

  /** The query is sent once, and not before its time. */
  predicate Counted(s: State)
  {
    Queries(s) <= 1 && (0 <= Rank(s.go) <= 3 ==> Queries(s) == 0) && |s.queue| <= 4
  }

  /** A server step writes nothing of Go's, and does not take back an answer. */
  predicate OnlyServer(s: State, t: State)
  {
    && t.sig == s.sig && t.ca == s.ca && t.cert == s.cert && t.key == s.key
    && (s.served ==> t.served) && (t.go == s.go || t.go == Dead)
  }

  lemma ServerTouches(s: State)
    requires s.server == Accept ==> s.queue != []
    ensures OnlyServer(s, DoServer(s))
  {
  }

  lemma ServerQueries(s: State)
    requires s.server == Accept ==> s.queue != []
    ensures Queries(DoServer(s)) <= Queries(s) && |DoServer(s).queue| <= |s.queue|
  {
    if s.server == Accept { assert s.queue == [s.queue[0]] + s.queue[1..]; }
  }

  /** Connecting adds the query; nothing else does. */
  lemma GoQueries(s: State)
    requires GoEnabled(s)
    ensures
      var t := DoGo(s);
      && Queries(t) <= Queries(s) + (if s.go == Connect && s.listening then 1 else 0)
      && (|s.queue| <= 4 ==> |t.queue| <= 4)
  {
    assert multiset(s.queue + Sent(s)) == multiset(s.queue) + multiset(Sent(s));
  }

  lemma GoOrdered(s: State)
    requires Ordered(s) && GoEnabled(s)
    ensures Ordered(DoGo(s))
  {
  }

  lemma AnswerKept(s: State, m: Move)
    requires Ordered(s) && Counted(s) && Enabled(s, m)
    ensures Ordered(Do(s, m)) && Counted(Do(s, m))
  {
    match m {
      case GoStep =>
        GoOrdered(s);
        GoQueries(s);
        assert Counted(DoGo(s)) by { hide Queries; }
      case ServerStep =>
        ServerTouches(s);
        ServerQueries(s);
        assert Ordered(DoServer(s)) && Counted(DoServer(s)) by { hide Queries, DoServer; }
      case GoFails =>
        assert Queries(s.(go := Dead)) == Queries(s);
      case StrayConnects =>
        assert Queries(s.(queue := s.queue + [Stray])) == Queries(s);
    }
  }

  lemma {:induction false} AnswerRun(s: State, ms: seq<Move>)
    requires Ordered(s) && Counted(s) && Runs(s, ms)
    ensures Ordered(End(s, ms)) && Counted(End(s, ms))
    decreases |ms|
  {
    hide Ordered, Counted, Enabled, Do;
    if ms != [] {
      AnswerKept(s, ms[0]);
      AnswerRun(Do(s, ms[0]), ms[1..]);
    }
  }

  // --- the main results -----------------------------------------------------------

  /** The answer comes first. On every interleaving, after failures and with a stale flag too: the query is
      sent once, after the server was found ready; the signature is recorded only after it was handled;
      the files are written only after the signature, in order; and `Start` returns only after all that. */
  lemma AnswerFirst(ready: bool, ms: seq<Move>)
    requires Runs(Init(ready), ms)
    ensures
      var s := End(Init(ready), ms);
      && (s.sig || s.ca || s.cert || s.key ==> s.served)
      && (s.ca ==> s.sig) && (s.cert ==> s.ca) && (s.key ==> s.cert)
      && (s.served ==> Query !in s.queue && s.server != Handle(Query) && s.go !in {SetAddr, Spawn, WaitReady, Connect})
      && (s.go == Returned ==> s.served && Prepared(s))
  {
    hide Runs, End, Enabled, Do;
    AnswerRun(Init(ready), ms);
  }

  /** Safety on every interleaving of one start: the server leaves its internal accept loop, and
      `Start` returns, only after the signature is recorded and the CA, certificate and key files are
      written; and the configuration query meets a listening socket. */
  lemma HandshakeSafe(ms: seq<Move>)
    requires Runs(Init(false), ms)
    ensures
      var s := End(Init(false), ms);
      s.go != Dead ==>
        && (s.server == Close || s.server == Started ==> Prepared(s))
        && (s.go == Returned ==> Prepared(s) && s.server == Started)
        && (s.server == Started ==> !s.listening && s.queue == [])
        && (s.go == Connect ==> s.listening)
  {
    RunKeeps(Init(false), ms);
  }

  /** No lost wake-up: once the final connection is made, the server never waits on an empty queue. */
  lemma NoLostWakeUp(ms: seq<Move>)
    requires Runs(Init(false), ms)
    ensures
      var s := End(Init(false), ms);
      !(s.addr == Cleared && s.go == WaitStarted && s.server == Accept && s.queue == [])
  {
    RunKeeps(Init(false), ms);
  }

  /** The handshake never gets stuck: until `Start` has returned or failed, it or the server can go on. */
  lemma NeverStuck(ms: seq<Move>)
    requires Runs(Init(false), ms)
    ensures
      var s := End(Init(false), ms);
      s.go != Dead && s.go != Returned ==> Enabled(s, GoStep) || Enabled(s, ServerStep)
  {
    hide Runs, End;
    RunKeeps(Init(false), ms);
  }

  /** Steps the server still has to make after the final connection. */
  function Remaining(v: Server): nat
  {
    match v
    case Accept => 4
    case Handle(_) => 3
    case CheckAddr => 2
    case Close => 1
    case _ => 0
  }

  /** After the final connection the server can always go on until it has started, each of its steps
      brings it closer, and nothing else sets it back: at most four steps remain. */
  lemma WakeUpArrives(ms: seq<Move>, m: Move)
    requires Runs(Init(false), ms) && End(Init(false), ms).go == WaitStarted
    requires Enabled(End(Init(false), ms), m)
    ensures
      var s := End(Init(false), ms);
      && (s.server != Started ==> Enabled(s, ServerStep) && Remaining(s.server) > 0)
      && (m == ServerStep ==> Remaining(Do(s, m).server) == Remaining(s.server) - 1)
      && (m != ServerStep ==> Do(s, m).server == s.server)
  {
    RunKeeps(Init(false), ms);
  }

  /** The final connection is refused exactly when the server has already left: it looked at the
      variable after the variable was cleared and before the connection was made. */
  lemma DialRefusedIff(ms: seq<Move>)
    requires Runs(Init(false), ms) && End(Init(false), ms).go == Dial
    ensures
      var s := End(Init(false), ms);
      && (Enabled(s, GoStep) && DoGo(s).go == Dead <==> s.server == Started)
      && (s.server != Started ==> s.server != NotSpawned && s.listening)
  {
    RunKeeps(Init(false), ms);
  }

  lemma {:induction false} RunsConcat(s: State, a: seq<Move>, b: seq<Move>)
    requires Runs(s, a) && Runs(End(s, a), b)
    ensures Runs(s, a + b) && End(s, a + b) == End(End(s, a), b)
    decreases |a|
  {
    hide Enabled, Do;
    if a == [] {
      assert a + b == b;
    } else {
      assert (a + b)[0] == a[0] && (a + b)[1..] == a[1..] + b;
      RunsConcat(Do(s, a[0]), a[1..], b);
    }
  }

  lemma Push(s: State, ms: seq<Move>, m: Move) returns (r: seq<Move>)
    requires Runs(s, ms) && Enabled(End(s, ms), m)
    ensures Runs(s, r) && End(s, r) == Do(End(s, ms), m)
  {
    hide Enabled, Do;
    var e := End(s, ms);
    assert [m][1..] == [] && Runs(Do(e, m), []);
    assert Runs(e, [m]) && End(e, [m]) == Do(e, m);
    RunsConcat(s, ms, [m]);
    r := ms + [m];
  }

  /** The run in which the server is ready and Go has not noticed yet. */
  lemma ServerReady() returns (ms: seq<Move>)
    ensures Runs(Init(false), ms)
    ensures End(Init(false), ms) == State(WaitReady, Accept, Address, true, true, [], false, false, false, false, false)
  {
    var s := Init(false);
    assert Runs(s, []) && End(s, []) == s;
    hide Runs, End;
    ms := Push(s, [], GoStep);
    ms := Push(s, ms, GoStep);
    ms := Push(s, ms, ServerStep);
    ms := Push(s, ms, ServerStep);
    ms := Push(s, ms, ServerStep);
  }

  /** The run in which the query has been handled but the server has not yet looked at the variable. */
  lemma QueryHandled() returns (ms: seq<Move>)
    ensures Runs(Init(false), ms)
    ensures End(Init(false), ms) == State(AwaitRow, CheckAddr, Address, true, true, [], true, false, false, false, false)
  {
    hide Runs, End;
    var s := Init(false);
    ms := ServerReady();
    ms := Push(s, ms, GoStep);
    ms := Push(s, ms, GoStep);
    assert End(s, ms).queue == [Query];
    ms := Push(s, ms, ServerStep);
    ms := Push(s, ms, ServerStep);
  }

  /** Such a run exists: the server handles the query, Go clears the variable, and the server checks
      it, closes and starts before Go connects again; `Start` then panics. */
  lemma DialCanBeRefused() returns (ms: seq<Move>)
    ensures Runs(Init(false), ms) && End(Init(false), ms).go == Dead && End(Init(false), ms).server == Started
  {
    hide Runs, End;
    var s := Init(false);
    ms := QueryHandled();
    ms := Push(s, ms, GoStep);
    ms := Push(s, ms, GoStep);
    ms := Push(s, ms, GoStep);
    ms := Push(s, ms, GoStep);
    ms := Push(s, ms, GoStep);
    ms := Push(s, ms, GoStep);
    assert End(s, ms).go == Dial;
    ms := Push(s, ms, ServerStep);
    ms := Push(s, ms, ServerStep);
    ms := Push(s, ms, GoStep);
  }

  /** The run in which the flag of an earlier start lets Go connect before anything listens; that ends the
      process. */
  lemma StaleFlagConnects() returns (ms: seq<Move>)
    ensures Runs(Init(true), ms) && End(Init(true), ms).go == Connect && !End(Init(true), ms).listening
    ensures Enabled(End(Init(true), ms), GoStep) && Do(End(Init(true), ms), GoStep).go == Dead
  {
    var s := Init(true);
    assert Runs(s, []) && End(s, []) == s;
    hide Runs, End;
    ms := Push(s, [], GoStep);
    ms := Push(s, ms, GoStep);
    ms := Push(s, ms, GoStep);
  }

  ghost predicate QueryAlwaysMeetsListener(ready: bool)
  {
    forall ms | Runs(Init(ready), ms) :: End(Init(ready), ms).go == Connect ==> End(Init(ready), ms).listening
  }

  /** The ready flag is never reset. The query is sure to meet a listening socket if and only if the
      flag was clear at the beginning, that is, on the first start of a process. */
  lemma OneStartPerProcess(ready: bool)
    ensures QueryAlwaysMeetsListener(ready) <==> !ready
  {
    hide Runs, End, Inv;
    if ready {
      var ms := StaleFlagConnects();
    } else {
      forall ms | Runs(Init(ready), ms) ensures End(Init(ready), ms).go == Connect ==> End(Init(ready), ms).listening {
        HandshakeSafe(ms);
      }
    }
  }
}
