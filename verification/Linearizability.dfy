/** The serial order of module Interleaving respects real time: each call's place in it lies between the
    call's start and its return. */
module Linearizability {
  import opened Text
  import opened Content
  import opened FileLayer
  import opened Interleaving

  /** All states of a run. */
  ghost predicate Trace(ss: seq<State>, ms: seq<Move>)
  {
    && |ss| == |ms| + 1
    && (forall i :: 0 <= i < |ms| ==> Enabled(ss[i], ms[i]))
    && (forall i :: 0 <= i < |ms| ==> ss[i + 1] == Do(ss[i], ms[i]))
  }

  /** Such states are those of a run in the sense of module Interleaving. */
  lemma {:induction false} TraceRuns(ss: seq<State>, ms: seq<Move>)
    requires Trace(ss, ms)
    ensures Runs(ss[0], ms) && End(ss[0], ms) == ss[|ms|]
    decreases |ms|
  {
    hide Enabled, Do;
    if ms != [] {
      var tt, ns := ss[1..], ms[1..];
      forall i | 0 <= i < |ns| ensures Enabled(tt[i], ns[i]) && tt[i + 1] == Do(tt[i], ns[i]) {
        assert Enabled(ss[i + 1], ms[i + 1]) && ss[i + 1 + 1] == Do(ss[i + 1], ms[i + 1]);
      }
      TraceRuns(tt, ns);
    }
  }

  /** Thread `t` starts call `c` with move `from` and is back from it after move `upto`. */
  datatype Span = Span(t: int, c: Call, from: nat, upto: nat)

  ghost predicate Busy(s: State, t: int) { t in s.phase && !s.phase[t].Idle? }

  ghost predicate Spans(ss: seq<State>, ms: seq<Move>, x: Span)
    requires Trace(ss, ms)
  {
    && x.from < x.upto < |ms| && ms[x.from] == Start(x.t, x.c)
    && (forall l :: x.from < l <= x.upto ==> Busy(ss[l], x.t))
    && !Busy(ss[x.upto + 1], x.t)
  }

  /** The call has not taken effect yet. */
  predicate Ahead(ph: Phase, c: Call) { !ph.Idle? && !ph.Committed? && ph.c == c }

  /** What one move does to a thread that is inside a call. */
  lemma OneMove(s: State, m: Move, t: int, c: Call)
    requires Enabled(s, m) && t in s.phase && (Ahead(s.phase[t], c) || s.phase[t] == Committed(c))
    ensures
      var s' := Do(s, m);
      && t in s'.phase
      && (m.t != t ==> s'.phase[t] == s.phase[t])
      && (m == Effect(t) ==>
            Ahead(s.phase[t], c) && s'.phase[t] == (if OnFile(c) then Committed(c) else Idle) && s'.log == s.log + [c])
      && (m.t == t && m != Effect(t) ==>
            if Ahead(s.phase[t], c) then Ahead(s'.phase[t], c) else s'.phase[t].Idle?)
  {
    hide PlanOf, ApplyAll, FileFree, HandlerFree, Callable, NeedsStore;
  }

  /** Up to move `l` inside the span, the call has either not taken effect or has done so once. */
  lemma {:induction false} EffectSoFar(ss: seq<State>, ms: seq<Move>, x: Span, l: nat) returns (e: int)
    requires Trace(ss, ms) && Spans(ss, ms, x) && x.from < l <= x.upto
    ensures
      || (e == -1 && Ahead(ss[l].phase[x.t], x.c))
      || (&& x.from < e < l && ms[e] == Effect(x.t) && ss[e + 1].log == ss[e].log + [x.c]
          && ss[l].phase[x.t] == Committed(x.c))
    ensures forall k :: x.from < k < l && ms[k] == Effect(x.t) ==> k == e
    decreases l
  {
    hide Enabled, Do, PlanOf;
    if l == x.from + 1 {
      Starts(ss[x.from], x.t, x.c);
      e := -1;
    } else {
      e := EffectSoFar(ss, ms, x, l - 1);
      assert Busy(ss[l - 1], x.t) && Busy(ss[l], x.t);
      assert ss[l - 1 + 1] == Do(ss[l - 1], ms[l - 1]);
      OneMove(ss[l - 1], ms[l - 1], x.t, x.c);
      if ms[l - 1] == Effect(x.t) { e := l - 1; }
    }
  }

  lemma Starts(s: State, t: int, c: Call)
    requires Enabled(s, Start(t, c))
    ensures t in Do(s, Start(t, c)).phase && Do(s, Start(t, c)).phase[t] == Want(c)
    ensures s.phase[t].Idle?
  {
  }

  /** Every finished call takes effect exactly once, between its start and its return. */
  lemma EffectWithin(ss: seq<State>, ms: seq<Move>, x: Span) returns (e: nat)
    requires Trace(ss, ms) && Spans(ss, ms, x)
    ensures x.from < e <= x.upto && ms[e] == Effect(x.t) && ss[e + 1].log == ss[e].log + [x.c]
    ensures forall k :: x.from < k <= x.upto && ms[k] == Effect(x.t) ==> k == e
  {
    hide Enabled, Do, PlanOf;
    var last := x.upto;
    var f := EffectSoFar(ss, ms, x, last);
    assert Busy(ss[last], x.t);
    assert ss[last + 1] == Do(ss[last], ms[last]);
    OneMove(ss[last], ms[last], x.t, x.c);
    e := if ms[last] == Effect(x.t) then last else f;
  }

  lemma {:induction false} LogGrows(ss: seq<State>, ms: seq<Move>, i: nat, j: nat)
    requires Trace(ss, ms) && i <= j <= |ms|
    ensures ss[i].log <= ss[j].log
    decreases j
  {
    hide Enabled;
    if i < j {
      LogGrows(ss, ms, i, j - 1);
      assert ss[j - 1 + 1] == Do(ss[j - 1], ms[j - 1]);
      MoveLogs(ss[j - 1], ms[j - 1]);
    }
  }

  lemma MoveLogs(s: State, m: Move)
    requires Enabled(s, m)
    ensures s.log <= Do(s, m).log
  {
    hide PlanOf, ApplyAll;
  }

  /** Two spans of one thread do not overlap. */
  lemma SpansApart(ss: seq<State>, ms: seq<Move>, x: Span, y: Span)
    requires Trace(ss, ms) && Spans(ss, ms, x) && Spans(ss, ms, y) && x.t == y.t && x.from < y.from
    ensures x.upto < y.from
  {
    hide Do;
    Starts(ss[y.from], y.t, y.c);
    assert y.from <= x.upto ==> Busy(ss[y.from], x.t);
  }

  /** Linearizability. In every run each finished call has one place in the serial order, inside its span;
      different calls have different places, and a call that returned before another started comes first.
      The results are those of the serial order. */
  lemma Linearizable(ss: seq<State>, ms: seq<Move>, x: Span, y: Span) returns (i: nat, j: nat)
    requires Trace(ss, ms) && Initial(ss[0]) && Spans(ss, ms, x) && Spans(ss, ms, y)
    ensures
      var end := ss[|ms|];
      && i < |end.log| && end.log[i] == x.c && |ss[x.from].log| <= i < |ss[x.upto + 1].log|
      && j < |end.log| && end.log[j] == y.c && |ss[y.from].log| <= j < |ss[y.upto + 1].log|
      && (x.upto < y.from ==> i < j) && (x.from != y.from ==> i != j)
      && end.results == Results(ss[0].w, end.log)
  {
    hide Enabled, Do, PlanOf, Results, Runs, End;
    var e := EffectWithin(ss, ms, x);
    var f := EffectWithin(ss, ms, y);
    i := Place(ss, ms, x, e);
    j := Place(ss, ms, y, f);
    if e < f { LogGrows(ss, ms, e + 1, f); } else if f < e { LogGrows(ss, ms, f + 1, e); }
    if x.from < y.from && x.t == y.t { SpansApart(ss, ms, x, y); }
    if y.from < x.from && x.t == y.t { SpansApart(ss, ms, y, x); }
    TraceRuns(ss, ms);
    InterleavingIsSerial(ss[0], ms);
  }

  lemma Place(ss: seq<State>, ms: seq<Move>, x: Span, e: nat) returns (i: nat)
    requires Trace(ss, ms) && Spans(ss, ms, x)
    requires x.from < e <= x.upto && ss[e + 1].log == ss[e].log + [x.c]
    ensures i == |ss[e].log| && i < |ss[|ms|].log| && ss[|ms|].log[i] == x.c
    ensures |ss[x.from].log| <= i < |ss[x.upto + 1].log|
  {
    hide Enabled, Do;
    i := |ss[e].log|;
    LogGrows(ss, ms, x.from, e);
    LogGrows(ss, ms, e + 1, x.upto + 1);
    LogGrows(ss, ms, e + 1, |ms|);
    assert ss[e + 1].log[i] == x.c;
  }
}
