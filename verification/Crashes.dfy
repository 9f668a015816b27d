/** The handler refines the abstract file system across crashes too: a crash inside a call leaves the
    files of before the call, of after it, or, inside the rename of a table, both names. */
module Crashes {
  import opened Text
  import opened Paths
  import opened Content
  import opened KeyOrder
  import opened FileLayer
  import opened AbstractFiles
  import opened Refinement
  import opened FileLaws

  /** The call renames a stored table: the only one with two store operations. */
  predicate RenamesTable(a: Fs, c: Call)
  {
    && c.Rename? && EndsWith(c.src, ".frm") && EndsWith(c.dst, ".frm")
    && Classify(c.src).File? && Classify(c.dst).File? && Classify(c.src).id in a.files
  }

  /** A crash after `k` store operations, and a restart with nothing open and no in-memory files. */
  function ACrash(a: Fs, c: Call, k: nat): Fs
  {
    Fs(if k == 0 then a.files
       else if k == 1 && RenamesTable(a, c) then a.files[Classify(c.dst).id := a.files[Classify(c.src).id]]
       else AStep(a, c).0.files,
       map[], map[])
  }

  function AAfter(a: Fs, e: Event): Fs
  {
    match e
    case Done(c) => AStep(a, c).0
    case Crash(c, after) => ACrash(a, c, after)
  }

  function AHistory(a: Fs, es: seq<Event>): Fs
    decreases |es|
  {
    if es == [] then a else AHistory(AAfter(a, es[0]), es[1..])
  }

  function ContentOf(files: map<FileId, Value>, id: FileId): Option<Value>
  {
    if id in files then Some(files[id]) else None
  }

  /** No file is ever torn: after a crash each one is as before the call or as after it. */
  lemma CrashPerFile(a: Fs, c: Call, k: nat, id: FileId)
    ensures
      var now := ContentOf(ACrash(a, c, k).files, id);
      now == ContentOf(a.files, id) || now == ContentOf(AStep(a, c).0.files, id)
  {
    hide Classify, EndsWith, Normalize, Overlay, Slice;
    assert k == 1 && RenamesTable(a, c) ==> AStep(a, c) == ARename(a, c.src, c.dst);
  }

  /** Without an abstract counterpart: the event leaves an orphaned option file. */
  predicate EventOrphans(a: Fs, e: Event) { Orphans(a, e.c) && (e.Crash? ==> 0 < e.after) }

  predicate HistoryOrphans(a: Fs, es: seq<Event>)
    decreases |es|
  {
    es != [] && (EventOrphans(a, es[0]) || HistoryOrphans(AAfter(a, es[0]), es[1..]))
  }

  lemma OneOperation(w: World, a: Fs, c: Call)
    requires Refines(w, a)
    ensures |PlanOf(w, c).ops| <= if RenamesTable(a, c) then 2 else 1
  {
    hide Key, ParseFile, ParseFolder, IsTempFile, EndsWith, Normalize, FileAt, FilesMatch, PlanOpen, PlanStat,
      PlanAccess, PlanRead, PlanLseek, PlanFstat, PlanClose, DirResult, Copy, Grow;
    if c.Rename? && IsKnownFile(c.src) && EndsWith(c.src, ".frm") {
      KeyExtension(ParseFile(c.src).value);
      LookupMatch(w.store, a.files, ParseFile(c.src).value);
    }
  }

  /** After the put of a table rename and before its delete. */
  lemma HalfRename(w: World, a: Fs, c: Call)
    requires Refines(w, a) && RenamesTable(a, c)
    ensures |PlanOf(w, c).ops| == 2 && FilesMatch(CrashStore(w, c, 1), ACrash(a, c, 1).files)
  {
    hide Key, ParseFile, ParseFolder, IsTempFile, EndsWith, Normalize, FileAt, FilesMatch;
    var s, d := ParseFile(c.src).value, ParseFile(c.dst).value;
    KeyExtension(s);
    KeyExtension(d);
    LookupMatch(w.store, a.files, s);
    var v := a.files[s];
    PutMatch(w.store, a.files, d, v);
    ApplyFew(w.store, PutOp(Frm, c.dst, v), DeleteOp(Frm, c.src));
    var ops := PlanOf(w, c).ops;
    assert ops == [PutOp(Frm, c.dst, v), DeleteOp(Frm, c.src)] && ops[..1] == [ops[0]];
  }

  /** The cut of a plan that a crash after `k` operations carries out. */
  lemma CrashCut(w: World, c: Call, k: nat)
    ensures k == 0 ==> CrashStore(w, c, k) == w.store
    ensures |PlanOf(w, c).ops| <= k ==> CrashStore(w, c, k) == Step(w, c).store
  {
    hide PlanOf;
    var ops := PlanOf(w, c).ops;
    assert ops[..0] == [] && ops[..|ops|] == ops;
    ApplyFew(w.store, DeleteOp(Frm, ""), DeleteOp(Frm, ""));
  }

  lemma EventRefines(w: World, a: Fs, e: Event)
    requires Refines(w, a) && !EventOrphans(a, e)
    ensures Refines(After(w, e), AAfter(a, e))
  {
    hide PlanOf, AStep, Orphans, RenamesTable, FilesMatch, CrashStore;
    match e {
      case Done(c) => StepRefines(w, a, c);
      case Crash(c, k) =>
        CrashCut(w, c, k);
        OneOperation(w, a, c);
        if k == 1 && RenamesTable(a, c) {
          HalfRename(w, a, c);
        } else if k != 0 {
          StepRefines(w, a, c);
        }
    }
  }

  lemma EventLeavesOrphan(w: World, a: Fs, e: Event)
    requires Refines(w, a) && EventOrphans(a, e)
    ensures HasOrphan(After(w, e).store, Classify(e.c.dst).id.d)
  {
    hide PlanOf, Classify, FilesMatch, CrashStore, EndsWith;
    OrphanArises(w, a, e.c);
    OneOperation(w, a, e.c);
    NotTable(a, e.c);
    CrashCut(w, e.c, if e.Crash? then e.after else 1);
  }

  lemma NotTable(a: Fs, c: Call)
    requires Orphans(a, c)
    ensures !RenamesTable(a, c)
  {
    hide Classify, EndsWith;
    SuffixClash(c.src, ".frm~", ".frm");
  }

  lemma EventKeepsOrphan(w: World, e: Event, d: string)
    requires HasOrphan(w.store, d)
    ensures HasOrphan(After(w, e).store, d)
  {
    hide Key, ParseFile, IsTempFile, EndsWith, Normalize, PlanOpen, PlanAccess, PlanStat, PlanLseek, PlanRead,
      PlanFstat, PlanClose, DirResult, Copy, Grow;
    OrphanStays(w, e.c, d);
    if e.Crash? {
      var k := Key(DbOpt(d));
      KeyExtension(DbOpt(d));
      var ops := PlanOf(w, e.c).ops;
      assert forall i :: 0 <= i < |ops| ==> ops[i] != DeleteOp(Frm, k);
      OpsKeep(w.store, ops[..if e.after <= |ops| then e.after else |ops|], In(Frm, k));
    }
  }

  lemma {:induction false} HistoryKeepsOrphan(w: World, es: seq<Event>, d: string)
    requires HasOrphan(w.store, d)
    ensures HasOrphan(History(w, es).store, d)
    decreases |es|
  {
    hide After, HasOrphan;
    if es != [] {
      EventKeepsOrphan(w, es[0], d);
      HistoryKeepsOrphan(After(w, es[0]), es[1..], d);
    }
  }

  /** Whole histories of calls and crashes: the store is the abstract file system's, file by file and
      content by content, if and only if no temporary file was renamed onto a `db.opt`. */
  lemma {:induction false} HistoryRefines(w: World, a: Fs, es: seq<Event>)
    requires Refines(w, a)
    ensures Refines(History(w, es), AHistory(a, es)) <==> !HistoryOrphans(a, es)
    decreases |es|
  {
    hide After, AAfter, Refines, HasOrphan, Classify;
    if es != [] {
      var e := es[0];
      if EventOrphans(a, e) {
        EventLeavesOrphan(w, a, e);
        HistoryKeepsOrphan(After(w, e), es[1..], Classify(e.c.dst).id.d);
        OrphanBreaks(History(w, es), AHistory(a, es), Classify(e.c.dst).id.d);
      } else {
        EventRefines(w, a, e);
        HistoryRefines(After(w, e), AAfter(a, e), es[1..]);
      }
    }
  }
}
