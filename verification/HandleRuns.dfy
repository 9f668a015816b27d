/** Round trips through an open file: any seeks and writes, then reading back in any chunks. */
module HandleRuns {
  import opened Text
  import opened Paths
  import opened Content
  import opened FileLayer
  import opened Refinement
  import opened FileLaws

  function FileBytes(st: Store, path: string): Value
  {
    match Lookup(st, path) case None => [] case Some(v) => v
  }

  /** A write puts the overlay and advances the offset, or, when the end would pass the largest
      string (in particular when 64 bits overflow), changes nothing at all. */
  lemma WriteStep(w: World, fd: int, buf: Buffer)
    requires WorldOk(w) && fd in w.handles
    ensures
      var h, w' := w.handles[fd], Step(w, Write(fd, buf));
      if h.offset + |buf| < TWO63 then
        && PlanOf(w, Write(fd, buf)).result == Ret(|buf|)
        && Lookup(w'.store, h.path) == Some(Overlay(FileBytes(w.store, h.path), h.offset, buf))
        && w'.handles == w.handles[fd := h.(offset := h.offset + |buf|)]
      else
        PlanOf(w, Write(fd, buf)).result == Failed(EIO) && w' == w
  {
    hide Overlay, Copy, Grow, ParseFile, EndsWith;
    var h := w.handles[fd];
    FamilyOfPath(h.path);
    OverflowTest(h.offset, |buf|);
    CopyIsOverlay(FileBytes(w.store, h.path), h.offset, buf);
    var op := PutOp(GetCf(h.path).value, h.path, []);
    if h.offset + |buf| <= MAX_SIZE {
      op := PutOp(GetCf(h.path).value, h.path, Overlay(FileBytes(w.store, h.path), h.offset, buf));
    }
    ApplyFew(w.store, op, op);
  }

  lemma SeekStep(w: World, fd: int, offset: I64, whence: Whence)
    requires fd in w.handles
    ensures
      var h, w' := w.handles[fd], Step(w, Lseek(fd, offset, whence));
      && w'.store == w.store && fd in w'.handles && w'.handles[fd].path == h.path
      && (whence.SeekSet? && 0 <= offset ==> w'.handles[fd].offset == offset)
  {
    hide AddSigned, FileSize, ParseFile, KeyOk;
  }

  /** Seeking is exact: the position is the true sum when that is a valid offset, and otherwise
      EINVAL with nothing changed, although the code adds modulo 2^64. */
  lemma SeekExact(w: World, fd: int, offset: I64, whence: Whence)
    requires WorldOk(w) && fd in w.handles
    ensures
      var h, c := w.handles[fd], Lseek(fd, offset, whence);
      var to := offset + (if whence.SeekCur? then h.offset else if whence.SeekEnd? then FileSize(w.store, h.path) else 0);
      if !whence.SeekOther? && 0 <= to < TWO63 then
        && PlanOf(w, c).result == Ret(to)
        && Step(w, c) == w.(handles := w.handles[fd := h.(offset := to)])
      else
        PlanOf(w, c).result == Failed(EINVAL) && Step(w, c) == w
  {
    hide AddSigned, FileSize, ParseFile, KeySpace;
    SeekArithmetic(offset, w.handles[fd].offset);
    SizeBound(w.store, w.handles[fd].path);
    SeekArithmetic(offset, FileSize(w.store, w.handles[fd].path));
  }

  lemma SizeBound(st: Store, path: string)
    ensures FileSize(st, path) < TWO63
  {
    hide Lookup;
  }

  // --- writing ---------------------------------------------------------------

  predicate Edits(fd: int, calls: seq<Call>)
  {
    forall c | c in calls :: (c.Write? && c.fd == fd) || (c.Lseek? && c.fd == fd)
  }

  /** The writes that went through, each at the offset the handle had. */
  ghost function Issued(w: World, fd: int, calls: seq<Call>): seq<WriteAt>
    requires Edits(fd, calls)
    decreases |calls|
  {
    if calls == [] then []
    else
      var c, rest := calls[0], Issued(Step(w, calls[0]), fd, calls[1..]);
      if c.Write? && fd in w.handles && PlanOf(w, c).result.Ret?
      then [WriteAt(w.handles[fd].offset, c.buf)] + rest
      else rest
  }

  lemma {:induction false} ApplyFirst(v: Bytes, x: WriteAt, ws: seq<WriteAt>)
    ensures ApplyWrites(v, [x] + ws) == ApplyWrites(Overlay(v, x.offset, x.buf), ws)
    decreases |ws|
  {
    hide Overlay;
    var all := [x] + ws;
    if ws == [] {
      assert all[..0] == [];
    } else {
      assert all[..|all| - 1] == [x] + ws[..|ws| - 1];
      ApplyFirst(v, x, ws[..|ws| - 1]);
    }
  }

  /** After any seeks and writes on a handle the file is the fold of the writes that went through. */
  lemma {:induction false} EditsFold(w: World, fd: int, calls: seq<Call>)
    requires WorldOk(w) && fd in w.handles && Edits(fd, calls)
    ensures
      var p, w' := w.handles[fd].path, Run(w, calls);
      && WorldOk(w') && fd in w'.handles && w'.handles[fd].path == p
      && FileBytes(w'.store, p) == ApplyWrites(FileBytes(w.store, p), Issued(w, fd, calls))
      && (Exists(w.store, p) || Issued(w, fd, calls) != [] ==> Exists(w'.store, p))
    decreases |calls|
  {
    hide PlanOf, Commit, Overlay, WorldOk, Lookup;
    if calls != [] {
      var c := calls[0];
      var p := w.handles[fd].path;
      assert c in calls;
      StepKeeps(w, c, 0);
      if c.Write? {
        WriteStep(w, fd, c.buf);
      } else {
        SeekStep(w, fd, c.offset, c.whence);
      }
      var w1 := Step(w, c);
      EditsFold(w1, fd, calls[1..]);
      if c.Write? && PlanOf(w, c).result.Ret? {
        ApplyFirst(FileBytes(w.store, p), WriteAt(w.handles[fd].offset, c.buf), Issued(w1, fd, calls[1..]));
      }
    }
  }

  // --- reading back -------------------------------------------------------------

  function Reads(fd: int, counts: seq<U64>): (calls: seq<Call>)
    ensures |calls| == |counts|
  {
    if counts == [] then [] else [Read(fd, counts[0])] + Reads(fd, counts[1..])
  }

  function DataOf(rs: seq<CResult>): Bytes
  {
    if rs == [] then [] else (if rs[0].Data? then rs[0].bytes else []) + DataOf(rs[1..])
  }

  lemma ReadStep(w: World, fd: int, count: U64)
    requires fd in w.handles
    ensures
      var h, w' := w.handles[fd], Step(w, Read(fd, count));
      var got := Slice(FileBytes(w.store, h.path), h.offset, count);
      Exists(w.store, h.path) ==>
        && PlanOf(w, Read(fd, count)).result == Data(got)
        && w'.store == w.store
        && w'.handles == w.handles[fd := h.(offset := h.offset + |got|)]
  {
    hide Lookup;
    var h := w.handles[fd];
    OverflowTest(h.offset, |Slice(FileBytes(w.store, h.path), h.offset, count)|);
  }

  /** Positive reads until one returns nothing deliver the rest of the file; with more reads than
      bytes left, the last one does return nothing. */
  lemma {:induction false} ReadsDeliver(w: World, fd: int, counts: seq<U64>)
    requires fd in w.handles
    requires counts != [] && forall i :: 0 <= i < |counts| ==> counts[i] > 0
    ensures
      var rs, v := Results(w, Reads(fd, counts)), FileBytes(w.store, w.handles[fd].path);
      var m := Min(w.handles[fd].offset, |v|);
      Exists(w.store, w.handles[fd].path) ==>
        && (rs[|rs| - 1] == Data([]) ==> DataOf(rs) == v[m..])
        && (|v| - m < |counts| ==> rs[|rs| - 1] == Data([]))
    decreases |counts|
  {
    hide PlanOf, Commit, Lookup, Slice, Results, Reads, DataOf;
    var o, c, v := w.handles[fd].offset, counts[0], FileBytes(w.store, w.handles[fd].path);
    var rs := Results(w, Reads(fd, counts));
    var got := Slice(v, o, c);
    if Exists(w.store, w.handles[fd].path) {
      var w1 := Step(w, Read(fd, c));
      ReadStep(w, fd, c);
      var rest := Results(w1, Reads(fd, counts[1..]));
      ReadsUnfold(w, fd, counts);
      SliceThenRest(v, o, c);
      if |counts| > 1 {
        ReadsDeliver(w1, fd, counts[1..]);
        assert rest[|rest| - 1] == rs[|rs| - 1];
      }
    }
  }

  lemma ReadsUnfold(w: World, fd: int, counts: seq<U64>)
    requires counts != []
    ensures
      var r, rest := PlanOf(w, Read(fd, counts[0])).result, Results(Step(w, Read(fd, counts[0])), Reads(fd, counts[1..]));
      && Results(w, Reads(fd, counts)) == [r] + rest
      && (r.Data? ==> DataOf(Results(w, Reads(fd, counts))) == r.bytes + DataOf(rest))
      && (|counts| == 1 ==> DataOf(rest) == [])
  {
    hide PlanOf, Commit;
    var c := Reads(fd, counts);
    assert c[0] == Read(fd, counts[0]) && c[1..] == Reads(fd, counts[1..]);
    var rest := Results(Step(w, c[0]), c[1..]);
    assert ([PlanOf(w, c[0]).result] + rest)[1..] == rest;
  }

  /** What one read delivers, followed by what is left after it. */
  lemma SliceThenRest(v: Bytes, o: nat, count: nat)
    ensures
      var got := Slice(v, o, count);
      && got + v[Min(o + |got|, |v|)..] == v[Min(o, |v|)..]
      && (count > 0 && o < |v| ==> |got| > 0)
  {
  }

  /** The round trip: write and seek as you like, go back to the start, and read in positive chunks
      until nothing comes. What was read is the fold of the writes, and the reading ends. */
  lemma RoundTrip(w: World, fd: int, calls: seq<Call>, counts: seq<U64>)
    requires WorldOk(w) && fd in w.handles && Edits(fd, calls)
    requires counts != [] && forall i :: 0 <= i < |counts| ==> counts[i] > 0
    ensures
      var w1 := Step(Run(w, calls), Lseek(fd, 0, SeekSet));
      var expected := ApplyWrites(FileBytes(w.store, w.handles[fd].path), Issued(w, fd, calls));
      var rs := Results(w1, Reads(fd, counts));
      Exists(w.store, w.handles[fd].path) || Issued(w, fd, calls) != [] ==>
        && (rs[|rs| - 1] == Data([]) ==> DataOf(rs) == expected)
        && (|expected| < |counts| ==> rs[|rs| - 1] == Data([]))
  {
    hide PlanOf, Commit, WorldOk, Lookup, Results, Reads, DataOf;
    EditsFold(w, fd, calls);
    var w0 := Run(w, calls);
    SeekStep(w0, fd, 0, SeekSet);
    ReadsDeliver(Step(w0, Lseek(fd, 0, SeekSet)), fd, counts);
  }
}
