/** The objects of the source: the store, the system-call handler over it, and an open file. Each
    method works step by step as the C++ does. It carries out the plan of module FileLayer, and, as long
    as the store agrees with the handler's map of files, it does to that map what module AbstractFiles
    says, with the same result. */
module Handler {
  import opened Text
  import opened Paths
  import opened Content
  import opened KeyOrder
  import opened FileLayer
  import A = AbstractFiles
  import R = Refinement

  /** The keys of a column family as an iterator visits them. */
  method SortedKeys(keys: set<string>) returns (ks: seq<string>)
    ensures Lists(ks, keys)
  {
    hide Less;
    ks := [];
    var rest := keys;
    while rest != {}
      invariant rest <= keys && Lists(ks, keys - rest)
      decreases rest
    {
      var x :| x in rest;
      assert x !in ks by { assert x !in Elems(ks); }
      var i := Seek(ks, x);
      forall j | i <= j < |ks| ensures Less(x, ks[j]) {
        LessTotal(x, ks[j]);
        assert ks[j] != x;
      }
      InsertLists(ks, keys - rest, x, i);
      ks := ks[..i] + [x] + ks[i..];
      rest := rest - {x};
      assert keys - rest == keys - (rest + {x}) + {x};
    }
    assert keys - rest == keys;
  }

  class RocksDb {
    var data: Store

    constructor ()
      ensures data == map[]
    {
      data := map[];
    }

    /** Later lookups find the value under this key, and everything else, in either family, as before. */
    method PutKey(cf: Cf, key: string, value: Value)
      modifies this
      ensures forall c, k :: Get(data, c, k) == if (c, k) == (cf, key) then Some(value) else Get(old(data), c, k)
    {
      data := data[In(cf, key) := value];
    }

    /** Later lookups find nothing under this key; deleting an absent key is no error. */
    method DeleteKey(cf: Cf, key: string)
      modifies this
      ensures forall c, k :: Get(data, c, k) == if (c, k) == (cf, key) then None else Get(old(data), c, k)
    {
      data := data - {In(cf, key)};
    }

    method ListKeys(cf: Cf, prefix: string) returns (result: seq<string>)
      ensures result == Listing(WithPrefix(KeysOf(data, cf), prefix))
    {
      var keys := SortedKeys(set k | k in data && k.cf == cf :: k.key);
      result := GetKeys(keys, prefix);
    }
  }

  /** A store is what lookups find in it. */
  lemma SameLookups(a: Store, b: Store)
    requires forall c, k :: Get(a, c, k) == Get(b, c, k)
    ensures a == b
  {
    forall k: StoreKey ensures (k in a <==> k in b) && (k in a ==> a[k] == b[k]) {
      assert Get(a, k.cf, k.key) == Get(b, k.cf, k.key);
    }
  }

  /** With the files in the store and nothing open, a path call does what the file system would do. The
      store keeps agreeing if and only if the call does not orphan an option file. */
  lemma PathCallAgrees(st: Store, files: map<FileId, Value>, memfs: map<string, Value>, c: Call)
    requires R.FilesMatch(st, files) && (c.Open? || c.Stat? || c.Access? || c.Rename? || c.Unlink? || c.Dir?)
    ensures
      var w, a := World(st, memfs, map[]), A.Fs(files, memfs, map[]);
      var p, r := PlanOf(w, c), A.AStep(a, c);
      && R.SameResult(p.result, r.1) && p.memfs == r.0.memfs
      && (R.FilesMatch(ApplyAll(st, p.ops), r.0.files) <==> !R.Orphans(a, c))
  {
    hide PlanOf, A.AStep, R.FilesMatch, R.HasOrphan;
    var w, a := World(st, memfs, map[]), A.Fs(files, memfs, map[]);
    assert R.Refines(w, a);
    if R.Orphans(a, c) {
      R.OrphanArises(w, a, c);
      OrphaningRename(w, a, c);
      var w', a' := Step(w, c), A.AStep(a, c).0;
      R.OrphanBreaks(World(w'.store, a'.memfs, map[]), A.Fs(a'.files, a'.memfs, map[]), A.Classify(c.dst).id.d);
    } else {
      R.StepRefines(w, a, c);
    }
  }

  /** Such a call reports success, and takes the temporary file away. */
  lemma OrphaningRename(w: World, a: A.Fs, c: Call)
    requires w.memfs == a.memfs && R.Orphans(a, c)
    ensures PlanOf(w, c).result == Ret(0) && A.AStep(a, c).1 == Ret(0)
    ensures PlanOf(w, c).memfs == A.AStep(a, c).0.memfs == a.memfs - {c.src}
  {
    hide ParseFile, EndsWith, ParseFolder, IsTempFile;
    SuffixClash(c.src, ".frm~", ".frm");
  }

  /** The same for an open file, the only one, under descriptor 0. */
  lemma FileCallAgrees(st: Store, files: map<FileId, Value>, h: Handle, c: A.Cursor, call: Call)
    requires R.FilesMatch(st, files) && R.CursorMatch(h, c) && (call.Read? || call.Write? || call.Lseek?) && call.fd == 0
    ensures
      var w, a := World(st, map[], map[0 := h]), A.Fs(files, map[], map[0 := c]);
      var p, r := PlanOf(w, call), A.AStep(a, call);
      && R.SameResult(p.result, r.1) && R.FilesMatch(ApplyAll(st, p.ops), r.0.files)
      && 0 in p.handles && 0 in r.0.cursors && R.CursorMatch(p.handles[0], r.0.cursors[0])
      && r.0.cursors == map[0 := c.(offset := p.handles[0].offset)]
  {
    hide PlanOf, A.AStep, R.FilesMatch;
    var w, a := World(st, map[], map[0 := h]), A.Fs(files, map[], map[0 := c]);
    assert R.Refines(w, a);
    assert !R.Orphans(a, call);
    R.StepRefines(w, a, call);
    CursorOnly(a, call);
  }

  lemma CursorOnly(a: A.Fs, call: Call)
    requires a.cursors.Keys == {0} && (call.Read? || call.Write? || call.Lseek?) && call.fd == 0
    ensures
      var cursors := A.AStep(a, call).0.cursors;
      0 in cursors && cursors == map[0 := a.cursors[0].(offset := cursors[0].offset)]
  {
    hide Overlay, Slice;
  }

  /** A rename opens and closes nothing. */
  lemma RenameOpensNothing(a: A.Fs, src: string, dst: string)
    ensures A.ARename(a, src, dst).0.cursors == a.cursors
  {
    hide A.Classify, EndsWith;
  }

  /** A call on an open file leaves the in-memory files, and only a write changes the files. */
  lemma ReadOnly(a: A.Fs, call: Call)
    requires call.Read? || call.Write? || call.Lseek?
    ensures A.AStep(a, call).0.memfs == a.memfs
    ensures !call.Write? ==> A.AStep(a, call).0.files == a.files
  {
    hide Overlay, Slice;
  }

  class SyscallHandler {
    const store: RocksDb
    ghost var files: map<FileId, Value>   // the files the store stands for

    constructor (store: RocksDb, ghost files: map<FileId, Value>)
      ensures this.store == store && this.files == files
    {
      this.store := store;
      this.files := files;
    }

    ghost predicate Agrees()
      reads this, store
    {
      R.FilesMatch(store.data, files)
    }

    ghost function AView(memfs: map<string, Value>): A.Fs
      reads this
    {
      A.Fs(files, memfs, map[])
    }

    /** The handler's world, with the given in-memory files and nothing open. */
    function View(memfs: map<string, Value>): World
      reads store
    {
      World(store.data, memfs, map[])
    }

    method Open(pathname: string, creat: bool, fd: int) returns (r: CResult, file: File?)
      ensures r == PlanOpen(View(map[]), pathname, creat, fd).result
      ensures file != null <==> r.Ret?
      ensures file != null ==>
          && fresh(file) && file.handler == this
          && PlanOpen(View(map[]), pathname, creat, fd).handles == map[fd := file.State()]
      ensures Agrees() ==> R.SameResult(r, A.AStep(AView(map[]), Call.Open(pathname, creat, fd)).1)
      ensures Agrees() && file != null ==> file.Agrees() && A.Classify(Normalize(pathname)) == A.File(file.id)
    {
      hide ParseFile, EndsWith, RFind, IsTempFile, A.AStep, R.FilesMatch, R.SameResult, ParseFolder;
      if Agrees() { PathCallAgrees(store.data, files, map[], Call.Open(pathname, creat, fd)); }
      file := null;
      var path := Normalize(pathname);
      if !IsKnownExtension(path) {
        if EndsWith(path, ".frm~") {
          if !IsTempFile(path) {
            return Failed(EIO), null;
          }
        }
        return Unhandled, null;
      }
      if !IsKnownFile(path) {
        return Failed(EIO), null;
      }
      if !creat && !Exists(store.data, path) {
        return Failed(ENOENT), null;
      }
      if EndsWith(path, ".frm") && !Exists(store.data, path[..RFind(path, '/') + 1] + "db.opt") {
        return Failed(ENOENT), null;
      }
      if fd < 0 {
        return Failed(EMFILE), null;
      }
      file := new File(path, this, ParseFile(path).value);
      r := Ret(fd);
    }

    method Access(pathname: string) returns (r: CResult)
      ensures r == PlanAccess(View(map[]), pathname).result
      ensures Agrees() ==> R.SameResult(r, A.AAccess(AView(map[]), pathname))
    {
      hide ParseFile, EndsWith, ParseFolder, A.AAccess, R.FilesMatch, R.SameResult;
      if Agrees() { PathCallAgrees(store.data, files, map[], Call.Access(pathname)); }
      var path := pathname;
      var knownExt := IsKnownExtension(path);
      if knownExt {
        if !IsKnownFile(path) {
          path := "./" + path;
          if !IsKnownFile(path) {
            return Failed(EIO);
          }
        }
      } else if IsFolder(path) {
        if path[|path| - 1] != '/' {
          path := path + "/";
        }
        path := path + "db.opt";
      } else {
        return Unhandled;
      }
      if Exists(store.data, path) {
        return Ret(0);
      }
      r := if knownExt then Failed(ENOENT) else Unhandled;
    }

    method Stat(path: string) returns (r: CResult)
      ensures r == PlanStat(View(map[]), path).result
      ensures Agrees() ==> R.SameResult(r, A.AStat(AView(map[]), A.Classify(path)))
    {
      hide ParseFile, EndsWith, A.AStat, A.Classify, R.FilesMatch, R.SameResult;
      if Agrees() { PathCallAgrees(store.data, files, map[], Call.Stat(path)); }
      if !IsKnownExtension(path) {
        return Unhandled;
      }
      if !IsKnownFile(path) {
        return Failed(EIO);
      }
      var value := Get(store.data, GetCf(path).value, path);
      if value.None? {
        return Failed(ENOENT);
      }
      r := Size(|value.value|);
    }

    method Rename(src: string, dst: string, memfs: map<string, Value>) returns (r: CResult, memfs': map<string, Value>)
      modifies store, this`files
      ensures
        var p := PlanRename(old(View(memfs)), src, dst);
        r == p.result && memfs' == p.memfs && store.data == ApplyAll(old(store.data), p.ops)
      ensures old(Agrees()) ==>
        var a := A.ARename(old(AView(memfs)), src, dst);
        && R.SameResult(r, a.1) && AView(memfs') == a.0
        && (Agrees() <==> !R.Orphans(old(AView(memfs)), Call.Rename(src, dst)))
    {
      hide ParseFile, EndsWith, ApplyAll, A.ARename, R.FilesMatch, R.SameResult, R.Orphans;
      if Agrees() {
        PathCallAgrees(store.data, files, memfs, Call.Rename(src, dst));
        RenameOpensNothing(AView(memfs), src, dst);
        files := A.ARename(AView(memfs), src, dst).0.files;
      }
      memfs' := memfs;
      ghost var st := store.data;
      ApplyFew(st, DeleteOp(Frm, src), DeleteOp(Frm, src));
      if EndsWith(src, ".frm") && EndsWith(dst, ".frm") {
        if !IsKnownFile(src) || !IsKnownFile(dst) {
          return Failed(EIO), memfs;
        }
        var value := Get(store.data, Frm, src);
        if value.None? {
          return Failed(EIO), memfs;
        }
        ApplyFew(st, PutOp(Frm, dst, value.value), DeleteOp(Frm, src));
        store.PutKey(Frm, dst, value.value);
        SameLookups(store.data, Put(st, Frm, dst, value.value));
        store.DeleteKey(Frm, src);
        SameLookups(store.data, Delete(Put(st, Frm, dst, value.value), Frm, src));
        return Ret(0), memfs;
      }
      if EndsWith(src, ".frm~") {
        if !IsKnownFile(dst) {
          return Failed(EIO), memfs;
        }
        if src !in memfs || memfs[src] == [] {
          return Failed(EIO), memfs;
        }
        ApplyFew(st, PutOp(Frm, dst, memfs[src]), PutOp(Frm, dst, memfs[src]));
        store.PutKey(Frm, dst, memfs[src]);
        SameLookups(store.data, Put(st, Frm, dst, memfs[src]));
        return Ret(0), memfs - {src};
      }
      r := Unhandled;
    }

    method Unlink(pathname: string) returns (r: CResult)
      modifies store, this`files
      ensures
        var p := PlanUnlink(old(View(map[])), pathname);
        r == p.result && store.data == ApplyAll(old(store.data), p.ops)
      ensures old(Agrees()) ==>
        var a := A.AUnlink(old(AView(map[])), A.Classify(Normalize(pathname)));
        R.SameResult(r, a.1) && AView(map[]) == a.0 && Agrees()
    {
      hide EndsWith, Normalize, A.Classify, R.FilesMatch, R.SameResult;
      if Agrees() {
        PathCallAgrees(store.data, files, map[], Call.Unlink(pathname));
        files := A.AUnlink(AView(map[]), A.Classify(Normalize(pathname))).0.files;
      }
      ghost var st := store.data;
      var path := Normalize(pathname);
      if !IsKnownExtension(path) {
        return Unhandled;
      }
      var cf := GetCf(path).value;
      ApplyFew(store.data, DeleteOp(cf, path), DeleteOp(cf, path));
      store.DeleteKey(cf, path);
      SameLookups(store.data, Delete(st, cf, path));
      r := Ret(0);
    }

    method Dir(pathname: string) returns (r: CResult)
      ensures r == DirResult(store.data, pathname)
      ensures Agrees() ==> R.SameResult(r, A.ADir(AView(map[]), A.Classify(Normalize(pathname))))
    {
      hide ParseFolder, Less, RFind, Normalize, A.ADir, A.Classify, R.FilesMatch, R.SameResult;
      if Agrees() { PathCallAgrees(store.data, files, map[], Call.Dir(pathname)); }
      var path := Normalize(pathname);
      var isDb := path == ".";
      if !isDb && !IsFolder(path) {
        return Failed(EIO);
      }
      var keys := store.ListKeys(if isDb then Db else Frm, if isDb then "" else path);
      var result := [];
      var i := 0;
      while i < |keys|
        invariant i <= |keys| && |result| == i
        invariant isDb ==> forall j :: 0 <= j < i ==> DatabaseOfKey(keys[j]) == Some(result[j])
        invariant !isDb ==> forall j :: 0 <= j < i ==> FileOfKey(keys[j]) == result[j]
      {
        var x := keys[i];
        if isDb {
          if RFind(x, '/') < 0 {
            assert DatabaseOfKey(keys[i]).None?;
            return Failed(EIO);
          }
          x := x[..RFind(x, '/')];
          x := x[Min(2, |x|)..];
        } else {
          x := x[RFind(x, '/') + 1..];
        }
        result := result + [x];
        i := i + 1;
      }
      if isDb {
        assert forall j :: 0 <= j < |keys| ==> DatabaseOfKey(keys[j]).Some?;
        assert result == seq(|keys|, j requires 0 <= j < |keys| => DatabaseOfKey(keys[j]).value);
      } else {
        assert result == seq(|keys|, j requires 0 <= j < |keys| => FileOfKey(keys[j]));
      }
      r := Names(result);
    }
  }

  class File {
    const path: string
    const handler: SyscallHandler
    var offset: U64
    ghost const id: FileId

    constructor (path: string, handler: SyscallHandler, ghost id: FileId)
      ensures this.path == path && this.handler == handler && offset == 0 && this.id == id
    {
      this.path := path;
      this.handler := handler;
      this.offset := 0;
      this.id := id;
    }

    ghost predicate Agrees()
      reads this, handler, handler.store
    {
      handler.Agrees() && R.CursorMatch(State(), A.Cursor(id, offset))
    }

    /** The file system with this file open as descriptor 0. */
    ghost function AView(): A.Fs
      reads this, handler
    {
      A.Fs(handler.files, map[], map[0 := A.Cursor(id, offset)])
    }

    function State(): Handle
      reads this
    {
      Handle(path, offset)
    }

    /** The store and this file, open as descriptor 0. */
    function View(): World
      reads this, handler.store
    {
      World(handler.store.data, map[], map[0 := State()])
    }

    method Read(count: U64) returns (r: CResult)
      modifies this
      ensures
        var p := PlanRead(old(View()), 0, count);
        r == p.result && map[0 := State()] == p.handles
      ensures old(Agrees()) ==>
        var a := A.ARead(old(AView()), 0, count);
        R.SameResult(r, a.1) && AView() == a.0 && Agrees()
    {
      hide EndsWith, A.ARead, R.FilesMatch, R.SameResult;
      if Agrees() {
        FileCallAgrees(handler.store.data, handler.files, State(), A.Cursor(id, offset), Call.Read(0, count));
        ReadOnly(AView(), Call.Read(0, count));
      }
      var value := Lookup(handler.store.data, path);
      if value.None? {
        return Failed(EIO);
      }
      var v := value.value;
      if |v| <= offset {
        r := Data([]);
        OverflowTest(offset, 0);
      } else {
        var n: U64 := Min(count, |v| - offset);
        r := Data(v[offset..offset + n]);
        offset := AddU64(offset, n);
      }
    }

    method Write(buf: Buffer) returns (r: CResult)
      modifies this, handler.store, handler`files
      ensures
        var p := PlanWrite(old(View()), 0, buf);
        && r == p.result && map[0 := State()] == p.handles
        && handler.store.data == ApplyAll(old(handler.store.data), p.ops)
      ensures old(Agrees()) ==>
        var a := A.AWrite(old(AView()), 0, buf);
        R.SameResult(r, a.1) && AView() == a.0 && Agrees()
    {
      hide PlanWrite, ApplyAll, A.AWrite, R.FilesMatch, R.SameResult;
      if Agrees() {
        FileCallAgrees(handler.store.data, handler.files, State(), A.Cursor(id, offset), Call.Write(0, buf));
        ReadOnly(AView(), Call.Write(0, buf));
        handler.files := A.AWrite(AView(), 0, buf).0.files;
      }
      r := WriteSteps(buf);
    }

    /** The statements of `Write`: grow the buffer, copy into it, put it back, advance. */
    method WriteSteps(buf: Buffer) returns (r: CResult)
      modifies this, handler.store
      ensures
        var p := PlanWrite(old(View()), 0, buf);
        && r == p.result && map[0 := State()] == p.handles
        && handler.store.data == ApplyAll(old(handler.store.data), p.ops)
    {
      hide EndsWith, ApplyAll;
      ghost var st := handler.store.data;
      ApplyFew(st, DeleteOp(Frm, path), DeleteOp(Frm, path));
      if GetCf(path).None? {
        return Failed(EIO);
      }
      var cf := GetCf(path).value;
      var stored := Get(handler.store.data, cf, path);
      var value: Bytes := if stored.Some? then stored.value else [];
      var required := AddU64(offset, |buf|);
      if required < offset {
        return Failed(EIO);
      }
      OverflowTest(offset, |buf|);
      if |value| < required {
        if required > MAX_SIZE {
          return Failed(EIO);
        }
        value := value + Zeros(required - |value|);
      }
      value := value[..offset] + buf + value[offset + |buf|..];
      ApplyFew(st, PutOp(cf, path, value), PutOp(cf, path, value));
      handler.store.PutKey(cf, path, value);
      SameLookups(handler.store.data, Put(st, cf, path, value));
      offset := AddU64(offset, |buf|);
      r := Ret(|buf|);
    }

    method Lseek(move: I64, whence: Whence) returns (r: CResult)
      modifies this
      ensures
        var p := PlanLseek(old(View()), 0, move, whence);
        r == p.result && map[0 := State()] == p.handles
      ensures old(Agrees()) ==>
        var a := A.ALseek(old(AView()), 0, move, whence);
        R.SameResult(r, a.1) && AView() == a.0 && Agrees()
    {
      hide EndsWith, AddSigned, A.ALseek, R.FilesMatch, R.SameResult;
      if Agrees() {
        FileCallAgrees(handler.store.data, handler.files, State(), A.Cursor(id, offset), Call.Lseek(0, move, whence));
        ReadOnly(AView(), Call.Lseek(0, move, whence));
      }
      var to: I64 := move;
      match whence {
        case SeekSet =>
        case SeekCur => to := AddSigned(move, offset);
        case SeekEnd => to := AddSigned(move, FileSize(handler.store.data, path));
        case SeekOther => return Failed(EINVAL);
      }
      if to < 0 {
        return Failed(EINVAL);
      }
      offset := to;
      r := Ret(to);
    }
  }
}
