/** What the system-call handler does to the store, call by call.

    A call is planned on the current world: the plan holds the store operations in the order the
    code issues them, the new open handles and in-memory files, and the result. Carrying out the
    plan is the call; carrying out a prefix of its store operations is a crash, or a store failure,
    inside the call. */
module FileLayer {
  import opened Text
  import opened Paths
  import opened Content
  import opened KeyOrder

  // --- the store ---------------------------------------------------------

  datatype Cf = Frm | Db

  datatype StoreKey = In(cf: Cf, key: string)

  /** Both column families in one map. */
  type Store = map<StoreKey, Value>

  function Get(st: Store, cf: Cf, key: string): Option<Value>
  {
    if In(cf, key) in st then Some(st[In(cf, key)]) else None
  }

  function Put(st: Store, cf: Cf, key: string, value: Value): Store { st[In(cf, key) := value] }

  function Delete(st: Store, cf: Cf, key: string): Store { st - {In(cf, key)} }

  function KeysOf(st: Store, cf: Cf): set<string> { set k | k in st && k.cf == cf :: k.key }

  datatype StoreOp = PutOp(cf: Cf, key: string, value: Value) | DeleteOp(cf: Cf, key: string)

  function Apply(st: Store, op: StoreOp): Store
  {
    match op
    case PutOp(cf, k, v) => Put(st, cf, k, v)
    case DeleteOp(cf, k) => Delete(st, cf, k)
  }

  function ApplyAll(st: Store, ops: seq<StoreOp>): Store
    decreases |ops|
  {
    if ops == [] then st else ApplyAll(Apply(st, ops[0]), ops[1..])
  }

  lemma ApplyFew(st: Store, a: StoreOp, b: StoreOp)
    ensures ApplyAll(st, []) == st
    ensures ApplyAll(st, [a]) == Apply(st, a)
    ensures ApplyAll(st, [a, b]) == Apply(Apply(st, a), b)
  {
    assert [a][1..] == [] && [a, b][1..] == [b] && [b][1..] == [];
    assert ApplyAll(Apply(st, a), [b]) == ApplyAll(Apply(Apply(st, a), b), []);
  }

  // --- calls and results ---------------------------------------------------

  datatype Handle = Handle(path: string, offset: U64)

  /** The store, the in-memory file system the other files live in, and the open redirected files. */
  datatype World = World(store: Store, memfs: map<string, Value>, handles: map<int, Handle>)

  datatype Whence = SeekSet | SeekCur | SeekEnd | SeekOther

  datatype Call =
    | Open(path: string, creat: bool, fd: int)   // `fd`: what the descriptor table would assign
    | Stat(path: string)
    | Access(path: string)
    | Rename(src: string, dst: string)
    | Unlink(path: string)
    | Dir(path: string)
    | Read(fd: int, count: U64)
    | Write(fd: int, buf: Buffer)
    | Lseek(fd: int, offset: I64, whence: Whence)
    | Fstat(fd: int)
    | Close(fd: int)
    | Memfs(files: map<string, Value>)           // the calls that are not handled act here

  datatype Errno = ENOENT | EIO | EINVAL | EBADF | EMFILE

  /** `Failed(EIO)` is a caught exception: the hook and the file operations report it so. */
  datatype Result<L> =
    | Unhandled
    | Ret(value: int)
    | Failed(errno: Errno)
    | Data(bytes: Bytes)
    | Size(size: nat)
    | Names(names: L)

  type CResult = Result<seq<string>>

  datatype Plan = Plan(ops: seq<StoreOp>, memfs: map<string, Value>, handles: map<int, Handle>, result: CResult)

  function Just(w: World, r: CResult): Plan { Plan([], w.memfs, w.handles, r) }

  // --- the handler ---------------------------------------------------------

  function GetCf(path: string): Option<Cf>
  {
    if EndsWith(path, ".frm") then Some(Frm) else if EndsWith(path, ".opt") then Some(Db) else None
  }

  /** The stored value of a path; None also stands for a path without family. */
  function Lookup(st: Store, path: string): Option<Value>
  {
    if GetCf(path).Some? then Get(st, GetCf(path).value, path) else None
  }

  predicate Exists(st: Store, path: string) { Lookup(st, path).Some? }

  function PlanOpen(w: World, pathname: string, creat: bool, fd: int): (p: Plan)
    ensures p.ops == []
  {
    var path := Normalize(pathname);
    if !IsKnownExtension(path) then
      Just(w, if EndsWith(path, ".frm~") && !IsTempFile(path) then Failed(EIO) else Unhandled)
    else if !IsKnownFile(path) then Just(w, Failed(EIO))
    else if !creat && !Exists(w.store, path) then Just(w, Failed(ENOENT))
    else if EndsWith(path, ".frm") && !Exists(w.store, path[..RFind(path, '/') + 1] + "db.opt") then
      Just(w, Failed(ENOENT))
    else if fd < 0 then Just(w, Failed(EMFILE))
    else Plan([], w.memfs, w.handles[fd := Handle(path, 0)], Ret(fd))
  }

  function PlanStat(w: World, path: string): (p: Plan)
    ensures p.ops == [] && p.handles == w.handles
  {
    Just(w,
      if !IsKnownExtension(path) then Unhandled
      else if !IsKnownFile(path) then Failed(EIO)
      else match Lookup(w.store, path)
        case None => Failed(ENOENT)
        case Some(v) => Size(|v|))
  }

  function PlanAccess(w: World, path: string): (p: Plan)
    ensures p.ops == [] && p.handles == w.handles
  {
    Just(w,
      if IsKnownExtension(path) then
        var p := if IsKnownFile(path) then path else "./" + path;
        if !IsKnownFile(p) then Failed(EIO)
        else if Exists(w.store, p) then Ret(0) else Failed(ENOENT)
      else if IsFolder(path) then
        var p := if path[|path| - 1] != '/' then path + "/" else path;
        if Exists(w.store, p + "db.opt") then Ret(0) else Unhandled
      else Unhandled)
  }

  function PlanRename(w: World, src: string, dst: string): (p: Plan)
    ensures p.handles == w.handles
  {
    hide EndsWith, ParseFile;
    if EndsWith(src, ".frm") && EndsWith(dst, ".frm") then
      if !IsKnownFile(src) || !IsKnownFile(dst) then Just(w, Failed(EIO))
      else match Get(w.store, Frm, src)
        case None => Just(w, Failed(EIO))
        case Some(v) => Plan([PutOp(Frm, dst, v), DeleteOp(Frm, src)], w.memfs, w.handles, Ret(0))
    else if EndsWith(src, ".frm~") then
      if !IsKnownFile(dst) then Just(w, Failed(EIO))
      else if src !in w.memfs || w.memfs[src] == [] then Just(w, Failed(EIO))
      else Plan([PutOp(Frm, dst, w.memfs[src])], w.memfs - {src}, w.handles, Ret(0))
    else Just(w, Unhandled)
  }

  function PlanUnlink(w: World, pathname: string): (p: Plan)
    ensures p.handles == w.handles
  {
    var path := Normalize(pathname);
    match GetCf(path)
    case None => Just(w, Unhandled)
    case Some(cf) => Plan([DeleteOp(cf, path)], w.memfs, w.handles, Ret(0))
  }

  /** `x.erase(x.rfind('/')); x.erase(0, 2)`; the first erase throws when there is no '/'. */
  function DatabaseOfKey(x: string): Option<string>
  {
    var i := RFind(x, '/');
    if i < 0 then None else Some(x[..i][Min(2, i)..])
  }

  /** `x.erase(0, x.rfind('/') + 1)`. */
  function FileOfKey(x: string): string { x[RFind(x, '/') + 1..] }

  ghost function DirResult(st: Store, pathname: string): CResult
  {
    var path := Normalize(pathname);
    if path == "." then
      var ks := Listing(WithPrefix(KeysOf(st, Db), ""));
      if forall i :: 0 <= i < |ks| ==> DatabaseOfKey(ks[i]).Some?
      then Names(seq(|ks|, i requires 0 <= i < |ks| => DatabaseOfKey(ks[i]).value))
      else Failed(EIO)
    else if !IsFolder(path) then Failed(EIO)
    else
      var ks := Listing(WithPrefix(KeysOf(st, Frm), path));
      Names(seq(|ks|, i requires 0 <= i < |ks| => FileOfKey(ks[i])))
  }

  // --- operations on open files ----------------------------------------------

  function PlanRead(w: World, fd: int, count: U64): (p: Plan)
    ensures p.ops == []
  {
    if fd !in w.handles then Just(w, Failed(EBADF))
    else
      var h := w.handles[fd];
      match Lookup(w.store, h.path)
      case None => Just(w, Failed(EIO))
      case Some(v) =>
        var n := if |v| <= h.offset then 0 else Min(count, |v| - h.offset);
        var bytes := if n == 0 then [] else v[h.offset..h.offset + n];
        Plan([], w.memfs, w.handles[fd := h.(offset := AddU64(h.offset, n))], Data(bytes))
  }

  function PlanWrite(w: World, fd: int, buf: Buffer): Plan
  {
    if fd !in w.handles then Just(w, Failed(EBADF))
    else
      var h := w.handles[fd];
      if GetCf(h.path).None? then Just(w, Failed(EIO))
      else
        var value := match Lookup(w.store, h.path) case None => [] case Some(v) => v;
        var required := AddU64(h.offset, |buf|);
        if required < h.offset || (|value| < required && MAX_SIZE < required) then Just(w, Failed(EIO))
        else
          OverflowTest(h.offset, |buf|);
          Plan([PutOp(GetCf(h.path).value, h.path, Copy(Grow(value, required), h.offset, buf))],
               w.memfs, w.handles[fd := h.(offset := AddU64(h.offset, |buf|))], Ret(|buf|))
  }

  function FileSize(st: Store, path: string): U64
  {
    match Lookup(st, path) case None => 0 case Some(v) => |v|
  }

  function PlanLseek(w: World, fd: int, offset: I64, whence: Whence): (p: Plan)
    ensures p.ops == []
  {
    if fd !in w.handles then Just(w, Failed(EBADF))
    else
      var h := w.handles[fd];
      if whence.SeekOther? then Just(w, Failed(EINVAL))
      else
        var to: I64 :=
          if whence.SeekSet? then offset
          else if whence.SeekCur? then AddSigned(offset, h.offset)
          else AddSigned(offset, FileSize(w.store, h.path));
        if to < 0 then Just(w, Failed(EINVAL))
        else Plan([], w.memfs, w.handles[fd := h.(offset := to)], Ret(to))
  }

  function PlanFstat(w: World, fd: int): (p: Plan)
    ensures p.ops == [] && p.handles == w.handles
  {
    Just(w, if fd !in w.handles then Failed(EBADF) else Size(FileSize(w.store, w.handles[fd].path)))
  }

  function PlanClose(w: World, fd: int): (p: Plan)
    ensures p.ops == []
  {
    if fd !in w.handles then Just(w, Failed(EBADF)) else Plan([], w.memfs, w.handles - {fd}, Ret(0))
  }

  // --- steps and runs --------------------------------------------------------

  ghost function PlanOf(w: World, c: Call): Plan
  {
    match c
    case Open(p, creat, fd) => PlanOpen(w, p, creat, fd)
    case Stat(p) => PlanStat(w, p)
    case Access(p) => PlanAccess(w, p)
    case Rename(o, n) => PlanRename(w, o, n)
    case Unlink(p) => PlanUnlink(w, p)
    case Dir(p) => Just(w, DirResult(w.store, p))
    case Read(fd, count) => PlanRead(w, fd, count)
    case Write(fd, buf) => PlanWrite(w, fd, buf)
    case Lseek(fd, off, wh) => PlanLseek(w, fd, off, wh)
    case Fstat(fd) => PlanFstat(w, fd)
    case Close(fd) => PlanClose(w, fd)
    case Memfs(files) => Plan([], files, w.handles, Unhandled)
  }

  function Commit(w: World, p: Plan): World { World(ApplyAll(w.store, p.ops), p.memfs, p.handles) }

  ghost function Step(w: World, c: Call): World { Commit(w, PlanOf(w, c)) }

  /** The store as a crash or store failure inside the call would leave it, after at most `k` operations. */
  ghost function CrashStore(w: World, c: Call, k: nat): Store
  {
    var ops := PlanOf(w, c).ops;
    ApplyAll(w.store, ops[..if k <= |ops| then k else |ops|])
  }

  ghost function Run(w: World, calls: seq<Call>): World
    decreases |calls|
  {
    if calls == [] then w else Run(Step(w, calls[0]), calls[1..])
  }

  ghost function Results(w: World, calls: seq<Call>): (rs: seq<CResult>)
    ensures |rs| == |calls|
    decreases |calls|
  {
    if calls == [] then [] else [PlanOf(w, calls[0]).result] + Results(Step(w, calls[0]), calls[1..])
  }

  const EMPTY := World(map[], map[], map[])
}
