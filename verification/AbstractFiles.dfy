/** The file system the handler is meant to be: one map from files to contents, and open
    handles with offsets. Paths occur only through their classification. */
module AbstractFiles {
  import opened Text
  import opened Paths
  import opened Content
  import opened FileLayer

  datatype Cursor = Cursor(id: FileId, offset: U64)

  datatype Fs = Fs(files: map<FileId, Value>, memfs: map<string, Value>, cursors: map<int, Cursor>)

  /** A directory listing is a set of files; the caller sees their names. */
  type AResult = Result<set<FileId>>

  datatype PathClass =
    | File(id: FileId)
    | BadFile            // an intercepted extension on a path outside the grammar
    | Temp
    | BadTemp
    | Folder(d: string, slash: bool)
    | Root
    | Other

  function Classify(p: string): PathClass
  {
    if IsKnownFile(p) then File(ParseFile(p).value)
    else if IsKnownExtension(p) then BadFile
    else if IsTempFile(p) then Temp
    else if EndsWith(p, ".frm~") then BadTemp
    else if IsFolder(p) then Folder(ParseFolder(p).value, EndsWith(p, "/"))
    else if p == "." then Root
    else Other
  }


  function AOpen(a: Fs, c: PathClass, creat: bool, fd: int): (Fs, AResult)
  {
    match c
    case File(id) =>
      if (!creat && id !in a.files) || (id.Table? && DbOpt(id.d) !in a.files) then (a, Failed(ENOENT))
      else if fd < 0 then (a, Failed(EMFILE))
      else (a.(cursors := a.cursors[fd := Cursor(id, 0)]), Ret(fd))
    case BadFile => (a, Failed(EIO))
    case BadTemp => (a, Failed(EIO))
    case _ => (a, Unhandled)
  }

  function AStat(a: Fs, c: PathClass): AResult
  {
    match c
    case File(id) => if id in a.files then Size(|a.files[id]|) else Failed(ENOENT)
    case BadFile => Failed(EIO)
    case _ => Unhandled
  }

  /** A name with a known extension may leave out the leading "./". */
  function AAccess(a: Fs, path: string): AResult
  {
    match Classify(path)
    case File(id) => if id in a.files then Ret(0) else Failed(ENOENT)
    case BadFile =>
      (match Classify("./" + path)
       case File(id) => if id in a.files then Ret(0) else Failed(ENOENT)
       case _ => Failed(EIO))
    case Folder(d, _) => if DbOpt(d) in a.files then Ret(0) else Unhandled
    case _ => Unhandled
  }

  function ARename(a: Fs, src: string, dst: string): (Fs, AResult)
  {
    if EndsWith(src, ".frm") && EndsWith(dst, ".frm") then
      match (Classify(src), Classify(dst))
      case (File(s), File(d)) =>
        if s !in a.files then (a, Failed(EIO))
        else (a.(files := a.files[d := a.files[s]] - {s}), Ret(0))
      case _ => (a, Failed(EIO))
    else if EndsWith(src, ".frm~") then
      match Classify(dst)
      case File(d) =>
        if src !in a.memfs || a.memfs[src] == [] then (a, Failed(EIO))
        else (a.(files := a.files[d := a.memfs[src]], memfs := a.memfs - {src}), Ret(0))
      case _ => (a, Failed(EIO))
    else (a, Unhandled)
  }

  function AUnlink(a: Fs, c: PathClass): (Fs, AResult)
  {
    match c
    case File(id) => (a.(files := a.files - {id}), Ret(0))
    case BadFile => (a, Ret(0))
    case _ => (a, Unhandled)
  }

  /** The databases; the tables of a database; and, without the trailing slash, also the tables
      of every database whose name extends the given one. */
  function ADir(a: Fs, c: PathClass): AResult
  {
    match c
    case Root => Names(set id | id in a.files && id.DbOpt?)
    case Folder(d, true) => Names(set id | id in a.files && id.Table? && id.d == d)
    case Folder(d, false) => Names(set id | id in a.files && id.Table? && StartsWith(id.d, d))
    case _ => Failed(EIO)
  }

  function ARead(a: Fs, fd: int, count: U64): (Fs, AResult)
  {
    if fd !in a.cursors then (a, Failed(EBADF))
    else
      var c := a.cursors[fd];
      if c.id !in a.files then (a, Failed(EIO))
      else
        var bytes := Slice(a.files[c.id], c.offset, count);
        (a.(cursors := a.cursors[fd := c.(offset := AddU64(c.offset, |bytes|))]), Data(bytes))
  }

  function Contents(a: Fs, id: FileId): Value { if id in a.files then a.files[id] else [] }

  function AWrite(a: Fs, fd: int, buf: Buffer): (Fs, AResult)
  {
    if fd !in a.cursors then (a, Failed(EBADF))
    else
      var c := a.cursors[fd];
      var end := c.offset + |buf|;
      if MAX_SIZE < end then (a, Failed(EIO))
      else (a.(files := a.files[c.id := Overlay(Contents(a, c.id), c.offset, buf)],
               cursors := a.cursors[fd := c.(offset := end)]), Ret(|buf|))
  }

  function ALseek(a: Fs, fd: int, offset: I64, whence: Whence): (Fs, AResult)
  {
    if fd !in a.cursors then (a, Failed(EBADF))
    else
      var c := a.cursors[fd];
      var base := match whence case SeekCur => c.offset case SeekEnd => |Contents(a, c.id)| case _ => 0;
      if whence.SeekOther? || !(0 <= base + offset < TWO63) then (a, Failed(EINVAL))
      else (a.(cursors := a.cursors[fd := c.(offset := base + offset)]), Ret(base + offset))
  }

  function AFstat(a: Fs, fd: int): AResult
  {
    if fd !in a.cursors then Failed(EBADF) else Size(|Contents(a, a.cursors[fd].id)|)
  }

  function AClose(a: Fs, fd: int): (Fs, AResult)
  {
    if fd !in a.cursors then (a, Failed(EBADF)) else (a.(cursors := a.cursors - {fd}), Ret(0))
  }

  function AStep(a: Fs, c: Call): (Fs, AResult)
  {
    match c
    case Open(p, creat, fd) => AOpen(a, Classify(Normalize(p)), creat, fd)
    case Stat(p) => (a, AStat(a, Classify(p)))
    case Access(p) => (a, AAccess(a, p))
    case Rename(s, d) => ARename(a, s, d)
    case Unlink(p) => AUnlink(a, Classify(Normalize(p)))
    case Dir(p) => (a, ADir(a, Classify(Normalize(p))))
    case Read(fd, count) => ARead(a, fd, count)
    case Write(fd, buf) => AWrite(a, fd, buf)
    case Lseek(fd, off, wh) => ALseek(a, fd, off, wh)
    case Fstat(fd) => (a, AFstat(a, fd))
    case Close(fd) => AClose(a, fd)
    case Memfs(files) => (a.(memfs := files), Unhandled)
  }

  function ARun(a: Fs, calls: seq<Call>): Fs
    decreases |calls|
  {
    if calls == [] then a else ARun(AStep(a, calls[0]).0, calls[1..])
  }

  function AResults(a: Fs, calls: seq<Call>): (rs: seq<AResult>)
    ensures |rs| == |calls|
    decreases |calls|
  {
    if calls == [] then [] else [AStep(a, calls[0]).1] + AResults(AStep(a, calls[0]).0, calls[1..])
  }

  const EMPTY_FS := Fs(map[], map[], map[])
}
