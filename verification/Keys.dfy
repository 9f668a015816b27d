/** The master key: its hexadecimal environment variable, its sealed file and the backups of that
    file, and how the process obtains a key when it boots. */
module Keys {
  import opened Text
  import opened Content

  // --- hexadecimal -----------------------------------------------------------

  const DIGITS := "0123456789abcdef"

  function HexEncode(k: Bytes): string
  {
    if k == [] then ""
    else [DIGITS[k[0] as int / 16], DIGITS[k[0] as int % 16]] + HexEncode(k[1..])
  }

  function HexValue(c: char): Option<nat>
  {
    if '0' <= c <= '9' then Some((c - '0') as nat)
    else if 'a' <= c <= 'f' then Some((c - 'a') as nat + 10)
    else if 'A' <= c <= 'F' then Some((c - 'A') as nat + 10)
    else None
  }

  /** Fails on an odd length and on any character that is no hexadecimal digit. */
  function HexDecode(s: string): Option<Bytes>
  {
    if s == [] then Some([])
    else if |s| == 1 then None
    else
      match (HexValue(s[0]), HexValue(s[1]), HexDecode(s[2..]))
      case (Some(h), Some(l), Some(rest)) =>
        if h < 16 && l < 16 then Some([(h * 16 + l) as byte] + rest) else None
      case _ => None
  }

  lemma DigitValue(n: int)
    requires 0 <= n < 16
    ensures HexValue(DIGITS[n]) == Some(n)
  {
  }

  lemma {:induction false} HexRoundTrip(k: Bytes)
    ensures HexDecode(HexEncode(k)) == Some(k)
    decreases |k|
  {
    hide HexValue;
    if k != [] {
      var n := k[0] as int;
      DigitValue(n / 16);
      DigitValue(n % 16);
      HexRoundTrip(k[1..]);
      var s := HexEncode(k);
      assert s[0] == DIGITS[n / 16] && s[1] == DIGITS[n % 16] && s[2..] == HexEncode(k[1..]);
      assert HexDecode(s) == Some([(n / 16 * 16 + n % 16) as byte] + k[1..]);
      assert (n / 16 * 16 + n % 16) as byte == k[0] && [k[0]] + k[1..] == k;
    }
  }

  predicate IsHexDigit(c: char) { '0' <= c <= '9' || 'a' <= c <= 'f' || 'A' <= c <= 'F' }

  predicate AllHex(s: string) { forall i :: 0 <= i < |s| ==> IsHexDigit(s[i]) }

  function Lower(c: char): char { if 'A' <= c <= 'F' then c - 'A' + 'a' else c }

  function Lowered(s: string): string { seq(|s|, i requires 0 <= i < |s| => Lower(s[i])) }

  lemma DigitOf(c: char)
    ensures HexValue(c).Some? <==> IsHexDigit(c)
    ensures HexValue(c).Some? ==> HexValue(c).value < 16 && DIGITS[HexValue(c).value] == Lower(c)
  {
  }

  lemma AllHexStep(s: string)
    requires |s| >= 2
    ensures AllHex(s) <==> IsHexDigit(s[0]) && IsHexDigit(s[1]) && AllHex(s[2..])
    ensures Lowered(s) == [Lower(s[0]), Lower(s[1])] + Lowered(s[2..])
  {
    hide IsHexDigit, Lower;
    assert forall i :: 2 <= i < |s| ==> s[i] == s[2..][i - 2];
  }

  lemma EncodeStep(h: nat, l: nat, rest: Bytes)
    requires h < 16 && l < 16
    ensures HexEncode([(h * 16 + l) as byte] + rest) == [DIGITS[h], DIGITS[l]] + HexEncode(rest)
  {
    var k := [(h * 16 + l) as byte] + rest;
    assert k[1..] == rest && (h * 16 + l) / 16 == h && (h * 16 + l) % 16 == l;
  }

  /** A text decodes if and only if it has an even number of characters, all hexadecimal digits, two to a
      byte; and encoding gives it back, in lower case. */
  lemma {:induction false} HexDecodesIff(s: string)
    ensures HexDecode(s).Some? <==> |s| % 2 == 0 && AllHex(s)
    ensures HexDecode(s).Some? ==> |s| == 2 * |HexDecode(s).value| && HexEncode(HexDecode(s).value) == Lowered(s)
    decreases |s|
  {
    hide HexValue, IsHexDigit, Lower, AllHex, Lowered, HexEncode;
    if |s| < 2 {
      ShortHex(s);
    } else {
      DigitOf(s[0]);
      DigitOf(s[1]);
      AllHexStep(s);
      HexDecodesIff(s[2..]);
      if HexDecode(s).Some? {
        EncodeStep(HexValue(s[0]).value, HexValue(s[1]).value, HexDecode(s[2..]).value);
      }
    }
  }

  lemma ShortHex(s: string)
    requires |s| < 2
    ensures HexDecode(s).Some? <==> |s| % 2 == 0 && AllHex(s)
    ensures HexDecode(s).Some? ==> |s| == 2 * |HexDecode(s).value| && HexEncode(HexDecode(s).value) == Lowered(s)
  {
  }

  lemma HexInjective(k: Bytes, l: Bytes)
    requires HexEncode(k) == HexEncode(l)
    ensures k == l
  {
    hide HexEncode, HexDecode;
    HexRoundTrip(k);
    HexRoundTrip(l);
  }

  // --- sealing and the files --------------------------------------------------

  /** What the key file can hold. Sealing binds a key to a host; outside an enclave the key is stored
      as it is. A torn file is what an interrupted write leaves. */
  datatype Blob = Sealed(host: int, key: Bytes) | Plain(key: Bytes) | Torn

  datatype FileName = Current | Backup(stamp: nat)

  type Files = map<FileName, Blob>

  datatype Config = Config(enclave: bool, isMarble: bool, debug: bool, hasManifestPath: bool)

  const KEY_SIZE := 16

  function Seal(cfg: Config, host: int, key: Bytes): Blob
  {
    if cfg.enclave then Sealed(host, key) else Plain(key)
  }

  /** The inverse of sealing, on the same host only. */
  function Unseal(cfg: Config, host: int, b: Blob): Option<Bytes>
  {
    if cfg.enclave then if b.Sealed? && b.host == host then Some(b.key) else None
    else if b.Plain? then Some(b.key) else None
  }

  datatype KeyError =
    | EnvMalformed | NotProvidedByMarblerun | NotExist | CannotRead | CannotUnseal | WrongSize | CannotStore

  datatype KeyResult = Key(key: Bytes) | NoKey(error: KeyError)

  /** None when the variable is unset. */
  function LoadFromEnv(env: Option<string>): Option<KeyResult>
  {
    match env
    case None => None
    case Some(hex) =>
      match HexDecode(hex)
      case None => Some(NoKey(EnvMalformed))
      case Some(k) => Some(if |k| == KEY_SIZE then Key(k) else NoKey(EnvMalformed))
  }

  /** Environment first, then the sealed file; a key read from the file is put into the environment. */
  function Load(cfg: Config, host: int, env: Option<string>, files: Files, readFails: bool): (KeyResult, Option<string>)
  {
    match LoadFromEnv(env)
    case Some(r) => (r, env)
    case None =>
      if cfg.isMarble then (NoKey(NotProvidedByMarblerun), env)
      else if Current !in files then (NoKey(NotExist), env)
      else if readFails then (NoKey(CannotRead), env)
      else
        match Unseal(cfg, host, files[Current])
        case None => (NoKey(CannotUnseal), env)
        case Some(k) => if |k| != KEY_SIZE then (NoKey(WrongSize), env) else (Key(k), Some(HexEncode(k)))
  }

  // --- storing -------------------------------------------------------------------

  datatype WriteOutcome = Whole | Partial | Nothing

  /** What the environment lets go wrong while storing. */
  datatype Faults = Faults(seal: bool, mkdir: bool, backup: WriteOutcome, write: WriteOutcome)

  const NO_FAULTS := Faults(false, false, Whole, Whole)

  datatype FileWrite = FileWrite(name: FileName, blob: Blob)

  /** Writing a file goes through a torn state. */
  function WriteFile(name: FileName, b: Blob, o: WriteOutcome): seq<FileWrite>
  {
    match o
    case Whole => [FileWrite(name, Torn), FileWrite(name, b)]
    case Partial => [FileWrite(name, Torn)]
    case Nothing => []
  }

  /** The writes of storing a blob, in order: the old file goes to a backup before it is overwritten. */
  function StoreWrites(files: Files, b: Blob, stamp: nat, f: Faults): seq<FileWrite>
  {
    (if Current in files then WriteFile(Backup(stamp), files[Current], f.backup) else []) +
    WriteFile(Current, b, f.write)
  }

  function ApplyFiles(files: Files, ws: seq<FileWrite>): Files
    decreases |ws|
  {
    if ws == [] then files else ApplyFiles(files[ws[0].name := ws[0].blob], ws[1..])
  }

  datatype Stored = Stored(env: Option<string>, writes: seq<FileWrite>, error: Option<KeyError>)

  /** `storeMasterKey`: the environment is set first, so it stays set when a later step fails. */
  function StoreKey(cfg: Config, host: int, env: Option<string>, files: Files, key: Bytes, stamp: nat, f: Faults): Stored
  {
    if |key| != KEY_SIZE then Stored(env, [], Some(WrongSize))
    else
      var env' := Some(HexEncode(key));
      if (cfg.enclave && f.seal) || f.mkdir then Stored(env', [], Some(CannotStore))
      else
        Stored(env', StoreWrites(files, Seal(cfg, host, key), stamp, f),
               if f.write.Whole? then None else Some(CannotStore))
  }

  // --- conservation -----------------------------------------------------------------

  /** The blobs on disk that are not torn. */
  ghost function Blobs(files: Files): set<Blob>
  {
    set n | n in files && files[n] != Torn :: files[n]
  }

  /** The files a crash after `k` writes leaves. */
  function AfterWrites(files: Files, ws: seq<FileWrite>, k: nat): Files
  {
    ApplyFiles(files, if k <= |ws| then ws[..k] else ws)
  }

  lemma ApplyFilesFew(files: Files, a: FileWrite, b: FileWrite, c: FileWrite, d: FileWrite)
    ensures ApplyFiles(files, []) == files
    ensures ApplyFiles(files, [a]) == files[a.name := a.blob]
    ensures ApplyFiles(files, [a, b]) == files[a.name := a.blob][b.name := b.blob]
    ensures ApplyFiles(files, [a, b, c]) == files[a.name := a.blob][b.name := b.blob][c.name := c.blob]
    ensures ApplyFiles(files, [a, b, c, d])
         == files[a.name := a.blob][b.name := b.blob][c.name := c.blob][d.name := d.blob]
  {
    hide ApplyFiles;
    ApplyNone(files);
    var f1 := files[a.name := a.blob];
    var f2 := f1[b.name := b.blob];
    var f3 := f2[c.name := c.blob];
    var f4 := f3[d.name := d.blob];
    ApplyNone(f1);
    ApplyNone(f2);
    ApplyNone(f3);
    ApplyNone(f4);
    ApplyCons(f3, d, []);
    ApplyCons(f2, c, []);
    ApplyCons(f2, c, [d]);
    ApplyCons(f1, b, []);
    ApplyCons(f1, b, [c]);
    ApplyCons(f1, b, [c, d]);
    ApplyCons(files, a, []);
    ApplyCons(files, a, [b]);
    ApplyCons(files, a, [b, c]);
    ApplyCons(files, a, [b, c, d]);
    assert [a] + [] == [a] && [a] + [b] == [a, b] && [a] + [b, c] == [a, b, c] && [a] + [b, c, d] == [a, b, c, d];
    assert [b] + [] == [b] && [b] + [c] == [b, c] && [b] + [c, d] == [b, c, d];
    assert [c] + [] == [c] && [c] + [d] == [c, d] && [d] + [] == [d];
  }

  lemma ApplyNone(files: Files)
    ensures ApplyFiles(files, []) == files
  {
  }

  lemma ApplyCons(files: Files, a: FileWrite, ws: seq<FileWrite>)
    ensures ApplyFiles(files, [a] + ws) == ApplyFiles(files[a.name := a.blob], ws)
  {
    assert ([a] + ws)[1..] == ws;
  }

  lemma {:induction false} ApplyConcat(files: Files, a: seq<FileWrite>, b: seq<FileWrite>)
    ensures ApplyFiles(files, a + b) == ApplyFiles(ApplyFiles(files, a), b)
    decreases |a|
  {
    if a == [] {
      assert a + b == b;
    } else {
      assert (a + b)[0] == a[0] && (a + b)[1..] == a[1..] + b;
      ApplyConcat(files[a[0].name := a[0].blob], a[1..], b);
    }
  }

  /** The files after the first `k` writes of a store whose backup succeeds. */
  lemma StoreCrashPoints(files: Files, b: Blob, stamp: nat, f: Faults, k: nat)
    requires f.backup.Whole?
    ensures
      var files' := AfterWrites(files, StoreWrites(files, b, stamp, f), k);
      if Current !in files then
        files' == files || files' == files[Current := Torn] || files' == files[Current := b]
      else
        var backed := files[Backup(stamp) := files[Current]];
        files' == files || files' == files[Backup(stamp) := Torn] || files' == backed
        || files' == backed[Current := Torn] || files' == backed[Current := b]
  {
    hide ApplyFiles;
    var ws := StoreWrites(files, b, stamp, f);
    if Current in files {
      var w := [FileWrite(Backup(stamp), Torn), FileWrite(Backup(stamp), files[Current]),
                FileWrite(Current, Torn), FileWrite(Current, b)];
      ApplyFilesFew(files, w[0], w[1], w[2], w[3]);
      assert ws == w[..|ws|];
      var cut := if k <= |ws| then ws[..k] else ws;
      assert cut == w[..|cut|];
      assert w[..0] == [] && w[..1] == [w[0]] && w[..2] == [w[0], w[1]] && w[..3] == [w[0], w[1], w[2]];
      assert w[..4] == [w[0], w[1], w[2], w[3]];
    } else {
      var w := [FileWrite(Current, Torn), FileWrite(Current, b)];
      ApplyFilesFew(files, w[0], w[1], w[0], w[0]);
      assert ws == w[..|ws|];
      var cut := if k <= |ws| then ws[..k] else ws;
      assert cut == w[..|cut|];
      assert w[..0] == [] && w[..1] == [w[0]] && w[..2] == [w[0], w[1]];
    }
  }

  /** With an unused stamp, no crash point of a store loses a blob that was on disk. */
  lemma StoreKeepsBlobs(files: Files, b: Blob, stamp: nat, f: Faults, k: nat)
    requires f.backup.Whole? && Backup(stamp) !in files
    ensures Blobs(files) <= Blobs(AfterWrites(files, StoreWrites(files, b, stamp, f), k))
    ensures AfterWrites(files, StoreWrites(files, b, stamp, f), k).Keys <= files.Keys + {Current, Backup(stamp)}
  {
    hide StoreWrites, AfterWrites;
    StoreCrashPoints(files, b, stamp, f, k);
    var files' := AfterWrites(files, StoreWrites(files, b, stamp, f), k);
    forall x | x in Blobs(files) ensures x in Blobs(files') {
      var n :| n in files && files[n] == x;
      var m := if n == Current && files'[Current] != x then Backup(stamp) else n;
      assert m in files' && files'[m] == x;
    }
  }

  /** A call of `storeMasterKey`, possibly interrupted after `upto` writes. */
  datatype StoreCall = StoreCall(blob: Blob, stamp: nat, faults: Faults, upto: nat)

  function AfterCalls(files: Files, calls: seq<StoreCall>): Files
    decreases |calls|
  {
    if calls == [] then files
    else
      var c := calls[0];
      AfterCalls(AfterWrites(files, StoreWrites(files, c.blob, c.stamp, c.faults), c.upto), calls[1..])
  }

  /** The call was not interrupted and its file was written. */
  predicate Finished(files: Files, c: StoreCall)
  {
    c.faults.write.Whole? && |StoreWrites(files, c.blob, c.stamp, c.faults)| <= c.upto
  }

  /** The files after one more call. */
  lemma {:induction false} AfterOneMore(files: Files, calls: seq<StoreCall>, i: nat)
    requires i < |calls|
    ensures
      var before := AfterCalls(files, calls[..i]);
      var c := calls[i];
      AfterCalls(files, calls[..i + 1]) == AfterWrites(before, StoreWrites(before, c.blob, c.stamp, c.faults), c.upto)
    decreases i
  {
    hide StoreWrites, AfterWrites;
    var c := calls[0];
    if i == 0 {
      assert calls[..1][1..] == [];
    } else {
      assert calls[..i + 1][1..] == calls[1..][..i] && calls[..i][1..] == calls[1..][..i - 1];
      AfterOneMore(AfterWrites(files, StoreWrites(files, c.blob, c.stamp, c.faults), c.upto), calls[1..], i - 1);
    }
  }

  /** Calls with distinct, unused stamps whose backups succeed. */
  ghost predicate FreshStamps(files: Files, calls: seq<StoreCall>)
  {
    && (forall i :: 0 <= i < |calls| ==> calls[i].faults.backup.Whole? && Backup(calls[i].stamp) !in files)
    && (forall i, j :: 0 <= i < j < |calls| ==> calls[i].stamp != calls[j].stamp)
  }

  /** Conservation: over any such calls, interrupted wherever, every blob that was on disk between two
      of them is still there at the end, as the current file or a backup. */
  lemma {:induction false} BlobsConserved(files: Files, calls: seq<StoreCall>, j: nat)
    requires FreshStamps(files, calls) && j <= |calls|
    ensures Blobs(AfterCalls(files, calls[..j])) <= Blobs(AfterCalls(files, calls))
    decreases |calls|
  {
    hide StoreWrites, AfterWrites, Blobs;
    if calls != [] {
      var c := calls[0];
      var files' := AfterWrites(files, StoreWrites(files, c.blob, c.stamp, c.faults), c.upto);
      StoreKeepsBlobs(files, c.blob, c.stamp, c.faults, c.upto);
      BlobsConserved(files', calls[1..], if j == 0 then 0 else j - 1);
      assert AfterCalls(files', calls[1..][..0]) == files';
      assert j != 0 ==> calls[..j][1..] == calls[1..][..j - 1];
    }
  }

  /** Every blob that one of the calls finished storing is still there at the end. */
  lemma FinishedBlobsStay(files: Files, calls: seq<StoreCall>, i: nat)
    requires FreshStamps(files, calls) && i < |calls|
    requires Finished(AfterCalls(files, calls[..i]), calls[i]) && calls[i].blob != Torn
    ensures calls[i].blob in Blobs(AfterCalls(files, calls))
  {
    hide StoreWrites, AfterCalls, ApplyFiles;
    var before, c := AfterCalls(files, calls[..i]), calls[i];
    AfterOneMore(files, calls, i);
    AfterStore(before, c.blob, c.stamp, c.faults);
    var ws := StoreWrites(before, c.blob, c.stamp, c.faults);
    assert ws[..|ws|] == ws;
    assert Current in AfterCalls(files, calls[..i + 1]) && AfterCalls(files, calls[..i + 1])[Current] == c.blob;
    BlobsConserved(files, calls, i + 1);
  }

  // --- what a store loses -------------------------------------------------------------

  function Outcome(files: Files, name: FileName, b: Blob, o: WriteOutcome): Files
  {
    match o
    case Whole => files[name := b]
    case Partial => files[name := Torn]
    case Nothing => files
  }

  lemma WriteOutcomes(files: Files, name: FileName, b: Blob, o: WriteOutcome)
    ensures ApplyFiles(files, WriteFile(name, b, o)) == Outcome(files, name, b, o)
  {
    hide ApplyFiles;
    var t, w := FileWrite(name, Torn), FileWrite(name, b);
    ApplyFilesFew(files, t, w, w, w);
  }

  /** A failed backup is not noticed: the current file is overwritten all the same. */
  lemma AfterStore(files: Files, b: Blob, stamp: nat, f: Faults)
    ensures
      var backed := if Current in files then Outcome(files, Backup(stamp), files[Current], f.backup) else files;
      ApplyFiles(files, StoreWrites(files, b, stamp, f)) == Outcome(backed, Current, b, f.write)
  {
    hide ApplyFiles, WriteFile, Outcome;
    ApplyNone(files);
    var first := if Current in files then WriteFile(Backup(stamp), files[Current], f.backup) else [];
    if Current in files { WriteOutcomes(files, Backup(stamp), files[Current], f.backup); }
    ApplyConcat(files, first, WriteFile(Current, b, f.write));
    WriteOutcomes(ApplyFiles(files, first), Current, b, f.write);
  }

  /** The files a store with these outcomes overwrites. */
  function Overwritten(files: Files, stamp: nat, f: Faults): set<FileName>
  {
    (if Current in files && !f.backup.Nothing? then {Backup(stamp)} else {}) +
    (if f.write.Nothing? then {} else {Current})
  }

  /** The blobs it writes whole. */
  function Written(files: Files, b: Blob, f: Faults): set<Blob>
  {
    (if Current in files && f.backup.Whole? then {files[Current]} else {}) +
    (if f.write.Whole? then {b} else {})
  }

  /** Whatever fails, the blobs on disk afterwards are those of the files not overwritten and those
      written whole. */
  lemma BlobsAfterStore(files: Files, b: Blob, stamp: nat, f: Faults)
    ensures Blobs(ApplyFiles(files, StoreWrites(files, b, stamp, f)))
         == Blobs(files - Overwritten(files, stamp, f)) + (Written(files, b, f) - {Torn})
  {
    hide ApplyFiles, StoreWrites;
    AfterStore(files, b, stamp, f);
    var files' := ApplyFiles(files, StoreWrites(files, b, stamp, f));
    var kept := files - Overwritten(files, stamp, f);
    forall x | x in Blobs(kept) ensures x in Blobs(files') {
      var n :| n in kept && kept[n] == x;
      assert n in files' && files'[n] == x;
    }
    forall x | x in Written(files, b, f) - {Torn} ensures x in Blobs(files') {
      var n := if f.write.Whole? && x == b then Current else Backup(stamp);
      assert n in files' && files'[n] == x;
    }
    forall x | x in Blobs(files') ensures x in Blobs(kept) + (Written(files, b, f) - {Torn}) {
      var n :| n in files' && files'[n] == x;
      assert n in kept ==> kept[n] == x;
    }
  }

  /** A copy of what is in file `n` is written whole, or lies in a file that is not overwritten. */
  ghost predicate Survives(files: Files, b: Blob, stamp: nat, f: Faults, n: FileName)
    requires n in files
  {
    files[n] in Written(files, b, f) ||
    exists m :: m in files && m !in Overwritten(files, stamp, f) && files[m] == files[n]
  }

  /** Whatever fails and whatever the files hold, a store loses nothing if and only if every untorn file it
      overwrites survives elsewhere. */
  lemma StoreLosesIff(files: Files, b: Blob, stamp: nat, f: Faults)
    ensures Blobs(files) <= Blobs(ApplyFiles(files, StoreWrites(files, b, stamp, f)))
       <==> forall n | n in Overwritten(files, stamp, f) && n in files && files[n] != Torn ::
              Survives(files, b, stamp, f, n)
  {
    hide ApplyFiles, StoreWrites, Overwritten, Written;
    BlobsAfterStore(files, b, stamp, f);
    var kept := files - Overwritten(files, stamp, f);
    var after := Blobs(ApplyFiles(files, StoreWrites(files, b, stamp, f)));
    forall n | n in files && files[n] != Torn
      ensures files[n] in Blobs(files)
      ensures n !in Overwritten(files, stamp, f) ==> files[n] in after
      ensures files[n] in after <==> Survives(files, b, stamp, f, n)
    {
      assert forall m :: m in kept <==> m in files && m !in Overwritten(files, stamp, f);
      assert forall m :: m in kept ==> kept[m] == files[m];
    }
    assert forall x | x in Blobs(files) :: exists n :: n in files && files[n] == x;
  }

  /** For distinct blobs, as sealing makes them: nothing is lost if and only if no untorn backup of the same
      second is overwritten, and no untorn current file whose backup failed. */
  lemma DistinctLosesIff(files: Files, b: Blob, stamp: nat, f: Faults)
    requires b != Torn && b !in files.Values
    requires forall n, m :: n in files && m in files && n != m && files[n] != Torn ==> files[n] != files[m]
    ensures Blobs(files) <= Blobs(ApplyFiles(files, StoreWrites(files, b, stamp, f)))
       <==> || Current !in files
            || (&& (f.backup.Nothing? || Backup(stamp) !in files || files[Backup(stamp)] == Torn)
                && (f.write.Nothing? || files[Current] == Torn || f.backup.Whole?))
  {
    hide ApplyFiles, StoreWrites, Blobs;
    StoreLosesIff(files, b, stamp, f);
    forall n | n in Overwritten(files, stamp, f) && n in files && files[n] != Torn
      ensures Survives(files, b, stamp, f, n) <==> n == Current && f.backup.Whole?
    {
      assert files[n] in files.Values;
    }
  }
}
