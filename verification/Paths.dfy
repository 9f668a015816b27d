/** The path grammar of the intercepted files: `./d/db.opt`, `./d/t.frm`, `./d/t.frm~` and
    the folders `./d` and `./d/`, with `d` and `t` non-empty and free of '.' and '/'. */
module Paths {
  import opened Text

  /** A persistent file: the option file of a database, or the definition of one of its tables. */
  datatype FileId = DbOpt(d: string) | Table(d: string, t: string)

  predicate IsName(s: string)
  {
    s != [] && '.' !in s && '/' !in s
  }

  predicate ValidId(id: FileId)
  {
    IsName(id.d) && (id.Table? ==> IsName(id.t))
  }

  function BaseName(id: FileId): (s: string)
  {
    match id
    case DbOpt(_) => "db.opt"
    case Table(_, t) => t + ".frm"
  }

  /** The canonical path of a file, which is also its key in the store. */
  function Key(id: FileId): (p: string)
  {
    "./" + id.d + "/" + BaseName(id)
  }

  /** Recognises and takes apart a path to a known file. */
  function ParseFile(p: string): (r: Option<FileId>)
    ensures r.Some? ==> ValidId(r.value) && Key(r.value) == p
  {
    if !StartsWith(p, "./") then None
    else
      var r := p[2..];
      var i := Find(r, '/');
      if i == |r| || !IsName(r[..i]) then None
      else
        var d, f := r[..i], r[i + 1..];
        assert p == "./" + d + "/" + f;
        if f == "db.opt" then Some(DbOpt(d))
        else if EndsWith(f, ".frm") && IsName(f[..|f| - 4]) then
          assert f == f[..|f| - 4] + ".frm";
          Some(Table(d, f[..|f| - 4]))
        else None
  }

  predicate IsKnownFile(p: string) { ParseFile(p).Some? }

  lemma PathParts(d: string, f: string)
    requires '/' !in d
    ensures
      var p := "./" + d + "/" + f;
      && StartsWith(p, "./") && |d| < |p[2..]| && Find(p[2..], '/') == |d|
      && p[2..][..|d|] == d && p[2..][|d| + 1..] == f
  {
    var p := "./" + d + "/" + f;
    assert p[..2] == "./";
    assert p[2..] == d + ['/'] + f;
    FindAt(d, f, '/');
  }

  lemma TableName(t: string)
    ensures t + ".frm" != "db.opt" && EndsWith(t + ".frm", ".frm") && (t + ".frm")[..|t|] == t
  {
    var f := t + ".frm";
    assert f[|f| - 1] == 'm' && "db.opt"[5] == 't';
    assert f[|f| - 4..] == ".frm";
  }

  /** Printing then parsing gives the file back, so a path has one decomposition only. */
  lemma ParseKey(id: FileId)
    requires ValidId(id)
    ensures ParseFile(Key(id)) == Some(id)
  {
    hide Find, EndsWith, StartsWith;
    PathParts(id.d, BaseName(id));
    if id.Table? {
      TableName(id.t);
    }
  }

  /** A temporary table definition, `./d/t.frm~`. */
  predicate IsTempFile(p: string)
  {
    EndsWith(p, "~") && ParseFile(p[..|p| - 1]).Some? && ParseFile(p[..|p| - 1]).value.Table?
  }

  /** `./d` or `./d/`; the result is `d`. */
  function ParseFolder(p: string): (r: Option<string>)
    ensures r.Some? ==> IsName(r.value) && (p == "./" + r.value || p == "./" + r.value + "/")
  {
    if !StartsWith(p, "./") then None
    else if IsName(p[2..]) then
      assert p == "./" + p[2..];
      Some(p[2..])
    else if EndsWith(p[2..], "/") && IsName(p[2..|p| - 1]) then
      assert p == "./" + p[2..|p| - 1] + "/";
      Some(p[2..|p| - 1])
    else None
  }

  predicate IsFolder(p: string) { ParseFolder(p).Some? }

  lemma ParseFolderOf(d: string)
    requires IsName(d)
    ensures ParseFolder("./" + d) == ParseFolder("./" + d + "/") == Some(d)
  {
    var p := "./" + d + "/";
    assert p[2..] == d + "/" && p[2..|p| - 1] == d;
    assert ("./" + d)[2..] == d;
    assert (d + "/")[|d|] == '/';
  }

  predicate IsKnownExtension(p: string)
  {
    EndsWith(p, ".frm") || EndsWith(p, ".opt")
  }

  const DATADIR := "/data/"

  function Normalize(p: string): (r: string)
  {
    if !StartsWith(p, DATADIR) then p
    else if p == DATADIR then "."
    else "./" + p[|DATADIR|..]
  }

  /** Normalising twice is normalising once, and it is the identity exactly off the data directory. */
  lemma NormalizeIdempotent(p: string)
    ensures Normalize(Normalize(p)) == Normalize(p)
    ensures Normalize(p) == p <==> !StartsWith(p, DATADIR)
  {
    assert DATADIR[0] == '/';
  }

  /** The data directory is where relative paths start: its files and folders, written as absolute paths,
      are those of the grammar. */
  lemma NormalizeAbsolute(id: FileId, d: string)
    ensures Normalize("/data/" + Key(id)[2..]) == Key(id)
    ensures d != "" ==> Normalize("/data/" + d) == "./" + d && Normalize("/data/" + d + "/") == "./" + d + "/"
    ensures Normalize("/data/") == "."
  {
    var rest := Key(id)[2..];
    assert Key(id) == "./" + rest && rest != "";
    assert (DATADIR + rest)[..6] == DATADIR && (DATADIR + rest)[6..] == rest;
    assert (DATADIR + d)[..6] == DATADIR && (DATADIR + d)[6..] == d;
    assert DATADIR + d + "/" == DATADIR + (d + "/");
    assert (DATADIR + (d + "/"))[..6] == DATADIR && (DATADIR + (d + "/"))[6..] == d + "/";
  }

  /** The extension of a known file tells its kind, hence its column family. */
  lemma KeyExtension(id: FileId)
    requires ValidId(id)
    ensures EndsWith(Key(id), ".frm") <==> id.Table?
    ensures EndsWith(Key(id), ".opt") <==> id.DbOpt?
    ensures !EndsWith(Key(id), ".frm~")
  {
    hide EndsWith, Key;
    KeyEnds(id);
    if id.Table? {
      SuffixClash(Key(id), ".frm", ".opt");
      SuffixClash(Key(id), ".frm", ".frm~");
    } else {
      SuffixClash(Key(id), ".opt", ".frm");
      SuffixClash(Key(id), ".opt", ".frm~");
    }
  }

  lemma KeyEnds(id: FileId)
    ensures EndsWith(Key(id), if id.Table? then ".frm" else ".opt")
  {
    var p := Key(id);
    if id.DbOpt? {
      assert p == "./" + id.d + "/db" + ".opt";
    } else {
      assert p == "./" + id.d + "/" + id.t + ".frm";
    }
  }

  lemma TempFileShape(p: string)
    requires IsTempFile(p)
    ensures EndsWith(p, ".frm~") && !IsKnownExtension(p)
    ensures |p| >= 5 && p[|p| - 5] == '.'
  {
    hide ParseFile, Key;
    var q := p[..|p| - 1];
    KeyExtension(ParseFile(q).value);
    TildeAppended(q, p);
    SuffixClash(p, "~", ".frm");
    SuffixClash(p, "~", ".opt");
    SuffixEnds(p, ".frm~");
  }

  lemma TildeAppended(q: string, p: string)
    requires EndsWith(q, ".frm") && p != [] && q == p[..|p| - 1] && p[|p| - 1..] == "~"
    ensures EndsWith(p, ".frm~")
  {
    assert p[|p| - 5..] == q[|q| - 4..] + p[|p| - 1..];
  }

  lemma FolderHasNoLateDot(p: string)
    requires IsFolder(p)
    ensures forall i :: 1 <= i < |p| ==> p[i] != '.'
    ensures |p| >= 3 && p[1] == '/'
  {
    var d := ParseFolder(p).value;
    forall i | 1 <= i < |p| ensures p[i] != '.' {
      if 2 <= i < 2 + |d| {
        assert p[i] == d[i - 2];
      }
    }
  }

  lemma FolderShape(p: string)
    requires IsFolder(p)
    ensures !IsKnownExtension(p) && !EndsWith(p, ".frm~")
  {
    FolderHasNoLateDot(p);
    assert p != ".frm" && p != ".opt" && p != ".frm~" by {
      assert p[1] == '/' && ".frm"[1] == 'f' && ".opt"[1] == 'o' && ".frm~"[1] == 'f';
    }
    if EndsWith(p, ".frm") { SuffixEnds(p, ".frm"); }
    if EndsWith(p, ".opt") { SuffixEnds(p, ".opt"); }
    if EndsWith(p, ".frm~") { SuffixEnds(p, ".frm~"); }
  }

  /** The path languages are pairwise disjoint, and the two extension tests tell them apart. */
  lemma LanguagesDisjoint(p: string)
    ensures IsKnownFile(p) ==> IsKnownExtension(p) && !EndsWith(p, ".frm~") && !IsFolder(p) && !IsTempFile(p) && p != "."
    ensures IsTempFile(p) ==> EndsWith(p, ".frm~") && !IsKnownExtension(p) && !IsFolder(p) && p != "."
    ensures IsFolder(p) ==> !IsKnownExtension(p) && !EndsWith(p, ".frm~") && p != "."
  {
    if IsKnownFile(p) {
      KeyExtension(ParseFile(p).value);
    }
    if IsTempFile(p) {
      TempFileShape(p);
    }
    if IsFolder(p) {
      FolderShape(p);
    }
  }

  /** Cutting a table path after its last '/' and appending `db.opt` names its database's option file. */
  lemma OptionFileOf(id: FileId)
    requires ValidId(id)
    ensures Key(id)[..RFind(Key(id), '/') + 1] + "db.opt" == Key(DbOpt(id.d))
    ensures RFind(Key(id), '/') == 2 + |id.d|
    ensures Key(id)[RFind(Key(id), '/') + 1..] == BaseName(id)
  {
    var f := BaseName(id);
    assert '/' !in f by {
      if id.Table? {
        assert forall i :: 0 <= i < |f| ==> f[i] == if i < |id.t| then id.t[i] else ".frm"[i - |id.t|];
      }
    }
    assert Key(id) == "./" + id.d + ['/'] + f;
    RFindAt("./" + id.d, f, '/');
    assert Key(id)[..2 + |id.d| + 1] == "./" + id.d + "/";
  }
}
