/** Directory listings are exact in every reachable state. */
module Directories {
  import opened Text
  import opened Paths
  import opened Content
  import opened KeyOrder
  import opened FileLayer
  import opened Refinement
  import opened FileLaws

  /** The keys of a listing are the stored ones with the prefix, and canonical paths. */
  lemma ListedKeys(st: Store, cf: Cf, prefix: string)
    requires KeySpace(st)
    ensures
      var ks := Listing(WithPrefix(KeysOf(st, cf), prefix));
      && (forall k :: k in ks <==> In(cf, k) in st && StartsWith(k, prefix))
      && (forall k :: k in ks ==> KeyOk(In(cf, k)))
  {
    hide KeyOk, StartsWith;
    var ks := Listing(WithPrefix(KeysOf(st, cf), prefix));
    forall k ensures k in ks <==> In(cf, k) in st && StartsWith(k, prefix) {
      assert k in ks <==> k in Elems(ks);
      if In(cf, k) in st { assert In(cf, k).key in KeysOf(st, cf); }
    }
  }

  lemma AscendingNoRepeats(ks: seq<string>)
    requires Ascending(ks)
    ensures NoRepeats(ks)
  {
    hide Less;
    forall i, j | 0 <= i < j < |ks| ensures ks[i] != ks[j] {
      LessIrreflexive(ks[i]);
    }
  }

  /** Mapping an injective function over a sequence without repeats. */
  lemma MappedNoRepeats(ks: seq<string>, ns: seq<string>)
    requires NoRepeats(ks) && |ns| == |ks|
    requires forall i, j :: 0 <= i < |ks| && 0 <= j < |ks| && ns[i] == ns[j] ==> ks[i] == ks[j]
    ensures NoRepeats(ns)
  {
    forall i, j | 0 <= i < j < |ns| ensures ns[i] != ns[j] {
      assert ks[i] != ks[j];
    }
  }

  /** Cutting the key of an option file gives its database: both erasures are in range. */
  lemma DatabaseKeyInRange(k: string)
    requires KeyOk(In(Db, k))
    ensures RFind(k, '/') >= 2 && DatabaseOfKey(k).Some?
    ensures IsName(DatabaseOfKey(k).value) && Key(DbOpt(DatabaseOfKey(k).value)) == k
  {
    hide ParseFile, Key;
    OptionFileOf(ParseFile(k).value);
    ShownNames(ParseFile(k).value);
  }

  /** `Dir(".")` and `Dir("/data/")` never fail, list each database once, and rebuilding the option
      file's path from a name gives the stored key. */
  lemma DatabasesExact(w: World, p: string)
    requires KeySpace(w.store) && Normalize(p) == "."
    ensures DirResult(w.store, p).Names? && NoRepeats(DirResult(w.store, p).names)
    ensures forall d :: d in DirResult(w.store, p).names <==> IsName(d) && In(Db, Key(DbOpt(d))) in w.store
  {
    hide Key, ParseFile, Less, StartsWith, RFind, IsName, DatabaseOfKey, KeyOk;
    var ks := Listing(WithPrefix(KeysOf(w.store, Db), ""));
    ListedKeys(w.store, Db, "");
    AscendingNoRepeats(ks);
    forall i | 0 <= i < |ks|
      ensures DatabaseOfKey(ks[i]).Some? && IsName(DatabaseOfKey(ks[i]).value)
      ensures Key(DbOpt(DatabaseOfKey(ks[i]).value)) == ks[i]
    {
      assert ks[i] in ks;
      DatabaseKeyInRange(ks[i]);
    }
    var ns := DirResult(w.store, p).names;
    MappedNoRepeats(ks, ns);
    forall d ensures d in ns <==> IsName(d) && In(Db, Key(DbOpt(d))) in w.store {
      if IsName(d) && In(Db, Key(DbOpt(d))) in w.store {
        StoredNameListed(w.store, d, ks, ns);
      }
    }
  }

  lemma StoredNameListed(st: Store, d: string, ks: seq<string>, ns: seq<string>)
    requires IsName(d) && In(Db, Key(DbOpt(d))) in st
    requires forall k :: k in ks <==> In(Db, k) in st && StartsWith(k, "")
    requires |ns| == |ks| && forall i :: 0 <= i < |ks| ==> DatabaseOfKey(ks[i]) == Some(ns[i])
    ensures d in ns
  {
    var k := Key(DbOpt(d));
    assert StartsWith(k, "") && k in ks;
    var i :| 0 <= i < |ks| && ks[i] == k;
    ShownNames(DbOpt(d));
    assert ns[i] == d;
  }

  /** The files of the table family in database `d`: its tables, and possibly an orphaned option file. */
  ghost predicate StoredIn(st: Store, d: string, name: string)
  {
    exists id :: ValidId(id) && id.d == d && BaseName(id) == name && In(Frm, Key(id)) in st
  }

  lemma FileKeyParts(k: string, d: string)
    requires ParseFile(k).Some? && IsName(d) && StartsWith(k, "./" + d + "/")
    ensures ParseFile(k).value.d == d && FileOfKey(k) == BaseName(ParseFile(k).value)
    ensures k == "./" + d + "/" + FileOfKey(k)
  {
    hide ParseFile, StartsWith, RFind;
    KeyPrefix(ParseFile(k).value, d);
    OptionFileOf(ParseFile(k).value);
  }

  /** `Dir("./d/")` lists exactly the table-family files of `d`, once each. */
  lemma TablesExact(w: World, d: string)
    requires KeySpace(w.store) && IsName(d)
    ensures
      var r := DirResult(w.store, "./" + d + "/");
      r.Names? && NoRepeats(r.names) && forall n :: n in r.names <==> StoredIn(w.store, d, n)
  {
    hide ParseFile, Less, StartsWith, RFind, FileOfKey, Key, ParseFolder, IsName;
    var p := "./" + d + "/";
    FolderPath(d);
    var ks := Listing(WithPrefix(KeysOf(w.store, Frm), p));
    ListedKeys(w.store, Frm, p);
    AscendingNoRepeats(ks);
    var ns := DirResult(w.store, p).names;
    forall i | 0 <= i < |ks|
      ensures ks[i] == p + ns[i] && StoredIn(w.store, d, ns[i])
    {
      assert ks[i] in ks;
      FileKeyParts(ks[i], d);
      assert Key(ParseFile(ks[i]).value) == ks[i];
    }
    MappedNoRepeats(ks, ns);
    forall n | StoredIn(w.store, d, n) ensures n in ns {
      var id :| ValidId(id) && id.d == d && BaseName(id) == n && In(Frm, Key(id)) in w.store;
      KeyPrefix(id, d);
      assert Key(id) in ks;
      var i :| 0 <= i < |ks| && ks[i] == Key(id);
      OptionFileOf(id);
      FileKeyParts(ks[i], d);
      ParseKey(id);
      assert ns[i] == FileOfKey(ks[i]);
    }
  }

  lemma FolderPath(d: string)
    requires IsName(d)
    ensures Normalize("./" + d + "/") == "./" + d + "/" && Normalize("./" + d) == "./" + d
    ensures IsFolder("./" + d + "/") && IsFolder("./" + d)
    ensures "./" + d + "/" != "." && "./" + d != "."
  {
    hide ParseFolder;
    ParseFolderOf(d);
    assert ("./" + d)[0] == '.' && ("./" + d + "/")[0] == '.' && DATADIR[0] == '/';
  }

  /** A stored table-family file of another database whose name extends `d`. */
  ghost predicate Extended(st: Store, d: string, k: string)
  {
    In(Frm, k) in st && ParseFile(k).Some? && ParseFile(k).value.d != d && StartsWith(ParseFile(k).value.d, d)
  }

  lemma PlainPrefix(id: FileId, d: string)
    requires ValidId(id) && IsName(d)
    ensures StartsWith(Key(id), "./" + d) <==>
      StartsWith(Key(id), "./" + d + "/") || (id.d != d && StartsWith(id.d, d))
    ensures StartsWith(Key(id), "./" + d + "/") ==> id.d == d
  {
    hide Key;
    KeyPrefix(id, d);
    assert StartsWith(d, d);
  }

  /** `Dir("./d")`, a raw prefix match, equals `Dir("./d/")` if and only if no other database with
      stored table files has a name that extends `d`. */
  lemma PlainFolderIff(w: World, d: string)
    requires KeySpace(w.store) && IsName(d)
    ensures DirResult(w.store, "./" + d) == DirResult(w.store, "./" + d + "/")
       <==> !exists k :: Extended(w.store, d, k)
  {
    hide StartsWith, ParseFile, Less, FileOfKey, IsName, ParseFolder, KeySpace, Normalize;
    FolderPath(d);
    var keys := KeysOf(w.store, Frm);
    var plain, exact := WithPrefix(keys, "./" + d), WithPrefix(keys, "./" + d + "/");
    forall k | k in keys ensures
      (k in plain <==> k in exact || Extended(w.store, d, k)) && !(k in exact && Extended(w.store, d, k))
    {
      assert In(Frm, k) in w.store;
      KeyIsOk(w.store, In(Frm, k));
      PlainPrefix(ParseFile(k).value, d);
    }
    ListingLength(Listing(plain));
    ListingLength(Listing(exact));
    assert |DirResult(w.store, "./" + d).names| == |plain|;
    assert |DirResult(w.store, "./" + d + "/").names| == |exact|;
    if exists k :: Extended(w.store, d, k) {
      var k :| Extended(w.store, d, k);
      assert In(Frm, k).key in keys;
      assert exact < plain;
      SubsetSize(exact, plain);
    } else {
      assert plain == exact;
    }
  }

  lemma KeyIsOk(st: Store, k: StoreKey)
    requires KeySpace(st) && k in st
    ensures ParseFile(k.key).Some?
  {
    hide ParseFile;
    assert KeyOk(k);
  }

  lemma SubsetSize<T>(a: set<T>, b: set<T>)
    requires a < b
    ensures |a| < |b|
  {
    assert |b| == |a| + |b - a| by { assert b == a + (b - a); }
  }

  lemma {:induction false} ListingLength(ks: seq<string>)
    requires Ascending(ks)
    ensures |Elems(ks)| == |ks|
    decreases |ks|
  {
    hide Less;
    if ks != [] {
      TailListing(ks, Elems(ks));
      ListingLength(ks[1..]);
      assert ks[0] in Elems(ks);
    }
  }

  /** Asking for the folder of a database succeeds when the database is listed, and is otherwise not
      handled. */
  lemma AccessMatchesListing(w: World, d: string)
    requires KeySpace(w.store) && IsName(d)
    ensures DirResult(w.store, ".").Names?
    ensures PlanAccess(w, "./" + d).result == if d in DirResult(w.store, ".").names then Ret(0) else Unhandled
    ensures PlanAccess(w, "./" + d + "/").result == PlanAccess(w, "./" + d).result
  {
    hide ParseFile, ParseFolder, StartsWith, RFind, Key, IsKnownExtension, EndsWith, DirResult;
    assert Normalize(".") == "." by { NormalizeDot(); }
    DatabasesExact(w, ".");
    FolderPath(d);
    ParseFolderOf(d);
    FolderOptionFile("./" + d);
    FolderOptionFile("./" + d + "/");
    LanguagesDisjoint("./" + d);
    LanguagesDisjoint("./" + d + "/");
    KeyExtension(DbOpt(d));
  }

  lemma NormalizeDot()
    ensures Normalize(".") == "."
  {
  }
}
