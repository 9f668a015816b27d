/** The three path regular expressions of the source, as syntax with a matching relation.
    The recognisers of module Paths accept exactly these languages. */
module Regex {
  import opened Text
  import opened Paths

  datatype Re =
    | Lit(s: string)
    | NoneOf(chars: set<char>)   // one or more characters, none of them in `chars`
    | Opt(r: Re)
    | Cat(a: Re, b: Re)
    | Alt(a: Re, b: Re)

  predicate Matches(r: Re, s: string)
  {
    match r
    case Lit(x) => s == x
    case NoneOf(chars) => s != [] && forall c | c in s :: c !in chars
    case Opt(a) => s == [] || Matches(a, s)
    case Cat(a, b) => exists k | 0 <= k <= |s| :: Matches(a, s[..k]) && Matches(b, s[k..])
    case Alt(a, b) => Matches(a, s) || Matches(b, s)
  }

  const NAME := NoneOf({'.', '/'})
  const FRM := Cat(NAME, Lit(".frm"))
  const TEMP := Cat(NAME, Lit(".frm~"))

  /** A folder prefix followed by `tail`. */
  function InFolder(tail: Re): Re { Cat(Lit("./"), Cat(NAME, tail)) }

  const RE_FOLDER := InFolder(Opt(Lit("/")))
  const RE_KNOWN_FILE := InFolder(Cat(Lit("/"), FILE))
  const RE_TEMP_FILE := InFolder(Cat(Lit("/"), TEMP))

  lemma CatIntro(a: Re, b: Re, x: string, y: string)
    requires Matches(a, x) && Matches(b, y)
    ensures Matches(Cat(a, b), x + y)
  {
    var s := x + y;
    assert s[..|x|] == x && s[|x|..] == y;
  }

  lemma CatElim(a: Re, b: Re, s: string) returns (x: string, y: string)
    requires Matches(Cat(a, b), s)
    ensures s == x + y && Matches(a, x) && Matches(b, y)
  {
    var k :| 0 <= k <= |s| && Matches(a, s[..k]) && Matches(b, s[k..]);
    x, y := s[..k], s[k..];
  }

  lemma LitIff(x: string, s: string)
    ensures Matches(Lit(x), s) <==> s == x
  {
  }

  lemma NameIff(s: string)
    ensures Matches(NAME, s) <==> IsName(s)
  {
    if Matches(NAME, s) && s != [] {
      assert forall c | c in s :: c !in {'.', '/'};
    }
  }

  lemma InFolderIntro(d: string, tail: Re, rest: string)
    requires IsName(d) && Matches(tail, rest)
    ensures Matches(InFolder(tail), "./" + d + rest)
  {
    hide Matches;
    LitIff("./", "./");
    NameIff(d);
    CatIntro(NAME, tail, d, rest);
    CatIntro(Lit("./"), Cat(NAME, tail), "./", d + rest);
    assert "./" + (d + rest) == "./" + d + rest;
  }

  lemma InFolderElim(tail: Re, p: string) returns (d: string, rest: string)
    requires Matches(InFolder(tail), p)
    ensures IsName(d) && Matches(tail, rest) && p == "./" + d + rest
  {
    hide Matches;
    var x, y := CatElim(Lit("./"), Cat(NAME, tail), p);
    LitIff("./", x);
    d, rest := CatElim(NAME, tail, y);
    NameIff(d);
    assert "./" + (d + rest) == "./" + d + rest;
  }

  lemma FolderRegex(p: string)
    ensures IsFolder(p) <==> Matches(RE_FOLDER, p)
  {
    if IsFolder(p) {
      var d := ParseFolder(p).value;
      InFolderIntro(d, Opt(Lit("/")), p[2 + |d|..]);
      assert p == "./" + d + p[2 + |d|..];
    }
    if Matches(RE_FOLDER, p) {
      var d, rest := InFolderElim(Opt(Lit("/")), p);
      ParseFolderOf(d);
      assert "./" + d + [] == "./" + d;
    }
  }

  const FILE := Alt(Lit("db.opt"), FRM)

  lemma FileNameIff(d: string, f: string)
    requires IsName(d)
    ensures Matches(FILE, f) <==> exists id :: ValidId(id) && id.d == d && BaseName(id) == f
  {
    if Matches(FRM, f) {
      var t, ext := CatElim(NAME, Lit(".frm"), f);
      NameIff(t);
      assert BaseName(Table(d, t)) == f;
    }
    if f == "db.opt" {
      assert BaseName(DbOpt(d)) == f;
    }
    forall id | ValidId(id) && id.Table? && BaseName(id) == f ensures Matches(FRM, f) {
      NameIff(id.t);
      CatIntro(NAME, Lit(".frm"), id.t, ".frm");
    }
  }

  lemma KnownFileRegex(p: string)
    ensures IsKnownFile(p) <==> Matches(RE_KNOWN_FILE, p)
  {
    hide Matches;
    if IsKnownFile(p) { KnownFileMatches(ParseFile(p).value); }
    if Matches(RE_KNOWN_FILE, p) { MatchIsKnownFile(p); }
  }

  lemma KnownFileMatches(id: FileId)
    requires ValidId(id)
    ensures Matches(RE_KNOWN_FILE, Key(id))
  {
    hide Matches;
    LitIff("/", "/");
    FileNameIff(id.d, BaseName(id));
    CatIntro(Lit("/"), FILE, "/", BaseName(id));
    InFolderIntro(id.d, Cat(Lit("/"), FILE), "/" + BaseName(id));
    assert Key(id) == "./" + id.d + ("/" + BaseName(id));
  }

  lemma MatchIsKnownFile(p: string)
    requires Matches(RE_KNOWN_FILE, p)
    ensures IsKnownFile(p)
  {
    hide Matches;
    var d, rest := InFolderElim(Cat(Lit("/"), FILE), p);
    var slash, f := CatElim(Lit("/"), FILE, rest);
    LitIff("/", slash);
    FileNameIff(d, f);
    var id :| ValidId(id) && id.d == d && BaseName(id) == f;
    assert p == Key(id);
    ParseKey(id);
  }

  lemma TempFileRegex(p: string)
    ensures IsTempFile(p) <==> Matches(RE_TEMP_FILE, p)
  {
    hide Matches;
    if IsTempFile(p) {
      var id := ParseFile(p[..|p| - 1]).value;
      assert p == Key(id) + "~";
      TempFileMatches(id);
    }
    if Matches(RE_TEMP_FILE, p) { MatchIsTempFile(p); }
  }

  lemma TempFileMatches(id: FileId)
    requires ValidId(id) && id.Table?
    ensures Matches(RE_TEMP_FILE, Key(id) + "~")
  {
    hide Matches;
    LitIff("/", "/");
    LitIff(".frm~", ".frm~");
    NameIff(id.t);
    CatIntro(NAME, Lit(".frm~"), id.t, ".frm~");
    CatIntro(Lit("/"), TEMP, "/", id.t + ".frm~");
    InFolderIntro(id.d, Cat(Lit("/"), TEMP), "/" + (id.t + ".frm~"));
    assert Key(id) + "~" == "./" + id.d + ("/" + (id.t + ".frm~"));
  }

  lemma MatchIsTempFile(p: string)
    requires Matches(RE_TEMP_FILE, p)
    ensures IsTempFile(p)
  {
    hide Matches;
    var d, rest := InFolderElim(Cat(Lit("/"), TEMP), p);
    var slash, f := CatElim(Lit("/"), TEMP, rest);
    LitIff("/", slash);
    var t, ext := CatElim(NAME, Lit(".frm~"), f);
    LitIff(".frm~", ext);
    NameIff(t);
    assert p == Key(Table(d, t)) + "~";
    TempPathParses(Table(d, t), p);
  }

  lemma TempPathParses(id: FileId, p: string)
    requires ValidId(id) && id.Table? && p == Key(id) + "~"
    ensures IsTempFile(p)
  {
    ParseKey(id);
    assert p[..|p| - 1] == Key(id) && p[|p| - 1..] == "~";
  }
}
