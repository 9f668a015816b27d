/** Bytewise order of keys, and the store's seek-then-scan listing. */
module KeyOrder {
  import opened Text

  /** Strict lexicographic order, as RocksDB's default comparator. */
  predicate Less(a: string, b: string)
    decreases |a|
  {
    b != [] && (a == [] || a[0] < b[0] || (a[0] == b[0] && Less(a[1..], b[1..])))
  }

  lemma LessIrreflexive(a: string)
    ensures !Less(a, a)
    decreases |a|
  {
    if a != [] { LessIrreflexive(a[1..]); }
  }

  lemma {:induction false} LessTransitive(a: string, b: string, c: string)
    requires Less(a, b) && Less(b, c)
    ensures Less(a, c)
    decreases |a|
  {
    if a != [] && a[0] == b[0] == c[0] {
      LessTransitive(a[1..], b[1..], c[1..]);
    }
  }

  lemma {:induction false} LessTotal(a: string, b: string)
    ensures a == b || Less(a, b) || Less(b, a)
    decreases |a|
  {
    if a != [] && b != [] && a[0] == b[0] {
      LessTotal(a[1..], b[1..]);
      assert a[1..] == b[1..] ==> a == [a[0]] + a[1..] == [b[0]] + b[1..] == b;
    }
  }

  /** A key with the prefix is not below the prefix. */
  lemma {:induction false} PrefixNotBelow(prefix: string, k: string)
    requires StartsWith(k, prefix)
    ensures !Less(k, prefix)
    decreases |prefix|
  {
    if prefix != [] {
      StartsWithStep(k, prefix);
      PrefixNotBelow(prefix[1..], k[1..]);
    }
  }

  /** Keys sharing a prefix are contiguous: once a key at or above the prefix lacks it,
      no larger key has it. */
  lemma {:induction false} PrefixContiguous(prefix: string, k: string, l: string)
    requires !Less(k, prefix) && !StartsWith(k, prefix) && Less(k, l)
    ensures !StartsWith(l, prefix)
    decreases |prefix|
  {
    if k != [] && prefix != [] && l != [] {
      StartsWithStep(l, prefix);
      StartsWithStep(k, prefix);
      if k[0] == prefix[0] == l[0] {
        PrefixContiguous(prefix[1..], k[1..], l[1..]);
      }
    }
  }

  lemma StartsWithStep(s: string, prefix: string)
    requires s != [] && prefix != []
    ensures StartsWith(s, prefix) <==> s[0] == prefix[0] && StartsWith(s[1..], prefix[1..])
  {
    if |prefix| <= |s| {
      assert s[..|prefix|] == [s[0]] + s[1..][..|prefix| - 1];
      assert prefix == [prefix[0]] + prefix[1..];
      assert s[..|prefix|][1..] == s[1..][..|prefix| - 1];
    }
  }

  predicate Ascending(ks: seq<string>)
  {
    forall i, j :: 0 <= i < j < |ks| ==> Less(ks[i], ks[j])
  }

  function Elems<T>(s: seq<T>): set<T> { set x | x in s }

  lemma NonEmptyElems<T>(s: seq<T>)
    ensures s == [] <==> Elems(s) == {}
  {
    if s != [] { assert s[0] in Elems(s); }
  }

  /** `ks` lists the set `s` in key order without repeats. */
  predicate Lists(ks: seq<string>, s: set<string>)
  {
    Ascending(ks) && Elems(ks) == s
  }

  /** A set has one ordered listing only. */
  lemma {:induction false} ListingUnique(a: seq<string>, b: seq<string>, s: set<string>)
    requires Lists(a, s) && Lists(b, s)
    ensures a == b
    decreases |a|
  {
    if a == [] {
      NonEmptyElems(b);
    } else {
      assert a[0] in Elems(b);
      assert b != [];
      HeadIsLeast(a, b[0]);
      HeadIsLeast(b, a[0]);
      if a[0] != b[0] {
        LessTransitive(a[0], b[0], a[0]);
        LessIrreflexive(a[0]);
      }
      TailListing(a, s);
      TailListing(b, s);
      ListingUnique(a[1..], b[1..], s - {a[0]});
      assert a == [a[0]] + a[1..] && b == [b[0]] + b[1..];
    }
  }

  lemma HeadIsLeast(a: seq<string>, x: string)
    requires Ascending(a) && a != [] && (x in Elems(a) || x in a)
    ensures x == a[0] || Less(a[0], x)
  {
    var i :| 0 <= i < |a| && a[i] == x;
  }

  lemma TailListing(a: seq<string>, s: set<string>)
    requires Lists(a, s) && a != []
    ensures Lists(a[1..], s - {a[0]})
  {
    forall x ensures x in Elems(a[1..]) <==> x in s - {a[0]} {
      if x in a[1..] {
        var i :| 0 <= i < |a[1..]| && a[1..][i] == x;
        assert Less(a[0], a[i + 1]);
        LessIrreflexive(a[0]);
      }
      if x in s - {a[0]} {
        var i :| 0 <= i < |a| && a[i] == x;
        assert a[1..][i - 1] == x;
      }
    }
  }

  /** Every finite set of keys has an ordered listing. */
  lemma {:induction false} ListingExists(s: set<string>) returns (ks: seq<string>)
    ensures Lists(ks, s)
    decreases |s|
  {
    if s == {} {
      ks := [];
    } else {
      var x :| x in s;
      var rest := ListingExists(s - {x});
      var i := InsertionPoint(rest, x);
      ks := rest[..i] + [x] + rest[i..];
      InsertLists(rest, s - {x}, x, i);
      assert s - {x} + {x} == s;
    }
  }

  lemma InsertionPoint(ks: seq<string>, x: string) returns (i: nat)
    requires Ascending(ks) && x !in ks
    ensures i <= |ks|
    ensures forall j :: 0 <= j < i ==> Less(ks[j], x)
    ensures forall j :: i <= j < |ks| ==> Less(x, ks[j])
  {
    if ks == [] {
      i := 0;
    } else {
      LessTotal(ks[0], x);
      if Less(x, ks[0]) {
        i := 0;
        forall j | 0 <= j < |ks| ensures Less(x, ks[j]) {
          if j > 0 { LessTransitive(x, ks[0], ks[j]); }
        }
      } else {
        var k := InsertionPoint(ks[1..], x);
        i := k + 1;
        assert forall j :: 1 <= j < |ks| ==> ks[j] == ks[1..][j - 1];
      }
    }
  }

  lemma InsertLists(ks: seq<string>, s: set<string>, x: string, i: nat)
    requires Lists(ks, s) && x !in s && i <= |ks|
    requires forall j :: 0 <= j < i ==> Less(ks[j], x)
    requires forall j :: i <= j < |ks| ==> Less(x, ks[j])
    ensures Lists(ks[..i] + [x] + ks[i..], s + {x})
  {
    var r := ks[..i] + [x] + ks[i..];
    forall y ensures y in Elems(r) <==> y in s + {x} {
      if y in s {
        var j :| 0 <= j < |ks| && ks[j] == y;
        assert r[if j < i then j else j + 1] == y;
      }
      assert r[i] == x;
    }
    forall a, b | 0 <= a < b < |r| ensures Less(r[a], r[b]) {
      assert r[a] == if a < i then ks[a] else if a == i then x else ks[a - 1];
      assert r[b] == if b < i then ks[b] else if b == i then x else ks[b - 1];
    }
  }

  /** The ordered listing of a set of keys. */
  ghost function Listing(s: set<string>): (ks: seq<string>)
    ensures Lists(ks, s)
  {
    assert exists ks :: Lists(ks, s) by { var ks := ListingExists(s); }
    var ks :| Lists(ks, s);
    ks
  }

  ghost function WithPrefix(s: set<string>, prefix: string): set<string>
  {
    set k | k in s && StartsWith(k, prefix)
  }

  /** The position of the first key not below `target`. */
  method Seek(keys: seq<string>, target: string) returns (i: nat)
    requires Ascending(keys)
    ensures i <= |keys|
    ensures forall j :: 0 <= j < i ==> Less(keys[j], target)
    ensures forall j :: i <= j < |keys| ==> !Less(keys[j], target)
  {
    i := 0;
    while i < |keys| && Less(keys[i], target)
      invariant i <= |keys|
      invariant forall j :: 0 <= j < i ==> Less(keys[j], target)
    {
      i := i + 1;
    }
    forall j | i <= j < |keys| ensures !Less(keys[j], target) {
      if i < j && Less(keys[j], target) {
        LessTransitive(keys[i], keys[j], target);
      }
    }
  }

  /** The iterator loop of `RocksDB::GetKeys` over the keys of one column family: it stops at
      the first key without the prefix, and still returns every key that has it. */
  method GetKeys(keys: seq<string>, prefix: string) returns (result: seq<string>)
    requires Ascending(keys)
    ensures result == Listing(WithPrefix(Elems(keys), prefix))
  {
    var start := Seek(keys, prefix);
    var i := start;
    result := [];
    while i < |keys| && StartsWith(keys[i], prefix)
      invariant start <= i <= |keys|
      invariant result == keys[start..i]
      invariant forall j :: start <= j < i ==> StartsWith(keys[j], prefix)
    {
      result := result + [keys[i]];
      i := i + 1;
    }
    ScanIsFilter(keys, prefix, start, i);
    ListingUnique(result, Listing(WithPrefix(Elems(keys), prefix)), WithPrefix(Elems(keys), prefix));
  }

  /** The scanned block holds exactly the keys with the prefix. */
  lemma ScanIsFilter(keys: seq<string>, prefix: string, start: nat, end: nat)
    requires Ascending(keys) && start <= end <= |keys|
    requires forall j :: 0 <= j < start ==> Less(keys[j], prefix)
    requires forall j :: start <= j < |keys| ==> !Less(keys[j], prefix)
    requires forall j :: start <= j < end ==> StartsWith(keys[j], prefix)
    requires end < |keys| ==> !StartsWith(keys[end], prefix)
    ensures Lists(keys[start..end], WithPrefix(Elems(keys), prefix))
  {
    var block := keys[start..end];
    forall k ensures k in Elems(block) <==> k in WithPrefix(Elems(keys), prefix) {
      if k in block {
        var j :| 0 <= j < |block| && block[j] == k;
        assert keys[start + j] == k;
      }
      if k in WithPrefix(Elems(keys), prefix) {
        var j :| 0 <= j < |keys| && keys[j] == k;
        PrefixNotBelow(prefix, k);
        if j > end {
          PrefixContiguous(prefix, keys[end], k);
        }
        assert block[j - start] == k;
      }
    }
  }
}
