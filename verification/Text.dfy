/** String helpers with the meaning of the C++ string operations the file layer uses.
    A `char` stands for one byte of a path. */
module Text {

  datatype Option<+T> = None | Some(value: T)

  predicate StartsWith(s: string, prefix: string)
  {
    |prefix| <= |s| && s[..|prefix|] == prefix
  }

  predicate EndsWith(s: string, suffix: string)
  {
    |suffix| <= |s| && s[|s| - |suffix|..] == suffix
  }

  lemma EndsAfter(head: string, tail: string)
    ensures EndsWith(head + tail, tail)
  {
  }

  lemma SuffixEnds(s: string, suffix: string)
    requires EndsWith(s, suffix) && suffix != []
    ensures s[|s| - 1] == suffix[|suffix| - 1]
    ensures s[|s| - |suffix|] == suffix[0]
  {
    var t := s[|s| - |suffix|..];
    assert t[0] == suffix[0] && t[|suffix| - 1] == suffix[|suffix| - 1];
  }

  /** Suffixes with different last characters exclude each other. */
  lemma SuffixClash(s: string, a: string, b: string)
    requires EndsWith(s, a) && a != [] && b != [] && a[|a| - 1] != b[|b| - 1]
    ensures !EndsWith(s, b)
  {
    SuffixEnds(s, a);
    if EndsWith(s, b) {
      SuffixEnds(s, b);
    }
  }

  /** Index of the first `c` in `s`, or `|s|`. */
  function Find(s: string, c: char): (i: nat)
    ensures i <= |s|
    ensures i < |s| ==> s[i] == c
    ensures forall j :: 0 <= j < i ==> s[j] != c
  {
    if s == [] || s[0] == c then 0 else 1 + Find(s[1..], c)
  }

  /** Index of the last `c` in `s`, or -1 (the source's `npos`). */
  function RFind(s: string, c: char): (i: int)
    ensures -1 <= i < |s|
    ensures 0 <= i ==> s[i] == c
    ensures forall j :: i < j < |s| ==> s[j] != c
  {
    if s == [] then -1
    else if s[|s| - 1] == c then |s| - 1
    else RFind(s[..|s| - 1], c)
  }

  /** The part after a separator determines where the last separator is. */
  lemma {:induction false} RFindAt(a: string, b: string, c: char)
    requires c !in b
    ensures RFind(a + [c] + b, c) == |a|
  {
    var s := a + [c] + b;
    assert s[|a|] == c;
    assert forall i :: |a| < i < |s| ==> s[i] == b[i - |a| - 1];
  }

  lemma {:induction false} FindAt(a: string, b: string, c: char)
    requires c !in a
    ensures Find(a + [c] + b, c) == |a|
  {
    var s := a + [c] + b;
    assert s[|a|] == c;
    assert forall i :: 0 <= i < |a| ==> s[i] == a[i];
  }
}
