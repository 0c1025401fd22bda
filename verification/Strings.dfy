/** The few operations of java.lang.String and android.text.TextUtils the emergency list relies on. */
module Strings {
  import opened Prelude

  function IndexOf(s: string, c: char): (i: nat)
    ensures i <= |s|
    ensures i < |s| ==> s[i] == c
    ensures c !in s[..i] && (c in s ==> i < |s|)
  {
    if s == "" || s[0] == c then 0
    else
      var i := 1 + IndexOf(s[1..], c);
      assert s[..i] == [s[0]] + s[1..][..i - 1];
      i
  }

  /** All fields between occurrences of c, empty ones included. */
  function Fields(s: string, c: char): (fs: seq<string>)
    ensures |fs| >= 1
    decreases |s|
  {
    if c !in s then [s]
    else
      var i := IndexOf(s, c);
      [s[..i]] + Fields(s[i + 1..], c)
  }

  function StripTrailing(fs: seq<string>): seq<string> {
    if fs != [] && fs[|fs| - 1] == "" then StripTrailing(fs[..|fs| - 1]) else fs
  }

  /** String.split on one character: without a separator the string itself, even when empty;
      otherwise the fields less the empty ones at the end. */
  function Split(s: string, c: char): seq<string> {
    if c !in s then [s] else StripTrailing(Fields(s, c))
  }

  /** TextUtils.join with a one-character delimiter. */
  function Join(c: char, fs: seq<string>): string {
    if fs == [] then "" else if |fs| == 1 then fs[0] else fs[0] + [c] + Join(c, fs[1..])
  }

  ghost predicate Free(c: char, fs: seq<string>) {
    forall f :: f in fs ==> c !in f
  }

  lemma {:induction false} FirstField(f: string, c: char, rest: string)
    requires c !in f
    ensures IndexOf(f + [c] + rest, c) == |f|
  {
    if f != "" {
      FirstField(f[1..], c, rest);
      assert (f + [c] + rest)[1..] == f[1..] + [c] + rest;
    }
  }

  lemma {:induction false} FieldsOfJoin(c: char, fs: seq<string>)
    requires fs != [] && Free(c, fs)
    ensures Fields(Join(c, fs), c) == fs
  {
    if |fs| > 1 {
      var rest := Join(c, fs[1..]);
      var s := fs[0] + [c] + rest;
      FieldsOfJoin(c, fs[1..]);
      FirstField(fs[0], c, rest);
      assert s[|fs[0]|] == c;
      assert s[..|fs[0]|] == fs[0] && s[|fs[0]| + 1..] == rest;
    }
  }

  /** Joining and splitting give the list back when no element is empty or holds the separator. */
  lemma SplitOfJoin(c: char, fs: seq<string>)
    requires fs != [] && Free(c, fs) && fs[|fs| - 1] != ""
    ensures Split(Join(c, fs), c) == fs
  {
    FieldsOfJoin(c, fs);
    if c !in Join(c, fs) {
      assert Fields(Join(c, fs), c) == [Join(c, fs)];
    }
  }

  lemma {:induction false} FieldsFree(s: string, c: char)
    ensures Free(c, Fields(s, c))
    decreases |s|
  {
    if c in s {
      FieldsFree(s[IndexOf(s, c) + 1..], c);
    }
  }

  lemma {:induction false} StripPrefix(fs: seq<string>)
    ensures StripTrailing(fs) <= fs
  {
    if fs != [] && fs[|fs| - 1] == "" {
      StripPrefix(fs[..|fs| - 1]);
    }
  }

  lemma SplitFree(s: string, c: char)
    ensures Free(c, Split(s, c))
  {
    FieldsFree(s, c);
    StripPrefix(Fields(s, c));
  }

  lemma {:induction false} StripEnds(fs: seq<string>)
    ensures var r := StripTrailing(fs); r == [] || r[|r| - 1] != ""
  {
    if fs != [] && fs[|fs| - 1] == "" {
      StripEnds(fs[..|fs| - 1]);
    }
  }

  /** What a non-empty string splits into never ends with an empty field. */
  lemma SplitEnds(s: string, c: char)
    requires s != ""
    ensures var r := Split(s, c); r == [] || r[|r| - 1] != ""
  {
    StripEnds(Fields(s, c));
  }

  lemma JoinCons(c: char, f: string, rest: seq<string>)
    requires rest != []
    ensures Join(c, [f] + rest) == f + [c] + Join(c, rest)
  {
    assert ([f] + rest)[1..] == rest;
  }

  lemma FieldsCut(s: string, c: char)
    requires c in s
    ensures var i := IndexOf(s, c); i < |s| && Fields(s, c) == [s[..i]] + Fields(s[i + 1..], c)
  {
    hide IndexOf;
  }

  lemma FieldsCons(s: string, c: char)
    requires c in s
    ensures var i := IndexOf(s, c);
            i < |s| && Join(c, Fields(s, c)) == s[..i] + [c] + Join(c, Fields(s[i + 1..], c))
  {
    hide *;
    var i := IndexOf(s, c);
    FieldsCut(s, c);
    JoinCons(c, s[..i], Fields(s[i + 1..], c));
  }

  lemma CutAt(s: string, c: char)
    requires c in s
    ensures var i := IndexOf(s, c); s[..i] + [c] + s[i + 1..] == s
  {
    hide IndexOf;
  }

  lemma JoinOfOne(s: string, c: char)
    requires c !in s
    ensures Join(c, Fields(s, c)) == s
  {
  }

  lemma {:induction false} JoinOfFields(s: string, c: char)
    ensures Join(c, Fields(s, c)) == s
    decreases |s|
  {
    hide *;
    if c in s {
      CutAt(s, c);
      FieldsCons(s, c);
      JoinOfFields(s[IndexOf(s, c) + 1..], c);
    } else {
      JoinOfOne(s, c);
    }
  }

  lemma {:induction false} StripOnlyEmpty(fs: seq<string>)
    ensures forall i :: |StripTrailing(fs)| <= i < |fs| ==> fs[i] == ""
  {
    if fs != [] && fs[|fs| - 1] == "" {
      StripOnlyEmpty(fs[..|fs| - 1]);
    }
  }

  function Empties(n: nat): seq<string> {
    seq(n, _ => "")
  }

  /** Every string is its split joined again, up to empty fields at the end. */
  lemma JoinOfSplit(s: string, c: char) returns (n: nat)
    ensures Join(c, Split(s, c) + Empties(n)) == s
  {
    var fs, r := Fields(s, c), Split(s, c);
    JoinOfFields(s, c);
    StripPrefix(fs);
    StripOnlyEmpty(fs);
    n := |fs| - |r|;
    assert fs == r + Empties(n);
  }
}
