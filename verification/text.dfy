/** Splitting and trimming text, as strsep and strim, and str.split and str.strip, do. */
module Text {

  function IndexOf(s: string, c: char): (i: nat)
    ensures i <= |s| && (i < |s| ==> s[i] == c) && c !in s[..i]
  {
    if s == "" || s[0] == c then 0
    else
      var i := IndexOf(s[1..], c) + 1;
      assert s[..i] == [s[0]] + s[1..][..i - 1];
      i
  }

  /** What repeated strsep gives. */
  function Pieces(s: string, c: char): (r: seq<string>)
    ensures r != []
    decreases |s|
  {
    var i := IndexOf(s, c);
    if i == |s| then [s] else [s[..i]] + Pieces(s[i + 1..], c)
  }

  function Join(parts: seq<string>, c: char): string {
    if parts == [] then "" else if |parts| == 1 then parts[0] else parts[0] + [c] + Join(parts[1..], c)
  }

  lemma {:induction false} IndexAfter(s: string, c: char, t: string)
    requires c !in s
    ensures IndexOf(s + [c] + t, c) == |s| && IndexOf(s, c) == |s|
    decreases |s|
  {
    if s != "" {
      assert s[0] in s && forall x :: x in s[1..] ==> x in s;
      IndexAfter(s[1..], c, t);
      assert (s + [c] + t)[1..] == s[1..] + [c] + t;
    }
  }

  /** Splitting what was joined gives the parts back, when none of them holds the separator. */
  lemma {:induction false} PiecesOfJoin(parts: seq<string>, c: char)
    requires parts != [] && forall i :: 0 <= i < |parts| ==> c !in parts[i]
    ensures Pieces(Join(parts, c), c) == parts
    decreases |parts|
  {
    if |parts| == 1 {
      IndexAfter(parts[0], c, "");
    } else {
      var rest := Join(parts[1..], c);
      IndexAfter(parts[0], c, rest);
      PiecesOfJoin(parts[1..], c);
      var s := parts[0] + [c] + rest;
      assert s[..|parts[0]|] == parts[0] && s[|parts[0]| + 1..] == rest;
    }
  }

  predicate IsSpace(c: char) { c == ' ' || '\t' <= c <= '\r' || c == 0xa0 as char }

  /** Where what is left of s from i on begins, and where what comes before j ends, spaces aside. */
  function Begin(s: string, i: nat): (k: nat)
    requires i <= |s|
    ensures i <= k <= |s| && (k < |s| ==> !IsSpace(s[k]))
    decreases |s| - i
  {
    if i < |s| && IsSpace(s[i]) then Begin(s, i + 1) else i
  }

  function End(s: string, i: nat, j: nat): (k: nat)
    requires i <= j <= |s|
    ensures i <= k <= j && (i < k ==> !IsSpace(s[k - 1]))
    decreases j
  {
    if i < j && IsSpace(s[j - 1]) then End(s, i, j - 1) else j
  }

  /** strim. */
  function Trim(s: string): string {
    var i := Begin(s, 0);
    s[i..End(s, i, |s|)]
  }
}
