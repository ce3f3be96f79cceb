/** Searching and splitting texts at a character. */
module Text {

  datatype Option<T> = None | Some(value: T)

  /** The last position below n at which c stands in s, or |s| if there is none. */
  function LastIndex(s: string, c: char, n: nat): (i: nat)
    requires n <= |s|
    ensures i < n || i == |s|
    ensures i < |s| ==> s[i] == c
    ensures forall j :: 0 <= j < n && (i < j || i == |s|) ==> s[j] != c
  {
    if n == 0 then |s| else if s[n - 1] == c then n - 1 else LastIndex(s, c, n - 1)
  }

  predicate Free(s: string, c: char) {
    forall i :: 0 <= i < |s| ==> s[i] != c
  }

  /** Splits at the last occurrence of c. */
  function SplitLast(s: string, c: char): Option<(string, string)> {
    var i := LastIndex(s, c, |s|);
    if i == |s| then None else Some((s[..i], s[i + 1..]))
  }

  lemma SplitLastOf(front: string, c: char, tail: string)
    requires Free(tail, c)
    ensures SplitLast(front + [c] + tail, c) == Some((front, tail))
  {
    var s := front + [c] + tail;
    assert s[|front|] == c;
    assert forall j :: |front| < j < |s| ==> s[j] == tail[j - |front| - 1];
    assert s[..|front|] == front && s[|front| + 1..] == tail;
  }

  lemma SplitLastJoins(s: string, c: char)
    requires SplitLast(s, c).Some?
    ensures var (a, b) := SplitLast(s, c).value; s == a + [c] + b && Free(b, c)
  {
  }

  /** The text p stands in s from position i on. */
  predicate OccursAt(s: string, p: string, i: nat) {
    i + |p| <= |s| && s[i..i + |p|] == p
  }

  /** The first position of c in s, or |s|. */
  function FirstIndex(s: string, c: char): (i: nat)
    ensures i <= |s| && (i < |s| ==> s[i] == c)
    ensures forall j :: 0 <= j < i ==> s[j] != c
  {
    if s == "" || s[0] == c then 0 else FirstIndex(s[1..], c) + 1
  }

  /** The pieces between the occurrences of c. */
  function Split(s: string, c: char): seq<string>
    decreases |s|
  {
    var i := FirstIndex(s, c);
    if i == |s| then [s] else [s[..i]] + Split(s[i + 1..], c)
  }

  lemma {:induction false} FirstIndexOf(front: string, c: char, tail: string)
    requires Free(front, c)
    ensures FirstIndex(front + [c] + tail, c) == |front|
    ensures FirstIndex(front, c) == |front|
  {
    var s := front + [c] + tail;
    assert s[|front|] == c;
    assert forall j :: 0 <= j < |front| ==> s[j] == front[j];
  }

  lemma SplitOne(s: string, c: char)
    requires Free(s, c)
    ensures Split(s, c) == [s]
  {
    FirstIndexOf(s, c, "");
  }

  lemma SplitMore(front: string, c: char, tail: string)
    requires Free(front, c)
    ensures Split(front + [c] + tail, c) == [front] + Split(tail, c)
  {
    var s := front + [c] + tail;
    FirstIndexOf(front, c, tail);
    assert s[..|front|] == front && s[|front| + 1..] == tail;
  }
}
