/**
 * Go's `strings.Split(text, "\n\n")` and `strings.Join(verses, "\n\n")`,
 * the two string operations both lyrics paginators are built from.
 */
module Verses {

  /** The verse separator: a blank line. */
  const Separator: string := "\n\n"

  /** The separator starts at index `j` of `s`. */
  predicate SepAt(s: string, j: int)
  {
    0 <= j && j + 2 <= |s| && s[j] == '\n' && s[j + 1] == '\n'
  }

  /** `s` contains no separator. */
  predicate NoSep(s: string)
  {
    forall j :: 0 <= j < |s| ==> !SepAt(s, j)
  }

  /** The first index at or after `from` where the separator starts, or -1 (strings.Index). */
  function FindSep(s: string, from: nat): (r: int)
    requires from <= |s|
    ensures r == -1 || (from <= r && SepAt(s, r))
    ensures r == -1 ==> forall j :: from <= j ==> !SepAt(s, j)
    ensures r != -1 ==> forall j :: from <= j < r ==> !SepAt(s, j)
    decreases |s| - from
  {
    if from + 2 > |s| then -1
    else if SepAt(s, from) then from
    else FindSep(s, from + 1)
  }

  /** strings.Split with a non-empty separator: the pieces between its non-overlapping occurrences, left to right. */
  function Split(s: string): (r: seq<string>)
    ensures |r| >= 1
    ensures forall k :: 0 <= k < |r| ==> NoSep(r[k])
    decreases |s|
  {
    var i := FindSep(s, 0);
    if i == -1 then [s]
    else
      assert NoSep(s[..i]) by {
        forall j | 0 <= j < i ensures !SepAt(s[..i], j) {
          assert SepAt(s[..i], j) ==> SepAt(s, j);
        }
      }
      [s[..i]] + Split(s[i + 2..])
  }

  /**
   * Split cuts at the leftmost separator: a text without one is a single
   * piece; otherwise the first piece is the text before the first
   * separator (none starts inside it or straddles its end), and the rest
   * is the split of what follows that separator.
   */
  lemma SplitLeftmost(s: string)
    ensures NoSep(s) <==> |Split(s)| == 1
    ensures NoSep(s) ==> Split(s)[0] == s
    ensures !NoSep(s) ==> var n := |Split(s)[0]|;
      && n + 2 <= |s| && s[..n] == Split(s)[0] && SepAt(s, n)
      && (forall j :: 0 <= j < n ==> !SepAt(s, j))
      && Split(s)[1..] == Split(s[n + 2..])
  {
    var i := FindSep(s, 0);
    if i == -1 {
      assert NoSep(s);
    } else {
      assert !NoSep(s) by { assert SepAt(s, i); }
      assert Split(s) == [s[..i]] + Split(s[i + 2..]);
    }
  }

  /** Four newlines hold two overlapping separators; the leftmost cut gives three empty verses. */
  lemma SplitFourNewlines()
    ensures Split("\n\n\n\n") == ["", "", ""]
  {
    assert FindSep("\n\n\n\n", 0) == 0;
    assert "\n\n\n\n"[2..] == "\n\n";
    assert FindSep("\n\n", 0) == 0;
    assert "\n\n"[2..] == "";
  }

  /** strings.Join: the pieces with the separator between consecutive ones. */
  function Join(vs: seq<string>): string
  {
    if vs == [] then ""
    else if |vs| == 1 then vs[0]
    else vs[0] + Separator + Join(vs[1..])
  }

  /** Joining the pieces of a split gives back the text. */
  lemma {:induction false} JoinSplit(s: string)
    ensures Join(Split(s)) == s
    decreases |s|
  {
    var i := FindSep(s, 0);
    if i != -1 {
      var rest := s[i + 2..];
      JoinSplit(rest);
      assert Split(s) == [s[..i]] + Split(rest);
      assert s == s[..i] + Separator + rest;
    }
  }

  /** A text with no blank line is a single verse. */
  lemma SplitNoSep(s: string)
    requires NoSep(s)
    ensures Split(s) == [s]
  {
  }
}
