/** Splitting a string at every occurrence of a character, empty pieces included. */
module Splitting {

  function SplitOn(s: string, c: char): (r: seq<string>)
    ensures r != []
  {
    if s == "" then [""]
    else if s[0] == c then [""] + SplitOn(s[1..], c)
    else
      var rest := SplitOn(s[1..], c);
      [[s[0]] + rest[0]] + rest[1..]
  }

  lemma {:induction false} SplitWhole(s: string, c: char)
    requires c !in s
    ensures SplitOn(s, c) == [s]
  {
    if s != "" {
      SplitWhole(s[1..], c);
      assert s == [s[0]] + s[1..];
    }
  }

  lemma {:induction false} SplitFirst(head: string, c: char, rest: string)
    requires c !in head
    ensures SplitOn(head + [c] + rest, c) == [head] + SplitOn(rest, c)
  {
    var s := head + [c] + rest;
    if head == "" {
      assert s[1..] == rest;
    } else {
      SplitFirst(head[1..], c, rest);
      assert s[1..] == head[1..] + [c] + rest;
      assert head == [head[0]] + head[1..];
    }
  }

  /** A stretch without the separator, between separators or the ends. */
  predicate IsPiece(s: string, c: char, i: nat, j: nat) {
    i <= j <= |s| && c !in s[i..j] && (i == 0 || s[i - 1] == c) && (j == |s| || s[j] == c)
  }

  predicate PieceAt(s: string, c: char, i: nat, j: nat, p: string) {
    IsPiece(s, c, i, j) && s[i..j] == p
  }

  ghost predicate HasPiece(s: string, c: char, p: string) {
    exists i: nat, j: nat :: PieceAt(s, c, i, j, p)
  }

  /** The pieces are exactly those stretches. */
  lemma {:induction false} PiecesAreStretches(s: string, c: char, p: string)
    ensures p in SplitOn(s, c) <==> HasPiece(s, c, p)
    decreases |s|
  {
    if c !in s {
      SplitWhole(s, c);
      assert IsPiece(s, c, 0, |s|) && s[0..|s|] == s;
      assert p == s ==> PieceAt(s, c, 0, |s|, p);
    } else {
      var k := FirstOccurrence(s, c);
      var head, rest := s[..k], s[k + 1..];
      assert s == head + [c] + rest;
      SplitFirst(head, c, rest);
      PiecesAreStretches(rest, c, p);
      FirstOrLater(s, c, k, p);
    }
  }

  function FirstOccurrence(s: string, c: char): (k: nat)
    requires c in s
    ensures k < |s| && s[k] == c && c !in s[..k]
  {
    if s[0] == c then 0 else 1 + FirstOccurrence(s[1..], c)
  }

  lemma FirstOrLater(s: string, c: char, k: nat, p: string)
    requires k < |s| && s[k] == c && c !in s[..k]
    ensures HasPiece(s, c, p) <==> p == s[..k] || HasPiece(s[k + 1..], c, p)
  {
    var rest := s[k + 1..];
    if i: nat, j: nat :| PieceAt(s, c, i, j, p) {
      if i == 0 {
        FirstPieceEnds(s, c, k, j);
      } else {
        Shifted(s, c, k, i - k - 1, j - k - 1);
        assert PieceAt(rest, c, i - k - 1, j - k - 1, p);
      }
    }
    if p == s[..k] {
      assert PieceAt(s, c, 0, k, p);
    }
    if i: nat, j: nat :| PieceAt(rest, c, i, j, p) {
      Shifted(s, c, k, i, j);
      assert PieceAt(s, c, i + k + 1, j + k + 1, p);
    }
  }

  lemma FirstPieceEnds(s: string, c: char, k: nat, j: nat)
    requires k < |s| && s[k] == c && c !in s[..k] && IsPiece(s, c, 0, j)
    ensures j == k
  {
    assert forall m :: 0 <= m < j ==> s[m] == s[0..j][m];
    assert forall m :: 0 <= m < k ==> s[m] == s[..k][m];
  }

  lemma Shifted(s: string, c: char, k: nat, i: nat, j: nat)
    requires k < |s| && s[k] == c && c !in s[..k] && k + 1 + j <= |s|
    ensures IsPiece(s, c, i + k + 1, j + k + 1) <==> IsPiece(s[k + 1..], c, i, j)
    ensures i <= j ==> s[i + k + 1..j + k + 1] == s[k + 1..][i..j]
  {
    if i <= j {
      assert s[i + k + 1..j + k + 1] == s[k + 1..][i..j];
    }
  }
}
