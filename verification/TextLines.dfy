/** Texts cut at a separator: lines at line feeds, words at spaces, a header at its colon. */
module TextLines {
  import opened Prelude

  /** The pieces between the separators. */
  function Split(s: string, c: char): (pieces: seq<string>)
    ensures |pieces| > 0
  {
    if s == "" then [""]
    else
      var r := Split(s[1..], c);
      if s[0] == c then [""] + r else [[s[0]] + r[0]] + r[1..]
  }

  /** Each piece followed by the terminator. */
  function Terminated(pieces: seq<string>, c: char): string {
    if pieces == [] then "" else pieces[0] + [c] + Terminated(pieces[1..], c)
  }

  predicate Free(pieces: seq<string>, c: char) {
    forall i :: 0 <= i < |pieces| ==> c !in pieces[i]
  }

  lemma {:induction false} SplitCons(a: string, c: char, rest: string)
    requires c !in a
    ensures Split(a + [c] + rest, c) == [a] + Split(rest, c)
  {
    var s := a + [c] + rest;
    if a == "" {
      assert s[1..] == rest;
    } else {
      assert s[1..] == a[1..] + [c] + rest;
      SplitCons(a[1..], c, rest);
      assert [a[0]] + a[1..] == a;
    }
  }

  lemma TerminatedCons(a: string, pieces: seq<string>, c: char, rest: string)
    ensures Terminated([a] + pieces, c) + rest == a + [c] + (Terminated(pieces, c) + rest)
  {
    assert ([a] + pieces)[1..] == pieces;
  }

  lemma {:induction false} SplitTerminated(pieces: seq<string>, c: char, rest: string)
    requires Free(pieces, c)
    ensures Split(Terminated(pieces, c) + rest, c) == pieces + Split(rest, c)
  {
    if pieces == [] {
      assert Terminated(pieces, c) + rest == rest;
      assert pieces + Split(rest, c) == Split(rest, c);
    } else {
      var a, more := pieces[0], pieces[1..];
      assert pieces == [a] + more;
      SplitTerminated(more, c, rest);
      SplitOneMore(a, more, c, rest);
    }
  }

  lemma SplitOneMore(a: string, more: seq<string>, c: char, rest: string)
    requires c !in a && Split(Terminated(more, c) + rest, c) == more + Split(rest, c)
    ensures Split(Terminated([a] + more, c) + rest, c) == [a] + more + Split(rest, c)
  {
    TerminatedCons(a, more, c, rest);
    SplitCons(a, c, Terminated(more, c) + rest);
    ConcatAssociative([a], more, Split(rest, c));
  }

  lemma {:induction false} SplitFree(s: string, c: char)
    ensures Free(Split(s, c), c)
  {
    if s != "" {
      SplitFree(s[1..], c);
    }
  }

  /** The text of which these are the pieces: all but the last are followed by the separator. */
  function TextOf(pieces: seq<string>, c: char): string
    requires pieces != []
  {
    Terminated(pieces[..|pieces| - 1], c) + pieces[|pieces| - 1]
  }

  lemma TextOfEmptyFirst(r: seq<string>, c: char)
    requires r != []
    ensures TextOf([""] + r, c) == [c] + TextOf(r, c)
  {
    var n := |r| - 1;
    assert ([""] + r)[..n + 1] == [""] + r[..n];
    TerminatedCons("", r[..n], c, r[n]);
  }

  lemma TextOfLongerFirst(x: char, r: seq<string>, c: char)
    requires r != []
    ensures TextOf([[x] + r[0]] + r[1..], c) == [x] + TextOf(r, c)
  {
    var n := |r| - 1;
    if n > 0 {
      var rest := r[1..n];
      assert r[..n] == [r[0]] + rest;
      assert ([[x] + r[0]] + r[1..])[..n] == [[x] + r[0]] + rest;
      TerminatedCons(r[0], rest, c, r[n]);
      TerminatedCons([x] + r[0], rest, c, r[n]);
    }
  }

  /** The pieces are the text itself. */
  lemma {:induction false} SplitIsText(s: string, c: char)
    ensures TextOf(Split(s, c), c) == s
  {
    if s != "" {
      SplitIsText(s[1..], c);
      assert s == [s[0]] + s[1..];
      if s[0] == c {
        TextOfEmptyFirst(Split(s[1..], c), c);
      } else {
        TextOfLongerFirst(s[0], Split(s[1..], c), c);
      }
    }
  }

  lemma {:induction false} SplitNone(s: string, c: char)
    requires c !in s
    ensures Split(s, c) == [s]
  {
    if s != "" {
      SplitNone(s[1..], c);
      assert [s[0]] + s[1..] == s;
    }
  }

  lemma FirstsJoin(x: char, r: seq<string>, t: seq<string>)
    requires r != []
    ensures [[x] + (r + t)[0]] + (r + t)[1..] == [[x] + r[0]] + r[1..] + t
    ensures [""] + (r + t) == [""] + r + t
  {
    assert (r + t)[1..] == r[1..] + t;
  }

  lemma {:induction false} SplitBoth(a: string, c: char, rest: string)
    ensures Split(a + [c] + rest, c) == Split(a, c) + Split(rest, c)
  {
    var s := a + [c] + rest;
    if a == "" {
      assert s[1..] == rest;
    } else {
      assert s[1..] == a[1..] + [c] + rest;
      SplitBoth(a[1..], c, rest);
      FirstsJoin(a[0], Split(a[1..], c), Split(rest, c));
    }
  }

  lemma {:induction false} FirstPieceStarts(a: string, c: char, b: string)
    requires c !in a
    ensures a <= Split(a + b, c)[0]
  {
    if a != "" {
      assert (a + b)[1..] == a[1..] + b;
      FirstPieceStarts(a[1..], c, b);
      assert a == [a[0]] + a[1..];
    }
  }
}
