/**
  The few Python string operations the dump tool relies on, on `string`
  (a `seq<char>`): `sep.join(parts)`, `s.split(c)` for a one-character
  separator, `s.strip()` and the line-by-line iteration of a text file.
 */
module Text {

  /** `sep.join(parts)`. */
  function Join(sep: string, parts: seq<string>): string
  {
    if |parts| == 0 then ""
    else if |parts| == 1 then parts[0]
    else parts[0] + sep + Join(sep, parts[1..])
  }

  /** The concatenation of all pieces, as a file holding these writes reads back. */
  function Concat(pieces: seq<string>): string
  {
    if |pieces| == 0 then "" else pieces[0] + Concat(pieces[1..])
  }

  /** A prefix is one element shorter prefix and its last element. */
  lemma PrefixSnoc<T>(s: seq<T>, n: nat)
    requires 0 < n <= |s|
    ensures s[..n] == s[..n - 1] + [s[n - 1]]
  {
  }

  /** A sequence is its prefix followed by the rest. */
  lemma PrefixSuffix<T>(s: seq<T>, n: nat)
    requires n <= |s|
    ensures s == s[..n] + s[n..]
  {
  }

  /** A joined string holds a character only if one of its parts or the separator does. */
  lemma {:induction false} JoinAvoids(sep: string, parts: seq<string>, c: char)
    requires c !in sep
    requires forall i :: 0 <= i < |parts| ==> c !in parts[i]
    ensures c !in Join(sep, parts)
  {
    if |parts| > 1 {
      JoinAvoids(sep, parts[1..], c);
    }
  }

  // ---------------------------------------------------------------------------
  // split

  /**
    `s.split(c)`: every occurrence of `c` ends a piece, empty pieces are kept,
    so there is always at least one piece and no piece holds `c`.
   */
  function Split(s: string, c: char): (parts: seq<string>)
    ensures |parts| >= 1
    ensures forall i :: 0 <= i < |parts| ==> c !in parts[i]
    decreases |s|
  {
    if |s| == 0 then [""]
    else
      var rest := Split(s[1..], c);
      if s[0] == c then [""] + rest
      else [[s[0]] + rest[0]] + rest[1..]
  }

  /** Joining the pieces of a split with the separator gives back the string. */
  lemma {:induction false} JoinSplit(s: string, c: char)
    ensures Join([c], Split(s, c)) == s
    decreases |s|
  {
    if |s| > 0 {
      var rest := Split(s[1..], c);
      JoinSplit(s[1..], c);
      if s[0] == c {
        assert Join([c], [""] + rest) == "" + [c] + Join([c], rest);
      } else {
        var parts := [[s[0]] + rest[0]] + rest[1..];
        assert parts[1..] == rest[1..];
        if |rest| == 1 {
          assert Join([c], rest) == rest[0];
        } else {
          assert Join([c], rest) == rest[0] + [c] + Join([c], rest[1..]);
        }
      }
    }
  }

  /** Splitting a string that avoids the separator gives the string alone. */
  lemma {:induction false} SplitAvoiding(s: string, c: char)
    requires c !in s
    ensures Split(s, c) == [s]
    decreases |s|
  {
    if |s| > 0 {
      SplitAvoiding(s[1..], c);
      assert [s[0]] + s[1..] == s;
    }
  }

  /** A piece free of the separator, then the separator: the split starts with that piece. */
  lemma {:induction false} SplitAfterPiece(p: string, c: char, t: string)
    requires c !in p
    ensures Split(p + [c] + t, c) == [p] + Split(t, c)
    decreases |p|
  {
    if |p| == 0 {
      assert p + [c] + t == [c] + t;
      assert ([c] + t)[1..] == t;
    } else {
      var s := p + [c] + t;
      assert s[0] == p[0] && s[1..] == p[1..] + [c] + t;
      SplitAfterPiece(p[1..], c, t);
      assert [p[0]] + p[1..] == p;
    }
  }

  /** Splitting the join of separator-free parts gives the parts back. */
  lemma {:induction false} SplitJoin(parts: seq<string>, c: char)
    requires |parts| >= 1
    requires forall i :: 0 <= i < |parts| ==> c !in parts[i]
    ensures Split(Join([c], parts), c) == parts
  {
    if |parts| == 1 {
      SplitAvoiding(parts[0], c);
    } else {
      SplitJoin(parts[1..], c);
      SplitAfterPiece(parts[0], c, Join([c], parts[1..]));
      assert [parts[0]] + parts[1..] == parts;
    }
  }

  /**
    The first piece of a split is the longest prefix free of the separator;
    when it stops short of the end, a separator follows it and the other
    pieces are the split of what comes after that separator.
   */
  lemma {:induction false} SplitHead(s: string, c: char)
    ensures var p := Split(s, c)[0];
      && |p| <= |s| && s[..|p|] == p
      && (|p| == |s| ==> |Split(s, c)| == 1)
      && (|p| < |s| ==> s[|p|] == c && Split(s, c)[1..] == Split(s[|p| + 1..], c))
    decreases |s|
  {
    if |s| > 0 {
      SplitHead(s[1..], c);
      if s[0] != c {
        var rest := Split(s[1..], c);
        if |rest[0]| < |s| - 1 {
          assert s[1..][|rest[0]| + 1..] == s[|rest[0]| + 2..];
        }
      }
    }
  }

  // ---------------------------------------------------------------------------
  // strip

  /** The characters Python's `str.strip()` removes from byte strings. */
  predicate IsSpace(ch: char)
  {
    ch == ' ' || ch == '\t' || ch == '\n' || ch == '\r' || ch == '\U{000B}' || ch == '\U{000C}'
  }

  predicate AllSpace(s: string)
  {
    forall k :: 0 <= k < |s| ==> IsSpace(s[k])
  }

  /** The length of the whitespace run that starts `s`. */
  function LeadingSpace(s: string): (n: nat)
    ensures n <= |s| && AllSpace(s[..n])
    ensures n < |s| ==> !IsSpace(s[n])
  {
    if |s| == 0 || !IsSpace(s[0]) then 0
    else
      var m := LeadingSpace(s[1..]);
      assert s[..m + 1] == [s[0]] + s[1..][..m];
      m + 1
  }

  /** The length of the whitespace run that ends `s`. */
  function TrailingSpace(s: string): (n: nat)
    ensures n <= |s| && AllSpace(s[|s| - n..])
    ensures n < |s| ==> !IsSpace(s[|s| - 1 - n])
  {
    if |s| == 0 || !IsSpace(s[|s| - 1]) then 0
    else
      var m := TrailingSpace(s[..|s| - 1]);
      assert s[|s| - (m + 1)..] == s[..|s| - 1][|s| - 1 - m..] + [s[|s| - 1]];
      m + 1
  }

  /**
    `s.strip()`: `s` is whitespace, then the result, then whitespace, and
    the result neither starts nor ends with whitespace.
   */
  function Strip(s: string): (r: string)
    ensures var i := LeadingSpace(s);
      && i + |r| <= |s| && s[i..i + |r|] == r
      && AllSpace(s[..i]) && AllSpace(s[i + |r|..])
    ensures r == [] || (!IsSpace(r[0]) && !IsSpace(r[|r| - 1]))
  {
    var i := LeadingSpace(s);
    var t := s[i..];
    var n := TrailingSpace(t);
    assert s[i + (|t| - n)..] == t[|t| - n..];
    t[..|t| - n]
  }

  // ---------------------------------------------------------------------------
  // lines of a text file

  /** A complete line: ends with its only newline. */
  predicate IsLine(w: string)
  {
    |w| > 0 && w[|w| - 1] == '\n' && '\n' !in w[..|w| - 1]
  }

  /** A last line, which may lack its newline. */
  predicate IsLastLine(w: string)
  {
    |w| > 0 && '\n' !in w[..|w| - 1]
  }

  /**
    The lines `for line in f` yields for a file holding `s`: each keeps its
    newline, the last one may lack it, and together they are the file.
   */
  function Lines(s: string): (ls: seq<string>)
    ensures Concat(ls) == s
    ensures forall i :: 0 <= i < |ls| - 1 ==> IsLine(ls[i])
    ensures |ls| > 0 ==> IsLastLine(ls[|ls| - 1])
    decreases |s|
  {
    if |s| == 0 then []
    else
      var rest := Lines(s[1..]);
      if s[0] == '\n' then
        assert s == "\n" + s[1..];
        ["\n"] + rest
      else if |rest| == 0 then
        [[s[0]]]
      else
        var first := [s[0]] + rest[0];
        assert first[..|first| - 1] == [s[0]] + rest[0][..|rest[0]| - 1];
        assert ([first] + rest[1..])[1..] == rest[1..];
        [first] + rest[1..]
  }

  /** Reading back a complete line followed by more text yields that line first. */
  lemma {:induction false} LinesAfterLine(w: string, t: string)
    requires IsLine(w)
    ensures Lines(w + t) == [w] + Lines(t)
    decreases |w|
  {
    if |w| == 1 {
      assert w == "\n";
      assert (w + t)[1..] == t;
    } else {
      var w' := w[1..];
      assert w'[..|w'| - 1] == w[..|w| - 1][1..];
      assert w[0] != '\n' by { assert w[0] == w[..|w| - 1][0]; }
      LinesAfterLine(w', t);
      assert (w + t)[1..] == w' + t;
      assert [w[0]] + w' == w;
    }
  }

  /** A file written as complete lines reads back as exactly those lines. */
  lemma {:induction false} LinesOfConcat(ws: seq<string>)
    requires forall i :: 0 <= i < |ws| ==> IsLine(ws[i])
    ensures Lines(Concat(ws)) == ws
  {
    if |ws| > 0 {
      LinesOfConcat(ws[1..]);
      LinesAfterLine(ws[0], Concat(ws[1..]));
      assert [ws[0]] + ws[1..] == ws;
    }
  }
}
