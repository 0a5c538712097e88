/** The string operations the envelope and the middleware apply to the
    Authorization header: `startsWith`, and `split` on a one-character
    separator followed by indexing into the resulting array. */
module Strings {
  import opened Js

  /** `s.startsWith(prefix)`: case-sensitive, every character of `prefix` included. */
  predicate StartsWith(s: string, prefix: string)
    ensures StartsWith(s, prefix) <==> exists rest :: s == prefix + rest
  {
    assert |prefix| <= |s| && s[..|prefix|] == prefix ==> s == prefix + s[|prefix|..];
    |prefix| <= |s| && s[..|prefix|] == prefix
  }

  /** The position of the first `c` in `s`, or `|s|` when `s` holds none
      (JavaScript's `indexOf`, with -1 read as `|s|`). */
  function IndexOf(s: string, c: char): (i: nat)
    ensures i <= |s|
    ensures i < |s| ==> s[i] == c
    ensures forall j :: 0 <= j < i ==> s[j] != c
  {
    if s == [] then 0
    else if s[0] == c then 0
    else 1 + IndexOf(s[1..], c)
  }

  /** `s.split(sep)` for a one-character separator: the pieces between
      consecutive separators. There is always at least one piece, and two
      adjacent separators give an empty piece. */
  function Split(s: string, sep: char): (parts: seq<string>)
    ensures |parts| >= 1
    decreases |s|
  {
    var i := IndexOf(s, sep);
    if i == |s| then [s] else [s[..i]] + Split(s[i + 1..], sep)
  }

  /** `parts.join(sep)`: the partner of Split. */
  function Join(parts: seq<string>, sep: char): string
  {
    if |parts| == 0 then ""
    else if |parts| == 1 then parts[0]
    else parts[0] + [sep] + Join(parts[1..], sep)
  }

  /** `parts[k]` on a JavaScript array: `undefined` past the end. */
  function Element(parts: seq<string>, k: nat): Option<string>
  {
    if k < |parts| then Some(parts[k]) else None
  }

  /** Join of one more leading piece: the piece, the separator, then the rest. */
  lemma JoinCons(head: string, rest: seq<string>, sep: char)
    requires |rest| >= 1
    ensures Join([head] + rest, sep) == head + [sep] + Join(rest, sep)
  {
    var parts := [head] + rest;
    assert parts[0] == head && parts[1..] == rest;
  }

  /** Joining the pieces of a split with the same separator gives the string back. */
  lemma {:induction false} SplitThenJoin(s: string, sep: char)
    ensures Join(Split(s, sep), sep) == s
    decreases |s|
  {
    var i := IndexOf(s, sep);
    if i < |s| {
      var head, tail := s[..i], s[i + 1..];
      var rest := Split(tail, sep);
      assert s == head + [sep] + tail by { assert s[i] == sep; }
      calc {
        Join(Split(s, sep), sep);
        Join([head] + rest, sep);
        { JoinCons(head, rest, sep); }
        head + [sep] + Join(rest, sep);
        { SplitThenJoin(tail, sep); }
        head + [sep] + tail;
      }
    } else {
      assert Split(s, sep) == [s];
    }
  }

  /** No piece of a split contains the separator. */
  lemma {:induction false} SplitPiecesLackSeparator(s: string, sep: char)
    ensures forall k :: 0 <= k < |Split(s, sep)| ==> sep !in Split(s, sep)[k]
    decreases |s|
  {
    var i := IndexOf(s, sep);
    if i < |s| {
      SplitPiecesLackSeparator(s[i + 1..], sep);
      var parts := Split(s, sep);
      forall k | 0 <= k < |parts|
        ensures sep !in parts[k]
      {
        if k > 0 {
          assert parts[k] == Split(s[i + 1..], sep)[k - 1];
        }
      }
    }
  }

  /** Splitting a join of separator-free pieces gives the pieces back. */
  lemma {:induction false} JoinThenSplit(parts: seq<string>, sep: char)
    requires |parts| >= 1
    requires forall k :: 0 <= k < |parts| ==> sep !in parts[k]
    ensures Split(Join(parts, sep), sep) == parts
    decreases |parts|
  {
    var s := Join(parts, sep);
    if |parts| == 1 {
      assert s == parts[0];
      assert IndexOf(s, sep) == |s|;
    } else {
      var head, tail := parts[0], Join(parts[1..], sep);
      assert s == head + [sep] + tail;
      assert s[|head|] == sep;
      assert IndexOf(s, sep) == |head|;
      assert s[..|head|] == head;
      assert s[|head| + 1..] == tail;
      JoinThenSplit(parts[1..], sep);
      assert parts == [head] + parts[1..];
    }
  }

  /** `s.split(sep)[1]`: `undefined` exactly when `s` holds no separator,
      otherwise the longest separator-free run of text right after the first
      separator. */
  function SecondPiece(s: string, sep: char): (t: Option<string>)
    ensures t.None? <==> sep !in s
    ensures t.Some? ==>
      var start := IndexOf(s, sep) + 1;
      sep !in t.value && StartsWith(s[start..], t.value) &&
      (start + |t.value| == |s| || s[start + |t.value|] == sep)
  {
    SecondPieceFacts(s, sep);
    Element(Split(s, sep), 1)
  }

  /** Links `Element(Split(s, sep), 1)` to the `IndexOf` view of the text
      after the first separator, on which SecondPiece and the bearer token
      rely. */
  lemma SecondPieceFacts(s: string, sep: char)
    ensures Element(Split(s, sep), 1).None? <==> sep !in s
    ensures sep in s ==>
      var rest := s[IndexOf(s, sep) + 1..];
      Element(Split(s, sep), 1) == Some(rest[..IndexOf(rest, sep)])
  {
    var i := IndexOf(s, sep);
    if i < |s| {
      var rest := s[i + 1..];
      assert Split(s, sep) == [s[..i]] + Split(rest, sep);
      assert Split(s, sep)[1] == Split(rest, sep)[0];
      var j := IndexOf(rest, sep);
      if j < |rest| {
        assert Split(rest, sep) == [rest[..j]] + Split(rest[j + 1..], sep);
      } else {
        assert rest[..j] == rest;
      }
    }
  }

  /** Two separator-free words joined by one separator: element 1 of the
      split is the second word. */
  lemma SecondPieceOfTwoWords(w: string, t: string, sep: char)
    requires sep !in w && sep !in t
    ensures SecondPiece(w + [sep] + t, sep) == Some(t)
  {
    assert Join([w, t], sep) == w + [sep] + t;
    JoinThenSplit([w, t], sep);
  }
}
