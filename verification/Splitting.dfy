/** Text cut at every place of a separator, and put together again. */
module Splitting {

  /** The first place of `c` from `k` on, the end when there is none. */
  function FindFrom(s: string, c: char, k: nat): (i: nat)
    requires k <= |s|
    ensures k <= i <= |s| && (i < |s| ==> s[i] == c)
    ensures forall j :: k <= j < i ==> s[j] != c
    decreases |s| - k
  {
    if k == |s| || s[k] == c then k else FindFrom(s, c, k + 1)
  }

  function Find(s: string, c: char): nat {
    FindFrom(s, c, 0)
  }

  /** Every part that a separator ends. */
  function Pieces(s: string, c: char): (fields: seq<string>)
    decreases |s|
  {
    var i := Find(s, c);
    if i == |s| then [] else [s[..i]] + Pieces(s[i + 1..], c)
  }

  function Glue(fields: seq<string>, c: char): string {
    if fields == [] then "" else fields[0] + [c] + Glue(fields[1..], c)
  }

  ghost predicate Free(fields: seq<string>, c: char) {
    forall f :: f in fields ==> c !in f
  }

  lemma FindFirst(head: string, c: char, tail: string)
    requires c !in head
    ensures Find(head + [c] + tail, c) == |head|
  {
    var s := head + [c] + tail;
    assert s[|head|] == c;
    assert forall j :: 0 <= j < |head| ==> s[j] == head[j];
  }

  lemma {:induction false} PiecesOfGlue(fields: seq<string>, tail: string, c: char)
    requires Free(fields, c) && c !in tail
    ensures Pieces(Glue(fields, c) + tail, c) == fields
  {
    if fields == [] {
      assert Glue(fields, c) + tail == tail;
    } else {
      var first, rest := fields[0], Glue(fields[1..], c) + tail;
      assert Glue(fields, c) + tail == first + [c] + rest;
      FindFirst(first, c, rest);
      assert (first + [c] + rest)[..|first|] == first;
      assert (first + [c] + rest)[|first| + 1..] == rest;
      PiecesOfGlue(fields[1..], tail, c);
    }
  }

  /** The part after the last separator. */
  function Tail(s: string, c: char): (tail: string)
    ensures c !in tail
    decreases |s|
  {
    var i := Find(s, c);
    if i == |s| then s else Tail(s[i + 1..], c)
  }

  lemma GlueFirst(first: string, fields: seq<string>, c: char)
    ensures Glue([first] + fields, c) == first + [c] + Glue(fields, c)
  {
    assert ([first] + fields)[1..] == fields;
  }

  lemma PiecesFirst(s: string, i: nat, c: char)
    requires i == Find(s, c)
    ensures i == |s| ==> Pieces(s, c) == []
    ensures i < |s| ==> Pieces(s, c) == [s[..i]] + Pieces(s[i + 1..], c)
  {
  }

  lemma CutAt(s: string, i: nat, fields: seq<string>, tail: string, c: char)
    requires i < |s| && s[i] == c && s[i + 1..] == Glue(fields, c) + tail
    ensures s == Glue([s[..i]] + fields, c) + tail
  {
    GlueFirst(s[..i], fields, c);
    assert s == s[..i] + [c] + s[i + 1..];
  }

  lemma {:induction false} GlueOfPieces(s: string, c: char)
    ensures s == Glue(Pieces(s, c), c) + Tail(s, c)
    decreases |s|
  {
    var i := Find(s, c);
    PiecesFirst(s, i, c);
    if i == |s| {
      assert Glue([], c) == "";
    } else {
      GlueOfPieces(s[i + 1..], c);
      CutAt(s, i, Pieces(s[i + 1..], c), Tail(s[i + 1..], c), c);
    }
  }

  lemma {:induction false} PiecesFree(s: string, c: char)
    ensures Free(Pieces(s, c), c)
    decreases |s|
  {
    var i := Find(s, c);
    PiecesFirst(s, i, c);
    if i < |s| {
      PiecesFree(s[i + 1..], c);
    }
  }

  /** The pieces are exactly the fields without separator that, each followed by one, make up the text up to
      some rest without separator, which is dropped. */
  lemma PiecesExact(s: string, fields: seq<string>, c: char)
    ensures fields == Pieces(s, c) <==> Free(fields, c) && s == Glue(fields, c) + Tail(s, c)
  {
    GlueOfPieces(s, c);
    PiecesFree(s, c);
    if Free(fields, c) && s == Glue(fields, c) + Tail(s, c) {
      PiecesOfGlue(fields, Tail(s, c), c);
    }
  }
}
