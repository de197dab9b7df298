/** Byte strings and the search for a delimiter, shared by files and sockets. */
module Delimiters {
  import opened Wrappers

  type Byte = b: int | 0 <= b < 256

  const NEWLINE: Byte := 10
  const RETURN: Byte := 13

  /** Where the first `d` is. */
  function Find(s: seq<Byte>, d: Byte): (r: Option<nat>)
    ensures r.None? ==> d !in s
    ensures r.Some? ==> r.value < |s| && s[r.value] == d && d !in s[..r.value]
  {
    if s == [] then None
    else if s[0] == d then Some(0)
    else
      match Find(s[1..], d)
      case None => None
      case Some(at) => assert s[..at + 1] == [s[0]] + s[1..][..at]; Some(at + 1)
  }

  /** Length of the piece of `s` that ends with its first `d`; all of `s` if there is none. */
  function UpTo(s: seq<Byte>, d: Byte): (n: nat)
    ensures n <= |s|
    ensures s != [] ==> n > 0
  {
    match Find(s, d)
    case Some(at) => at + 1
    case None => |s|
  }

  lemma {:induction false} FirstIs(s: seq<Byte>, d: Byte, at: nat)
    requires at < |s| && s[at] == d && d !in s[..at]
    ensures Find(s, d) == Some(at)
  {
    if at > 0 {
      assert s[..at][0] == s[0] && s[1..][..at - 1] == s[..at][1..];
      FirstIs(s[1..], d, at - 1);
    }
  }

  /** A delimiter that has been seen stays the first one when more bytes arrive. */
  lemma FoundIsFinal(seen: seq<Byte>, more: seq<Byte>, d: Byte)
    requires Find(seen, d).Some?
    ensures UpTo(seen + more, d) == UpTo(seen, d)
  {
    var at := Find(seen, d).value;
    assert (seen + more)[..at] == seen[..at];
    FirstIs(seen + more, d, at);
  }

  /** What a scan for `d` finds in the stream `s`: nothing at its end, or the next piece of it. */
  function NextPiece(s: seq<Byte>, d: Byte): Option<seq<Byte>> {
    if s == [] then None else Some(s[..UpTo(s, d)])
  }

  /** Cutting a stream into pieces loses nothing, and only the last piece may lack its delimiter. */
  function Pieces(s: seq<Byte>, d: Byte): seq<seq<Byte>>
    decreases |s|
  {
    match NextPiece(s, d)
    case None => []
    case Some(piece) => [piece] + Pieces(s[UpTo(s, d)..], d)
  }

  function Join(pieces: seq<seq<Byte>>): seq<Byte> {
    if pieces == [] then [] else pieces[0] + Join(pieces[1..])
  }

  predicate EndsOnlyWith(piece: seq<Byte>, d: Byte) {
    piece != [] && piece[|piece| - 1] == d && d !in piece[..|piece| - 1]
  }

  /** Every piece but the last ends with the only `d` in it; the last may lack one. */
  predicate Delimited(pieces: seq<seq<Byte>>, d: Byte) {
    forall i :: 0 <= i < |pieces| ==>
      EndsOnlyWith(pieces[i], d) || (i == |pieces| - 1 && pieces[i] != [] && d !in pieces[i])
  }

  lemma PieceEnds(s: seq<Byte>, d: Byte)
    requires s != []
    ensures var n := UpTo(s, d); EndsOnlyWith(s[..n], d) || (n == |s| && d !in s)
  {
    var n := UpTo(s, d);
    assert s[..n][..n - 1] == s[..n - 1];
  }

  lemma {:induction false} PiecesAreTheStream(s: seq<Byte>, d: Byte)
    ensures Join(Pieces(s, d)) == s && Delimited(Pieces(s, d), d)
    decreases |s|
  {
    if s != [] {
      var n := UpTo(s, d);
      var rest := Pieces(s[n..], d);
      PieceEnds(s, d);
      PiecesAreTheStream(s[n..], d);
      assert s == s[..n] + s[n..];
      assert Pieces(s, d) == [s[..n]] + rest;
    }
  }
}
