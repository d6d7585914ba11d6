/**
 * JavaScript's `String.prototype.split(" ")`: the pieces between successive single
 * spaces, so that consecutive spaces yield empty pieces and a string without a space
 * yields itself as the only piece.
 */
module JsString {
  import opened Wrappers

  /** The pieces glued back together with single spaces (`Array.prototype.join(" ")`). */
  function Join(pieces: seq<string>): string
    requires |pieces| >= 1
  {
    if |pieces| == 1 then pieces[0] else pieces[0] + " " + Join(pieces[1..])
  }

  predicate SpaceFree(s: string) {
    ' ' !in s
  }

  /** Prepending a character to the first piece prepends it to the joined string. */
  lemma JoinConsFirst(c: char, pieces: seq<string>)
    requires |pieces| >= 1
    ensures Join([[c] + pieces[0]] + pieces[1..]) == [c] + Join(pieces)
  {
  }

  /** `s.split(" ")`: at least one piece, no piece holds a space, and joining gives `s` back. */
  function Split(s: string): (pieces: seq<string>)
    ensures |pieces| >= 1
    ensures forall i | 0 <= i < |pieces| :: SpaceFree(pieces[i])
    ensures Join(pieces) == s
  {
    if s == [] then [""]
    else
      var rest := Split(s[1..]);
      if s[0] == ' ' then
        assert ([""] + rest)[1..] == rest;
        [""] + rest
      else
        JoinConsFirst(s[0], rest);
        assert [s[0]] + s[1..] == s;
        [[s[0]] + rest[0]] + rest[1..]
  }

  /** `pieces[i]`, which is `undefined` past the end of the array. */
  function Piece(pieces: seq<string>, i: nat): (r: Option<string>)
    ensures r.Some? <==> i < |pieces|
    ensures r.Some? ==> r.value == pieces[i]
  {
    if i < |pieces| then Some(pieces[i]) else None
  }

  /** A string without a space splits into itself alone. */
  lemma SplitSpaceFree(w: string)
    requires SpaceFree(w)
    ensures Split(w) == [w]
  {
  }

  /** A space-free word followed by a space is the first piece; the rest splits on its own. */
  lemma {:induction false} SplitAfterWord(w: string, rest: string)
    requires SpaceFree(w)
    ensures Split(w + " " + rest) == [w] + Split(rest)
  {
    var s := w + " " + rest;
    if w == [] {
      assert s[1..] == rest;
    } else {
      assert s[1..] == w[1..] + " " + rest;
      SplitAfterWord(w[1..], rest);
      assert [w[0]] + w[1..] == w;
    }
  }

  /** Splitting is the inverse of joining space-free pieces. */
  lemma {:induction false} SplitJoin(pieces: seq<string>)
    requires |pieces| >= 1
    requires forall i | 0 <= i < |pieces| :: SpaceFree(pieces[i])
    ensures Split(Join(pieces)) == pieces
  {
    if |pieces| == 1 {
      SplitSpaceFree(pieces[0]);
    } else {
      SplitAfterWord(pieces[0], Join(pieces[1..]));
      SplitJoin(pieces[1..]);
    }
  }
}
