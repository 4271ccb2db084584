/** The reasoning text of a stream, put together from deltas, and from summaries that may repeat
    what is there. */
module ReasoningText {
  import opened JsText

  predicate EndsWith(s: string, t: string) {
    |t| <= |s| && s[|s| - |t|..] == t
  }

  function Appended(current: string, summary: string): string {
    if summary == "" || EndsWith(current, summary) then current
    else if current <= summary then summary
    else current + summary
  }

  /** A reasoning delta is added as it is; any other piece of reasoning is appended. */
  datatype Piece = Delta(text: string) | Summary(text: string)

  function Taken(current: string, piece: Piece): string {
    if piece.Delta? then current + piece.text else Appended(current, piece.text)
  }

  function AllTaken(current: string, pieces: seq<Piece>): string
    decreases |pieces|
  {
    if pieces == [] then current else AllTaken(Taken(current, pieces[0]), pieces[1..])
  }

  lemma PrefixOfPrefix(a: string, b: string, c: string)
    requires a <= b && b <= c
    ensures a <= c
  {
    assert c[..|a|] == c[..|b|][..|a|] == b[..|a|];
  }

  /** What was reported stays: later pieces only extend it. */
  lemma {:induction false} ReasoningOnlyGrows(current: string, pieces: seq<Piece>)
    ensures current <= AllTaken(current, pieces)
    decreases |pieces|
  {
    if pieces != [] {
      var next := Taken(current, pieces[0]);
      ReasoningOnlyGrows(next, pieces[1..]);
      PrefixOfPrefix(current, next, AllTaken(current, pieces));
    }
  }

  /** A summary that comes again adds nothing. */
  lemma RepeatedSummary(current: string, summary: string)
    ensures EndsWith(Appended(current, summary), summary)
    ensures Appended(Appended(current, summary), summary) == Appended(current, summary)
  {
    var once := Appended(current, summary);
    assert (current + summary)[|current|..] == summary;
    assert summary == "" ==> once[|once|..] == summary;
  }

  // ----- pieces of one text --------------------------------------------------------------

  function Concat(pieces: seq<Piece>): string {
    if pieces == [] then "" else pieces[0].text + Concat(pieces[1..])
  }

  /** A piece that is taken for a repetition: what is there ends with it, or begins it. */
  predicate Repeats(current: string, piece: Piece) {
    piece.Summary? && piece.text != "" && current != "" && (EndsWith(current, piece.text) || current <= piece.text)
  }

  /** No piece repeats the text of those before it. */
  ghost predicate NoneRepeats(current: string, pieces: seq<Piece>) {
    forall k | 0 <= k < |pieces| :: !Repeats(current + Concat(pieces[..k]), pieces[k])
  }

  lemma OnePiece(current: string, piece: Piece)
    ensures !Repeats(current, piece) ==> Taken(current, piece) == current + piece.text
    ensures Repeats(current, piece) ==> |Taken(current, piece)| < |current| + |piece.text|
  {
    assert current + "" == current && "" + piece.text == piece.text;
  }

  lemma {:induction false} NoneRepeatsAfter(current: string, pieces: seq<Piece>)
    requires pieces != [] && !Repeats(current, pieces[0])
    ensures NoneRepeats(current, pieces) <==> NoneRepeats(current + pieces[0].text, pieces[1..])
  {
    var rest := pieces[1..];
    forall k | 0 < k < |pieces|
      ensures current + Concat(pieces[..k]) == current + pieces[0].text + Concat(rest[..k - 1])
    {
      assert pieces[..k][1..] == rest[..k - 1];
      Assoc(current, pieces[0].text, Concat(rest[..k - 1]));
    }
    assert pieces[..0] == [] && current + Concat([]) == current;
    if NoneRepeats(current, pieces) {
      forall k | 0 <= k < |rest| ensures !Repeats(current + pieces[0].text + Concat(rest[..k]), rest[k]) {
        assert pieces[k + 1] == rest[k];
      }
    }
    if NoneRepeats(current + pieces[0].text, rest) {
      forall k | 0 <= k < |pieces| ensures !Repeats(current + Concat(pieces[..k]), pieces[k]) {
        if k > 0 { assert pieces[k] == rest[k - 1]; }
      }
    }
  }

  lemma {:induction false} TakenIsNoLonger(current: string, pieces: seq<Piece>)
    ensures |AllTaken(current, pieces)| <= |current| + |Concat(pieces)|
    decreases |pieces|
  {
    if pieces != [] {
      OnePiece(current, pieces[0]);
      TakenIsNoLonger(Taken(current, pieces[0]), pieces[1..]);
    }
  }

  lemma {:induction false} PiecesAfter(current: string, pieces: seq<Piece>)
    ensures AllTaken(current, pieces) == current + Concat(pieces) <==> NoneRepeats(current, pieces)
    decreases |pieces|
  {
    if pieces == [] {
      assert current + "" == current;
    } else {
      var rest := pieces[1..];
      OnePiece(current, pieces[0]);
      if Repeats(current, pieces[0]) {
        TakenIsNoLonger(Taken(current, pieces[0]), rest);
        assert pieces[..0] == [] && current + Concat([]) == current;
      } else {
        PiecesAfter(current + pieces[0].text, rest);
        NoneRepeatsAfter(current, pieces);
        Assoc(current, pieces[0].text, Concat(rest));
      }
    }
  }

  /** However a text is cut into pieces, it comes out whole exactly when no appended piece ends, or
      is begun by, the text before it. */
  lemma CuttingIsKept(pieces: seq<Piece>)
    ensures
      AllTaken("", pieces) == Concat(pieces) <==>
      forall k | 0 <= k < |pieces| :: !Repeats(Concat(pieces[..k]), pieces[k])
  {
    PiecesAfter("", pieces);
    assert "" + Concat(pieces) == Concat(pieces);
    assert forall k | 0 <= k < |pieces| :: "" + Concat(pieces[..k]) == Concat(pieces[..k]);
  }

  /** A doubled character comes out whole in one piece, and not in two. */
  lemma CuttingMatters(c: char)
    ensures AllTaken("", [Summary([c, c])]) == [c, c] && AllTaken("", [Summary([c]), Summary([c])]) == [c]
  {
    var one, two := [Summary([c, c])], [Summary([c]), Summary([c])];
    assert one[1..] == [] && two[1..] == [Summary([c])] && two[1..][1..] == [];
    assert AllTaken("", two) == AllTaken(Taken("", two[0]), two[1..]);
    RepeatedSummary("", [c]);
  }
}
