/** Cutting the argument list of a textual tool call at its commas, except those inside quotes or
    behind a backslash. */
module ArgumentSplitter {
  import opened JsText

  /** What the characters read so far leave open. */
  datatype Mode = Mode(quote: Option<char>, escaped: bool)

  const PLAIN := Mode(None, false)

  function After(m: Mode, c: char): Mode {
    if m.escaped then m.(escaped := false)
    else if c == '\\' then m.(escaped := true)
    else if m.quote.Some? then (if c == m.quote.value then m.(quote := None) else m)
    else if c == '"' || c == '\'' then m.(quote := Some(c))
    else m
  }

  predicate Separates(m: Mode, c: char) {
    m == PLAIN && c == ','
  }

  function ModeAfter(m: Mode, s: string): Mode
    decreases |s|
  {
    if s == [] then m else ModeAfter(After(m, s[0]), s[1..])
  }

  predicate Uncut(m: Mode, s: string)
    decreases |s|
  {
    s == [] || (!Separates(m, s[0]) && Uncut(After(m, s[0]), s[1..]))
  }

  /** The text between separating commas; the last piece is what follows the last of them. */
  function Pieces(m: Mode, s: string): (r: seq<string>)
    ensures |r| > 0
    decreases |s|
  {
    if s == [] then [""]
    else
      var rest := Pieces(After(m, s[0]), s[1..]);
      if Separates(m, s[0]) then [""] + rest else [[s[0]] + rest[0]] + rest[1..]
  }

  function Tail(s: string): string {
    var pieces := Pieces(PLAIN, s);
    pieces[|pieces| - 1]
  }

  /** A blank last piece is dropped. */
  function Arguments(s: string): seq<string> {
    var pieces := Pieces(PLAIN, s);
    if Blank(Tail(s)) then pieces[..|pieces| - 1] else pieces
  }

  /** The pieces of a text of which `parts` and `current` were read and `rest` is still to come. */
  function Resumed(parts: seq<string>, current: string, m: Mode, rest: string): seq<string> {
    parts + [current + Pieces(m, rest)[0]] + Pieces(m, rest)[1..]
  }

  lemma ReadOne(parts: seq<string>, current: string, m: Mode, s: string)
    requires s != []
    ensures Resumed(parts, current, m, s) ==
            if Separates(m, s[0]) then Resumed(parts + [current], "", After(m, s[0]), s[1..])
            else Resumed(parts, current + [s[0]], After(m, s[0]), s[1..])
  {
    var rest := Pieces(After(m, s[0]), s[1..]);
    if Separates(m, s[0]) {
      assert "" + rest[0] == rest[0];
      assert Pieces(m, s)[1..] == rest;
      assert rest == ["" + rest[0]] + rest[1..];
      assert current + "" == current;
    } else {
      assert Pieces(m, s)[1..] == rest[1..];
      assert current + ([s[0]] + rest[0]) == current + [s[0]] + rest[0];
    }
  }

  lemma ReadNone(m: Mode, s: string)
    ensures Resumed([], "", m, s) == Pieces(m, s)
  {
    assert "" + Pieces(m, s)[0] == Pieces(m, s)[0];
  }

  lemma ReadAll(parts: seq<string>, current: string, m: Mode)
    ensures Resumed(parts, current, m, []) == parts + [current]
  {
    assert current + "" == current;
  }

  method SplitCodeArguments(input: string) returns (parts: seq<string>)
    ensures parts == Arguments(input)
  {
    parts := [];
    var current := "";
    var quote: Option<char> := None;
    var escaped := false;
    assert input[0..] == input;
    ReadNone(PLAIN, input);
    for i := 0 to |input|
      invariant Pieces(PLAIN, input) == Resumed(parts, current, Mode(quote, escaped), input[i..])
    {
      var c := input[i];
      ReadOne(parts, current, Mode(quote, escaped), input[i..]);
      assert input[i..][1..] == input[i + 1..];
      if escaped {
        current := current + [c];
        escaped := false;
        continue;
      }
      if c == '\\' {
        current := current + [c];
        escaped := true;
        continue;
      }
      if quote.Some? {
        current := current + [c];
        if c == quote.value {
          quote := None;
        }
        continue;
      }
      if c == '"' || c == '\'' {
        current := current + [c];
        quote := Some(c);
        continue;
      }
      if c == ',' {
        parts := parts + [current];
        current := "";
        continue;
      }
      current := current + [c];
    }
    ReadAll(parts, current, Mode(quote, escaped));
    assert (parts + [current])[..|parts|] == parts;
    if !Blank(current) {
      parts := parts + [current];
    }
  }

  // ----- joining back --------------------------------------------------------------------

  lemma {:induction false} PiecesRebuild(m: Mode, s: string)
    ensures Join(Pieces(m, s), ",") == s
    decreases |s|
  {
    if s != [] {
      PiecesRebuild(After(m, s[0]), s[1..]);
      var rest := Pieces(After(m, s[0]), s[1..]);
      if Separates(m, s[0]) {
        assert ([""] + rest)[1..] == rest;
        assert s == "," + s[1..];
      } else {
        assert Pieces(m, s)[1..] == rest[1..];
        assert s == [s[0]] + s[1..];
        if |rest| > 1 {
          assert [s[0]] + (rest[0] + "," + Join(rest[1..], ",")) == [s[0]] + rest[0] + "," + Join(rest[1..], ",");
        }
      }
    }
  }

  lemma {:induction false} JoinLength(parts: seq<string>, last: string)
    ensures |Join(parts + [last], ",")| == |Join(parts, ",")| + |last| + (if parts == [] then 0 else 1)
    decreases |parts|
  {
    if parts == [] {
      assert parts + [last] == [last];
    } else {
      assert (parts + [last])[1..] == parts[1..] + [last];
      JoinLength(parts[1..], last);
    }
  }

  /** Joining the arguments with commas gives the input back exactly when the text after its last
      separating comma is not blank (or there is no text at all). */
  lemma JoinArguments(s: string)
    ensures Join(Arguments(s), ",") == s <==> (s == "" || !Blank(Tail(s)))
  {
    var pieces := Pieces(PLAIN, s);
    PiecesRebuild(PLAIN, s);
    var front := pieces[..|pieces| - 1];
    assert pieces == front + [Tail(s)];
    JoinLength(front, Tail(s));
  }

  // ----- splitting what was joined -------------------------------------------------------

  /** Parts that lie between separating commas when joined, the first of them read in mode `m`. */
  predicate Separable(m: Mode, parts: seq<string>)
    requires |parts| > 0
    decreases |parts|
  {
    Uncut(m, parts[0]) &&
    (|parts| > 1 ==> ModeAfter(m, parts[0]) == PLAIN && Separable(PLAIN, parts[1..]))
  }

  /** Every part but the last ends outside quotes and escapes, no part holds a separating comma, and
      the last is not blank. */
  predicate WellFormed(parts: seq<string>) {
    parts == [] || (Separable(PLAIN, parts) && !Blank(parts[|parts| - 1]))
  }

  lemma {:induction false} PiecesAreSeparable(m: Mode, s: string)
    ensures Separable(m, Pieces(m, s))
    decreases |s|
  {
    if s != [] {
      var rest := Pieces(After(m, s[0]), s[1..]);
      PiecesAreSeparable(After(m, s[0]), s[1..]);
      if Separates(m, s[0]) {
        assert Pieces(m, s)[1..] == rest;
      } else {
        assert Pieces(m, s)[1..] == rest[1..];
        assert Pieces(m, s)[0][1..] == rest[0];
      }
    }
  }

  lemma {:induction false} PiecesOfJoin(m: Mode, parts: seq<string>)
    requires |parts| > 0 && Separable(m, parts)
    ensures Pieces(m, Join(parts, ",")) == parts
    decreases |parts|, |parts[0]|
  {
    var s := Join(parts, ",");
    if parts[0] == [] {
      if |parts| > 1 {
        assert s == "," + Join(parts[1..], ",");
        assert s[1..] == Join(parts[1..], ",");
        PiecesOfJoin(PLAIN, parts[1..]);
        assert parts == [""] + parts[1..];
      } else {
        assert parts == [""];
      }
    } else {
      var c := parts[0][0];
      var shorter := [parts[0][1..]] + parts[1..];
      assert shorter[1..] == parts[1..];
      assert s[0] == c && s[1..] == Join(shorter, ",");
      assert !Separates(m, c);
      PiecesOfJoin(After(m, c), shorter);
      assert parts[0] == [c] + shorter[0];
      assert parts == [parts[0]] + shorter[1..];
    }
  }

  /** Splitting the comma-join of a list gives the list back exactly when the list is well formed. */
  lemma ArgumentsOfJoin(parts: seq<string>)
    ensures Arguments(Join(parts, ",")) == parts <==> WellFormed(parts)
  {
    if WellFormed(parts) && parts != [] {
      PiecesOfJoin(PLAIN, parts);
    }
    if Arguments(Join(parts, ",")) == parts && parts != [] {
      ArgumentsAreWellFormed(Join(parts, ","));
    }
  }

  lemma ArgumentsAreWellFormed(s: string)
    requires Join(Arguments(s), ",") == s && Arguments(s) != []
    ensures WellFormed(Arguments(s))
  {
    JoinArguments(s);
    PiecesAreSeparable(PLAIN, s);
  }

  // ----- arguments as they are written ---------------------------------------------------

  /** Text in single or double quotes, without that quote or a backslash inside. */
  predicate Quoted(part: string) {
    && |part| >= 2 && (part[0] == '"' || part[0] == '\'') && part[|part| - 1] == part[0]
    && forall i | 0 < i < |part| - 1 :: part[i] != part[0] && part[i] != '\\'
  }

  /** Text without quotes, backslashes and commas. */
  predicate Bare(part: string) {
    forall i | 0 <= i < |part| :: part[i] != '"' && part[i] != '\'' && part[i] != '\\' && part[i] != ','
  }

  /** Any character behind a backslash. */
  predicate Escaped(part: string) {
    |part| == 2 && part[0] == '\\'
  }

  lemma {:induction false} QuotedRest(q: char, rest: string)
    requires (q == '"' || q == '\'') && rest != [] && rest[|rest| - 1] == q
    requires forall i | 0 <= i < |rest| - 1 :: rest[i] != q && rest[i] != '\\'
    ensures Uncut(Mode(Some(q), false), rest) && ModeAfter(Mode(Some(q), false), rest) == PLAIN
  {
    if |rest| > 1 {
      QuotedRest(q, rest[1..]);
    } else {
      assert rest[1..] == [];
    }
  }

  lemma {:induction false} BareIsUncut(part: string)
    requires Bare(part)
    ensures Uncut(PLAIN, part) && ModeAfter(PLAIN, part) == PLAIN
  {
    if part != [] { BareIsUncut(part[1..]); }
  }

  lemma ArgumentIsUncut(part: string)
    requires Quoted(part) || Bare(part) || Escaped(part)
    ensures Uncut(PLAIN, part) && ModeAfter(PLAIN, part) == PLAIN
  {
    if Bare(part) {
      BareIsUncut(part);
    } else if Quoted(part) {
      assert forall i | 0 <= i < |part[1..]| :: part[1..][i] == part[i + 1];
      QuotedRest(part[0], part[1..]);
    } else {
      assert part[1..][1..] == [];
      assert ModeAfter(Mode(None, true), part[1..]) == ModeAfter(PLAIN, []) == PLAIN;
    }
  }

  lemma {:induction false} ArgumentsAreSeparable(parts: seq<string>)
    requires |parts| > 0 && forall k | 0 <= k < |parts| :: Quoted(parts[k]) || Bare(parts[k]) || Escaped(parts[k])
    ensures Separable(PLAIN, parts)
  {
    ArgumentIsUncut(parts[0]);
    if |parts| > 1 { ArgumentsAreSeparable(parts[1..]); }
  }

  /** Commas cut between arguments, and neither inside quotes of either kind nor behind a backslash. */
  lemma WrittenArguments(parts: seq<string>)
    requires |parts| > 0 && forall k | 0 <= k < |parts| :: Quoted(parts[k]) || Bare(parts[k]) || Escaped(parts[k])
    requires !Blank(parts[|parts| - 1])
    ensures Arguments(Join(parts, ",")) == parts
  {
    ArgumentsAreSeparable(parts);
    ArgumentsOfJoin(parts);
  }
}
