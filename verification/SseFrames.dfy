/** Splitting a decoded event stream into frames, and a frame into its data payload.
    Only a double line feed ends a frame; within a frame lines end in LF or CR LF. */
module SseFrames {
  import opened JsText

  /** `text.split("\n\n")`: the frames that are complete, and the unfinished rest as last part. */
  function SplitFrames(text: string): (parts: seq<string>)
    ensures |parts| > 0
  {
    if |text| < 2 then [text]
    else if text[0] == '\n' && text[1] == '\n' then [[]] + SplitFrames(text[2..])
    else Glued(text[0], SplitFrames(text[1..]))
  }

  function Glued(c: char, parts: seq<string>): (r: seq<string>)
    requires |parts| > 0
    ensures |r| == |parts|
  {
    [[c] + parts[0]] + parts[1..]
  }

  function Complete(text: string): seq<string> {
    var parts := SplitFrames(text);
    parts[..|parts| - 1]
  }

  function Rest(text: string): string {
    var parts := SplitFrames(text);
    parts[|parts| - 1]
  }

  function Concat(chunks: seq<string>): string {
    if chunks == [] then [] else chunks[0] + Concat(chunks[1..])
  }

  lemma {:induction false} ConcatAppend(a: seq<string>, b: seq<string>)
    ensures Concat(a + b) == Concat(a) + Concat(b)
  {
    if a == [] {
      assert a + b == b;
    } else {
      assert (a + b)[1..] == a[1..] + b;
      ConcatAppend(a[1..], b);
    }
  }

  /** The parts put back together with the terminator give the text: nothing is lost or added. */
  lemma {:induction false} FramesRebuildText(text: string)
    ensures Join(SplitFrames(text), "\n\n") == text
  {
    if |text| >= 2 {
      if text[0] == '\n' && text[1] == '\n' {
        FramesRebuildText(text[2..]);
        var rest := SplitFrames(text[2..]);
        assert ([[]] + rest)[1..] == rest;
        assert text == "\n\n" + text[2..];
      } else {
        FramesRebuildText(text[1..]);
        var rest := SplitFrames(text[1..]);
        var parts := SplitFrames(text);
        assert parts[1..] == rest[1..];
        assert text == [text[0]] + text[1..];
        if |rest| > 1 {
          assert Join(parts, "\n\n") == [text[0]] + rest[0] + "\n\n" + Join(rest[1..], "\n\n");
        }
      }
    }
  }

  /** No frame holds the terminator. */
  lemma {:induction false} FramesHoldNoTerminator(text: string, k: nat, i: nat)
    requires k < |SplitFrames(text)|
    ensures !Occurs(SplitFrames(text)[k], "\n\n", i)
  {
    if |text| >= 2 {
      if text[0] == '\n' && text[1] == '\n' {
        if k > 0 { FramesHoldNoTerminator(text[2..], k - 1, i); }
      } else {
        var rest := SplitFrames(text[1..]);
        if k > 0 {
          FramesHoldNoTerminator(text[1..], k, i);
        } else {
          FirstFrameStarts(text[1..]);
          if i > 0 { FramesHoldNoTerminator(text[1..], 0, i - 1); }
          NoTerminatorInLonger(text[0], rest[0], i);
        }
      }
    }
  }

  lemma NoTerminatorInLonger(c: char, s: string, i: nat)
    requires i > 0 ==> !Occurs(s, "\n\n", i - 1)
    requires s != [] ==> !(c == '\n' && s[0] == '\n')
    ensures !Occurs([c] + s, "\n\n", i)
  {
    var longer := [c] + s;
    if i + 2 <= |longer| {
      var part := longer[i..i + 2];
      assert part[0] == longer[i] && part[1] == longer[i + 1];
      if i > 0 { assert part == s[i - 1..i + 1]; }
    }
  }

  lemma FirstFrameStarts(text: string)
    ensures SplitFrames(text)[0] != [] ==> text != [] && SplitFrames(text)[0][0] == text[0]
  {
  }

  lemma GluedConcat(c: char, a: seq<string>, b: seq<string>)
    requires |a| > 0
    ensures Glued(c, a + b) == Glued(c, a) + b
  {
    assert (a + b)[1..] == a[1..] + b;
  }

  /** More text after `a` only extends the unfinished rest of `a`. */
  lemma {:induction false} SplitContinues(a: string, b: string)
    ensures SplitFrames(a + b) == Complete(a) + SplitFrames(Rest(a) + b)
  {
    if |SplitFrames(a)| == 1 {
      SplitWithoutTerminator(a);
      assert Complete(a) + SplitFrames(a + b) == SplitFrames(a + b);
    } else if a[0] == '\n' && a[1] == '\n' {
      SplitContinues(a[2..], b);
      assert (a + b)[2..] == a[2..] + b;
      CompleteAfterTerminator(a);
      Assoc([[]], Complete(a[2..]), SplitFrames(Rest(a) + b));
    } else {
      SplitContinues(a[1..], b);
      assert (a + b)[1..] == a[1..] + b;
      CompleteOfLonger(a);
      GluedConcat(a[0], Complete(a[1..]), SplitFrames(Rest(a) + b));
    }
  }

  lemma CompleteAfterTerminator(a: string)
    requires |a| >= 2 && a[0] == '\n' && a[1] == '\n'
    ensures Complete(a) == [[]] + Complete(a[2..]) && Rest(a) == Rest(a[2..])
  {
    var parts := SplitFrames(a[2..]);
    assert SplitFrames(a) == [[]] + parts;
  }

  lemma CompleteOfLonger(a: string)
    requires |a| >= 2 && !(a[0] == '\n' && a[1] == '\n') && |SplitFrames(a)| > 1
    ensures |Complete(a[1..])| > 0
    ensures Complete(a) == Glued(a[0], Complete(a[1..])) && Rest(a) == Rest(a[1..])
  {
    var parts := SplitFrames(a[1..]);
    assert SplitFrames(a) == Glued(a[0], parts);
  }

  lemma ReadingContinues(a: string, b: string)
    ensures Complete(a + b) == Complete(a) + Complete(Rest(a) + b)
    ensures Rest(a + b) == Rest(Rest(a) + b)
  {
    SplitContinues(a, b);
  }

  lemma SplitWithoutTerminator(text: string)
    requires |SplitFrames(text)| == 1
    ensures SplitFrames(text) == [text]
  {
    FramesRebuildText(text);
  }

  /** The reading loop: every chunk is added to the buffer, complete frames are taken off it. For
      every cutting of the text into chunks the frames are those of the whole text. */
  method ReadFrames(chunks: seq<string>) returns (frames: seq<string>, buffer: string)
    ensures frames == Complete(Concat(chunks))
    ensures buffer == Rest(Concat(chunks))
  {
    frames, buffer := [], "";
    for i := 0 to |chunks|
      invariant frames == Complete(Concat(chunks[..i]))
      invariant buffer == Rest(Concat(chunks[..i]))
    {
      ghost var before := Concat(chunks[..i]);
      assert chunks[..i + 1] == chunks[..i] + [chunks[i]];
      ConcatAppend(chunks[..i], [chunks[i]]);
      assert Concat([chunks[i]]) == chunks[i];
      ReadingContinues(before, chunks[i]);
      var parts := SplitFrames(buffer + chunks[i]);
      frames := frames + parts[..|parts| - 1];
      buffer := parts[|parts| - 1];
    }
    assert chunks[..|chunks|] == chunks;
  }

  // ----- one frame -----------------------------------------------------------------------

  function WithoutCr(line: string): string {
    if line != [] && line[|line| - 1] == '\r' then line[..|line| - 1] else line
  }

  /** `frame.split(/\r?\n/)`: the last line keeps a carriage return at its end. */
  function Lines(frame: string): (lines: seq<string>)
    ensures |lines| > 0
  {
    Stripped(SplitOn(frame, '\n'))
  }

  function Stripped(lines: seq<string>): seq<string> {
    seq(|lines|, i requires 0 <= i < |lines| => if i < |lines| - 1 then WithoutCr(lines[i]) else lines[i])
  }

  predicate IsData(line: string) {
    |line| >= 5 && line[..5] == "data:"
  }

  function DataValue(line: string): string
    requires IsData(line)
  {
    if |line| > 5 && line[5] == ' ' then line[6..] else line[5..]
  }

  function DataValues(lines: seq<string>): seq<string> {
    if lines == [] then []
    else if IsData(lines[0]) then [DataValue(lines[0])] + DataValues(lines[1..])
    else DataValues(lines[1..])
  }

  function Payload(frame: string): Option<string> {
    var values := DataValues(Lines(frame));
    if values == [] then None else Some(Join(values, "\n"))
  }

  method TrimField(line: string) returns (value: string)
    requires IsData(line)
    ensures value == DataValue(line)
  {
    value := line[5..];
    if |value| > 0 && value[0] == ' ' {
      value := value[1..];
    }
  }

  method ParseDataFrame(frame: string) returns (payload: Option<string>)
    ensures payload == Payload(frame)
  {
    var lines := Lines(frame);
    var dataLines: seq<string> := [];
    assert lines[0..] == lines;
    for i := 0 to |lines|
      invariant dataLines + DataValues(lines[i..]) == DataValues(lines)
    {
      assert lines[i..][1..] == lines[i + 1..];
      if !IsData(lines[i]) {
        continue;
      }
      Assoc(dataLines, [DataValue(lines[i])], DataValues(lines[i + 1..]));
      var value := TrimField(lines[i]);
      dataLines := dataLines + [value];
    }
    assert dataLines + [] == dataLines;
    payload := if dataLines == [] then None else Some(Join(dataLines, "\n"));
  }

  function DataLines(lines: seq<string>): seq<string> {
    seq(|lines|, i requires 0 <= i < |lines| => "data: " + lines[i])
  }

  /** A payload written as a frame, one data line for every line of it. */
  function Printed(payload: string): string {
    Join(DataLines(SplitOn(payload, '\n')), "\n")
  }

  lemma WithoutCrOfData(line: string)
    ensures WithoutCr("data: " + line) == "data: " + WithoutCr(line)
  {
    var data := "data: " + line;
    assert line != [] ==> data[|data| - 1] == line[|line| - 1];
  }

  lemma LinesOfPrinted(payload: string)
    ensures Lines(Printed(payload)) == DataLines(Stripped(SplitOn(payload, '\n')))
  {
    var lines := SplitOn(payload, '\n');
    var data := DataLines(lines);
    forall k | 0 <= k < |data| ensures '\n' !in data[k] {
      assert '\n' !in lines[k];
    }
    SplitJoin(data, '\n');
    StrippedData(lines);
  }

  lemma StrippedData(lines: seq<string>)
    ensures Stripped(DataLines(lines)) == DataLines(Stripped(lines))
  {
    forall k | 0 <= k < |lines| ensures Stripped(DataLines(lines))[k] == DataLines(Stripped(lines))[k] {
      WithoutCrOfData(lines[k]);
    }
  }

  lemma {:induction false} ValuesOfData(lines: seq<string>)
    ensures DataValues(DataLines(lines)) == lines
  {
    if lines != [] {
      ValuesOfData(lines[1..]);
      assert DataLines(lines)[1..] == DataLines(lines[1..]);
      assert DataValue("data: " + lines[0]) == lines[0];
    }
  }

  lemma StrippedIsSplit(payload: string)
    ensures Join(Stripped(SplitOn(payload, '\n')), "\n") == payload <==>
            Stripped(SplitOn(payload, '\n')) == SplitOn(payload, '\n')
  {
    var lines := SplitOn(payload, '\n');
    JoinSplit(payload, '\n');
    forall k | 0 <= k < |Stripped(lines)| ensures '\n' !in Stripped(lines)[k] {
      assert '\n' !in lines[k];
    }
    SplitJoin(Stripped(lines), '\n');
  }

  lemma StrippedIsSame(lines: seq<string>)
    ensures Stripped(lines) == lines <==>
            forall k | 0 <= k < |lines| - 1 :: lines[k] == [] || lines[k][|lines[k]| - 1] != '\r'
  {
    if Stripped(lines) == lines {
      forall k | 0 <= k < |lines| - 1 ensures lines[k] == [] || lines[k][|lines[k]| - 1] != '\r' {
        assert Stripped(lines)[k] == lines[k];
        assert |WithoutCr(lines[k])| == |lines[k]|;
      }
    }
  }

  /** Parsing what was printed gives the payload back exactly when no line of it but the last ends
      in a carriage return. */
  lemma PrintParse(payload: string)
    ensures
      var lines := SplitOn(payload, '\n');
      Payload(Printed(payload)) == Some(payload) <==>
      forall k | 0 <= k < |lines| - 1 :: lines[k] == [] || lines[k][|lines[k]| - 1] != '\r'
  {
    var lines := SplitOn(payload, '\n');
    LinesOfPrinted(payload);
    ValuesOfData(Stripped(lines));
    assert Payload(Printed(payload)) == Some(Join(Stripped(lines), "\n"));
    StrippedIsSplit(payload);
    StrippedIsSame(lines);
  }

  lemma {:induction false} DataValuesConcat(a: seq<string>, b: seq<string>)
    ensures DataValues(a + b) == DataValues(a) + DataValues(b)
  {
    if a == [] {
      assert a + b == b;
    } else {
      assert (a + b)[1..] == a[1..] + b;
      DataValuesConcat(a[1..], b);
      if IsData(a[0]) {
        Assoc([DataValue(a[0])], DataValues(a[1..]), DataValues(b));
      }
    }
  }

  /** Neither a line feed in it nor a carriage return at its end. */
  predicate OneLine(line: string) {
    '\n' !in line && WithoutCr(line) == line
  }

  lemma LinesOfJoined(lines: seq<string>)
    requires lines != [] && forall i | 0 <= i < |lines| :: OneLine(lines[i])
    ensures Lines(Join(lines, "\n")) == lines
  {
    SplitJoin(lines, '\n');
    assert Stripped(lines) == lines;
  }

  /** A line of any other kind, wherever it stands in a frame, does not change the payload. */
  lemma OtherLinesDoNotCount(a: seq<string>, line: string, b: seq<string>)
    requires a + b != [] && forall i | 0 <= i < |a + b| :: OneLine((a + b)[i])
    requires OneLine(line) && !IsData(line)
    ensures Payload(Join(a + [line] + b, "\n")) == Payload(Join(a + b, "\n"))
  {
    var more := a + [line] + b;
    forall i | 0 <= i < |more| ensures OneLine(more[i]) {
      if i != |a| { assert more[i] == (a + b)[if i < |a| then i else i - 1]; }
    }
    LinesOfJoined(a + b);
    LinesOfJoined(more);
    OtherLineHasNoValue(a, line, b);
  }

  lemma OtherLineHasNoValue(a: seq<string>, line: string, b: seq<string>)
    requires !IsData(line)
    ensures DataValues(a + [line] + b) == DataValues(a + b)
  {
    DataValuesConcat(a, b);
    DataValuesConcat(a + [line], b);
    DataValuesConcat(a, [line]);
    assert DataValues([line]) == [];
    assert DataValues(a) + [] == DataValues(a);
  }
}
