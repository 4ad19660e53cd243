/**
 One frame, line by line: what its lines amount to, with and without a byte-order mark that belongs to
 the first of them.
 */
module SseLines {
  import opened Common
  import opened SseParser
  import opened SseDocument

  predicate NonBlank(lines: seq<Bytes>) {
    forall k | 0 <= k < |lines| :: lines[k] != ""
  }

  /** The lines of b before its first blank line; an unfinished last line is none. */
  function TextLines(b: Bytes): (ls: seq<Bytes>)
    ensures NonBlank(ls)
    decreases |b|
  {
    var i := FirstBreak(b);
    if i == |b| || i == 0 then [] else [b[..i]] + TextLines(b[i + BreakLength(b, i)..])
  }

  /** Lines that are not blank, and then one blank line at the very end. */
  predicate OneFrame(b: Bytes)
    decreases |b|
  {
    var i := FirstBreak(b);
    && i < |b|
    && var n := i + BreakLength(b, i);
    if i == 0 then n == |b| else OneFrame(b[n..])
  }

  /** The record that these lines build up. */
  function Fold(cur: Cur, lines: seq<Bytes>): Cur
    requires NonBlank(lines)
    decreases |lines|
  {
    if lines == [] then cur else Fold(Field(cur, lines[0]), lines[1..])
  }

  function Record(cur: Cur, raw: Bytes): seq<Event> {
    if cur.has then [Event(cur.name, cur.data, raw)] else []
  }

  /** The rest of one frame gives at most the record of its lines. */
  lemma {:induction false} FrameLines(b: Bytes, raw: Bytes, cur: Cur)
    requires OneFrame(b)
    ensures Lines(0, b, raw, true, cur).events == Record(Fold(cur, TextLines(b)), raw + b)
    decreases |b|
  {
    var i := FirstBreak(b);
    var n := i + BreakLength(b, i);
    if i == 0 {
      BlankFrame(b, raw, cur);
    } else {
      FrameLines(b[n..], raw + b[..n], Field(cur, b[..i]));
      Assoc(raw, b[..n], b[n..]);
      TakeDrop(b, n);
      FoldCons(cur, b[..i], TextLines(b[n..]));
    }
  }

  /** The blank line ends the frame. */
  lemma BlankFrame(b: Bytes, raw: Bytes, cur: Cur)
    requires FirstBreak(b) == 0 < |b| == BreakLength(b, 0)
    ensures Lines(0, b, raw, true, cur).events == Record(cur, raw + b)
  {
    assert b[..|b|] == b && b[|b|..] == "";
    assert Lines(0, "", "", true, NO_RECORD).events == [];
    EmptyPlus(Record(cur, raw + b));
  }

  lemma FoldCons(cur: Cur, line: Bytes, lines: seq<Bytes>)
    requires line != "" && NonBlank(lines)
    ensures Fold(cur, [line] + lines) == Fold(Field(cur, line), lines)
  {
    assert ([line] + lines)[1..] == lines;
  }

  /** No record is longer than what it is read from. */
  lemma {:induction false} LinesRaw(b: Bytes, raw: Bytes, started: bool, cur: Cur)
    ensures forall e | e in Lines(0, b, raw, started, cur).events :: |e.raw| <= |raw| + |b|
    decreases |b|
  {
    var i := FirstBreak(b);
    if i < |b| {
      var n := i + BreakLength(b, i);
      var line := if started then b[..i] else StripBom(b[..i]);
      if line == "" {
        LinesRaw(b[n..], "", true, NO_RECORD);
      } else {
        LinesRaw(b[n..], raw + b[..n], true, Field(cur, line));
      }
    }
  }

  /** A record that has all the bytes it is read from was read from one frame. */
  lemma {:induction false} WholeIsFrame(b: Bytes, raw: Bytes, cur: Cur, e: Event)
    requires Lines(0, b, raw, true, cur).events == [e] && |e.raw| == |raw| + |b|
    ensures OneFrame(b)
    decreases |b|
  {
    var i := FirstBreak(b);
    var n := i + BreakLength(b, i);
    if i == 0 {
      LinesRaw(b[n..], "", true, NO_RECORD);
      assert e in Lines(0, b, raw, true, cur).events;
    } else {
      WholeIsFrame(b[n..], raw + b[..n], Field(cur, b[..i]), e);
    }
  }

  // --------------------------------------------------------- a mark on the first line ----

  /** The lines of a frame whose first line loses the mark it begins with. */
  function Unmarked(raw: Bytes): (ls: seq<Bytes>)
    requires Marked(raw)
    ensures NonBlank(ls)
  {
    [TextLines(raw)[0][|BOM|..]] + TextLines(raw)[1..]
  }

  /** The first line of the frame begins with the mark and says something after it. */
  predicate Marked(raw: Bytes) {
    TextLines(raw) != [] && BOM < TextLines(raw)[0]
  }

  lemma MarkLine(raw: Bytes)
    requires BOM <= raw
    ensures |BOM| <= FirstBreak(raw) && BOM <= raw[..FirstBreak(raw)]
  {
    assert raw[0] == BOM[0] && raw[1] == BOM[1] && raw[2] == BOM[2];
    assert raw[1..][0] == raw[1] && raw[1..][1..][0] == raw[2];
  }

  /** The first line of a stream, without its mark. */
  lemma OpeningLine(raw: Bytes, i: nat, n: nat)
    requires i == FirstBreak(raw) < |raw| && n == i + BreakLength(raw, i)
    ensures var line := StripBom(raw[..i]);
      Lines(0, raw, "", false, NO_RECORD).events
      == if line == "" then Lines(0, raw[n..], "", true, NO_RECORD).events
         else Lines(0, raw[n..], raw[..n], true, Field(NO_RECORD, line)).events
  {
    LinesUnfold(0, raw, "", false, NO_RECORD, i, n);
    EmptyPlus(raw[..n]);
    EmptyPlus(Lines(0, raw[n..], "", true, NO_RECORD).events);
  }

  /** What a marked frame gives at the start of a stream. */
  lemma RereadMarked(raw: Bytes)
    requires BOM <= raw && OneFrame(raw) && Marked(raw)
    ensures Lines(0, raw, "", false, NO_RECORD).events == Record(Fold(NO_RECORD, Unmarked(raw)), raw)
  {
    MarkLine(raw);
    var i := FirstBreak(raw);
    var n := i + BreakLength(raw, i);
    var t := raw[..i][|BOM|..];
    OpeningLine(raw, i, n);
    TakeDrop(raw, n);
    assert StripBom(raw[..i]) == t;
    FrameLines(raw[n..], raw[..n], Field(NO_RECORD, t));
    FoldCons(NO_RECORD, t, TextLines(raw[n..]));
    assert TextLines(raw)[1..] == TextLines(raw[n..]);
  }

  /** What any frame gives inside of a stream. */
  lemma ReadInside(raw: Bytes)
    requires OneFrame(raw)
    ensures Lines(0, raw, "", true, NO_RECORD).events == Record(Fold(NO_RECORD, TextLines(raw)), raw)
  {
    FrameLines(raw, "", NO_RECORD);
    assert "" + raw == raw;
  }

  /** A frame whose first line is the mark alone gives what is behind that line. */
  lemma RereadBare(raw: Bytes)
    requires BOM <= raw && OneFrame(raw) && !Marked(raw)
    ensures var events := Lines(0, raw, "", false, NO_RECORD).events;
      |events| <= 1 && forall e | e in events :: |e.raw| < |raw|
  {
    MarkLine(raw);
    var i := FirstBreak(raw);
    var n := i + BreakLength(raw, i);
    BareMark(raw[..i]);
    OpeningLine(raw, i, n);
    ReadInside(raw[n..]);
  }

  lemma BareMark(line: Bytes)
    requires BOM <= line && !(BOM < line)
    ensures StripBom(line) == ""
  {
    assert line == BOM;
  }

  /** A frame that was emitted whole at the start of a stream is one frame. */
  lemma OpeningIsFrame(raw: Bytes, e: Event)
    requires Lines(0, raw, "", false, NO_RECORD).events == [e] && |e.raw| == |raw|
    ensures OneFrame(raw)
  {
    var i := FirstBreak(raw);
    var n := i + BreakLength(raw, i);
    OpeningLine(raw, i, n);
    var line := StripBom(raw[..i]);
    if line != "" {
      WholeIsFrame(raw[n..], raw[..n], Field(NO_RECORD, line), e);
    } else {
      NotBehind(raw, n, e);
    }
  }

  /** A record that is read behind the first line does not have all the bytes. */
  lemma NotBehind(raw: Bytes, n: nat, e: Event)
    requires 0 < n <= |raw| && e in Lines(0, raw[n..], "", true, NO_RECORD).events
    ensures |e.raw| < |raw|
  {
    LinesRaw(raw[n..], "", true, NO_RECORD);
  }

  // -------------------------------------------------- when the mark makes no difference ----

  predicate IsComment(line: Bytes)
    requires line != ""
  {
    line[0] == ':'
  }

  predicate IsField(line: Bytes, name: Bytes)
    requires line != ""
  {
    !IsComment(line) && line[..IndexOf(line, ':')] == name
  }

  /** The value of a line that is a field: what follows the colon, without one leading blank. */
  function ValueOf(line: Bytes): Bytes {
    var j := IndexOf(line, ':');
    var after := if j < |line| then line[j + 1..] else "";
    if after != "" && after[0] == ' ' then after[1..] else after
  }

  predicate SomeField(lines: seq<Bytes>, name: Bytes)
    requires NonBlank(lines)
  {
    exists k | 0 <= k < |lines| :: IsField(lines[k], name)
  }

  predicate SomeText(lines: seq<Bytes>)
    requires NonBlank(lines)
  {
    exists k | 0 <= k < |lines| :: !IsComment(lines[k])
  }

  /** What a line at the start of a frame may say after its mark so that losing the mark changes
      nothing: a comment if another line makes the record; an event name that is empty or replaced
      later; empty data if no other data follows; any other field. */
  predicate MarkIsHarmless(raw: Bytes) {
    && Marked(raw)
    && var text, rest := Unmarked(raw)[0], Unmarked(raw)[1..];
       if IsComment(text) then SomeText(rest)
       else if IsField(text, "event") then ValueOf(text) == "" || SomeField(rest, "event")
       else if IsField(text, "data") then ValueOf(text) == "" && !SomeField(rest, "data")
       else true
  }

  lemma FieldIs(cur: Cur, line: Bytes)
    requires line != ""
    ensures Field(cur, line) ==
      if IsComment(line) then cur
      else if IsField(line, "event") then cur.(has := true, name := ValueOf(line))
      else if IsField(line, "data") then
        cur.(has := true, hasData := true, data := cur.data + (if cur.hasData then "\n" else "") + ValueOf(line))
      else cur.(has := true)
    ensures !(IsField(line, "event") && IsField(line, "data"))
  {
    assert "event" != "data";
  }

  // --------------------------------------------------------------------- what a record says ----

  /** The values of the lines that are this field, in order. */
  function Values(lines: seq<Bytes>, name: Bytes): seq<Bytes>
    requires NonBlank(lines)
  {
    if lines == [] then [] else
    Values(lines[..|lines| - 1], name) + if IsField(lines[|lines| - 1], name) then [ValueOf(lines[|lines| - 1])] else []
  }

  /** These parts with line feeds between them. */
  function Joined(parts: seq<Bytes>): Bytes {
    if parts == [] then "" else if |parts| == 1 then parts[0] else Joined(parts[..|parts| - 1]) + "\n" + parts[|parts| - 1]
  }

  lemma {:induction false} FoldLast(cur: Cur, lines: seq<Bytes>, line: Bytes)
    requires line != "" && NonBlank(lines)
    ensures NonBlank(lines + [line]) && Fold(cur, lines + [line]) == Field(Fold(cur, lines), line)
    decreases |lines|
  {
    if lines == [] {
      assert lines + [line] == [line] && [line][1..] == [];
    } else {
      assert (lines + [line])[1..] == lines[1..] + [line];
      FoldLast(Field(cur, lines[0]), lines[1..], line);
    }
  }

  /** The record of some lines: named by the last event line, with the data lines put together. */
  lemma {:induction false} FoldSays(lines: seq<Bytes>)
    requires NonBlank(lines)
    ensures var cur, names, datas := Fold(NO_RECORD, lines), Values(lines, "event"), Values(lines, "data");
      && cur.name == (if names == [] then "" else names[|names| - 1])
      && cur.data == Joined(datas) && (cur.hasData <==> datas != [])
    decreases |lines|
  {
    if lines != [] {
      var init, line := lines[..|lines| - 1], lines[|lines| - 1];
      assert lines == init + [line];
      FoldSays(init);
      FoldLast(NO_RECORD, init, line);
      FieldIs(Fold(NO_RECORD, init), line);
      JoinedPush(Values(init, "data"), ValueOf(line));
      EmptyPlus(Values(init, "data"));
      EmptyPlus(Values(init, "event"));
    }
  }

  lemma JoinedPush(parts: seq<Bytes>, part: Bytes)
    ensures Joined(parts + [part]) == Joined(parts) + (if parts == [] then "" else "\n") + part
  {
    assert (parts + [part])[..|parts|] == parts;
    assert "" + "" + part == part;
  }

  lemma SomeCons(line: Bytes, lines: seq<Bytes>, name: Bytes)
    requires line != "" && NonBlank(lines)
    ensures SomeField([line] + lines, name) <==> IsField(line, name) || SomeField(lines, name)
    ensures SomeText([line] + lines) <==> !IsComment(line) || SomeText(lines)
  {
    var all := [line] + lines;
    assert all[0] == line;
    assert forall k | 0 <= k < |lines| :: all[k + 1] == lines[k];
    if SomeField(lines, name) {
      var k :| 0 <= k < |lines| && IsField(lines[k], name);
      assert IsField(all[k + 1], name);
    }
    if SomeText(lines) {
      var k :| 0 <= k < |lines| && !IsComment(lines[k]);
      assert !IsComment(all[k + 1]);
    }
  }

  lemma {:induction false} FoldHas(cur: Cur, lines: seq<Bytes>)
    requires NonBlank(lines)
    ensures Fold(cur, lines).has <==> cur.has || SomeText(lines)
    decreases |lines|
  {
    if lines != [] {
      FieldIs(cur, lines[0]);
      FoldHas(Field(cur, lines[0]), lines[1..]);
      SomeCons(lines[0], lines[1..], "");
      assert lines == [lines[0]] + lines[1..];
    }
  }

  lemma {:induction false} FoldName(c: Cur, d: Cur, lines: seq<Bytes>)
    requires NonBlank(lines)
    ensures Fold(c, lines).name == Fold(d, lines).name <==> c.name == d.name || SomeField(lines, "event")
    decreases |lines|
  {
    if lines != [] {
      FieldIs(c, lines[0]);
      FieldIs(d, lines[0]);
      FoldName(Field(c, lines[0]), Field(d, lines[0]), lines[1..]);
      SomeCons(lines[0], lines[1..], "event");
      assert lines == [lines[0]] + lines[1..];
    }
  }

  lemma {:induction false} FoldSameData(c: Cur, d: Cur, lines: seq<Bytes>)
    requires NonBlank(lines) && c.data == d.data && c.hasData == d.hasData
    ensures Fold(c, lines).data == Fold(d, lines).data
    decreases |lines|
  {
    if lines != [] {
      FieldIs(c, lines[0]);
      FieldIs(d, lines[0]);
      FoldSameData(Field(c, lines[0]), Field(d, lines[0]), lines[1..]);
    }
  }

  lemma {:induction false} FoldLonger(c: Cur, d: Cur, lines: seq<Bytes>)
    requires NonBlank(lines) && c.hasData && d.hasData
    ensures |Fold(c, lines).data| - |Fold(d, lines).data| == |c.data| - |d.data|
    decreases |lines|
  {
    if lines != [] {
      FieldIs(c, lines[0]);
      FieldIs(d, lines[0]);
      FoldLonger(Field(c, lines[0]), Field(d, lines[0]), lines[1..]);
    }
  }

  /** Data that only one of two records has seen is missed as soon as there is any, or any more. */
  lemma {:induction false} FoldData(c: Cur, d: Cur, lines: seq<Bytes>)
    requires NonBlank(lines) && c.hasData && !d.hasData && d.data == ""
    ensures Fold(c, lines).data == Fold(d, lines).data <==> c.data == "" && !SomeField(lines, "data")
    decreases |lines|
  {
    if lines != [] {
      var line, rest := lines[0], lines[1..];
      FieldIs(c, line);
      FieldIs(d, line);
      SomeCons(line, rest, "data");
      assert lines == [line] + rest;
      if IsField(line, "data") {
        FoldLonger(Field(c, line), Field(d, line), rest);
      } else {
        FoldData(Field(c, line), Field(d, line), rest);
      }
    }
  }

  /** A line that begins with the mark is an unknown field. */
  lemma MarkedField(line: Bytes)
    requires BOM <= line
    ensures line != "" && Field(NO_RECORD, line) == NO_RECORD.(has := true)
  {
    assert line[0] == BOM[0];
    FieldIs(NO_RECORD, line);
    if line[..IndexOf(line, ':')] != "" {
      assert line[..IndexOf(line, ':')][0] == BOM[0];
    }
  }

  /** Losing the mark changes nothing exactly when it is harmless. */
  lemma HarmlessIff(raw: Bytes)
    requires Marked(raw)
    ensures var cur, inside := Fold(NO_RECORD, Unmarked(raw)), Fold(NO_RECORD, TextLines(raw));
      && inside.has
      && (cur.has && cur.name == inside.name && cur.data == inside.data <==> MarkIsHarmless(raw))
  {
    var lines := TextLines(raw);
    var text, rest := Unmarked(raw)[0], Unmarked(raw)[1..];
    assert lines == [lines[0]] + rest && Unmarked(raw) == [text] + rest;
    MarkedField(lines[0]);
    FoldCons(NO_RECORD, lines[0], rest);
    FoldCons(NO_RECORD, text, rest);
    var c, d := Field(NO_RECORD, text), NO_RECORD.(has := true);
    FieldIs(NO_RECORD, text);
    FoldHas(c, rest);
    FoldHas(d, rest);
    FoldName(c, d, rest);
    if IsField(text, "data") {
      assert c.data == ValueOf(text);
      FoldData(c, d, rest);
    } else {
      FoldSameData(c, d, rest);
    }
  }
}
