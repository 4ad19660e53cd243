/** The frames the program writes itself (encodeSSEFrame and the joined Responses delta). */
module SseFrame {
  import opened Common
  import opened SseParser
  import opened SseRoundTrip

  /** One line `field: value` and its LF. */
  function FieldLine(field: Bytes, value: Bytes): Bytes {
    field + ": " + value + "\n"
  }

  /** An event line unless the name is empty, a data line, and the blank line that ends the frame. */
  function Frame(name: Bytes, data: Bytes): Bytes {
    (if name == "" then "" else FieldLine("event", name)) + FieldLine("data", data) + "\n"
  }

  lemma FieldLineIndex(field: Bytes, value: Bytes)
    requires ':' !in field
    ensures IndexOf(field + ": " + value, ':') == |field|
    ensures (field + ": " + value)[..|field|] == field
    ensures (field + ": " + value)[|field| + 1..] == " " + value
  {
    var line := field + ": " + value;
    assert line[..|field|] == field;
    IndexIs(line, ':', |field|);
  }

  lemma EventField(cur: Cur, value: Bytes)
    ensures "event" + ": " + value != "" && Field(cur, "event" + ": " + value) == cur.(has := true, name := value)
  {
    FieldLineIndex("event", value);
    assert (" " + value)[1..] == value;
  }

  lemma DataField(cur: Cur, value: Bytes)
    requires !cur.hasData
    ensures "data" + ": " + value != "" && Field(cur, "data" + ": " + value) == cur.(has := true, hasData := true, data := cur.data + value)
  {
    FieldLineIndex("data", value);
    assert (" " + value)[1..] == value;
    assert cur.data + "" + value == cur.data + value;
  }

  lemma RunLine(s: State, line: Bytes)
    requires s.Live? && !s.cr && s.line == "" && Plain(line)
    ensures Run(0, s, line + "\n") == EndLine(s.(raw := s.raw + (line + "\n"), line := line))
  {
    var b := line + "\n";
    var t := s.(raw := s.raw + line, line := line);
    RunPlain(0, s, line);
    assert s.line + line == line;
    RunSplit(0, s, line, "\n");
    RunOne(0, t, '\n');
    assert "\n" == ['\n'];
    assert t.raw + ['\n'] == s.raw + b;
    AfterAfter([], [], Step(0, t, '\n'));
  }

  /** A line that is a field, at the start or inside of a frame. */
  lemma RunField(s: State, line: Bytes)
    requires s.Live? && !s.cr && s.line == "" && Plain(line) && line != "" && !(BOM <= line)
    ensures Run(0, s, line + "\n") == Out(Live(s.raw + (line + "\n"), "", false, true, Field(s.cur, line)), [])
  {
    RunLine(s, line);
  }

  lemma RunHead(name: Bytes)
    requires Plain(name) && name != ""
    ensures Run(0, Fresh(false), FieldLine("event", name))
         == Out(Live(FieldLine("event", name), "", false, true, Cur(true, false, name, "")), [])
  {
    var line := "event" + ": " + name;
    assert line + "\n" == FieldLine("event", name);
    assert line[0] == 'e' && BOM[0] != 'e';
    EventField(NO_RECORD, name);
    RunField(Fresh(false), line);
    assert "" + (line + "\n") == line + "\n";
  }

  lemma RunData(s: State, data: Bytes)
    requires s.Live? && !s.cr && s.line == "" && !s.cur.hasData && s.cur.data == "" && Plain(data)
    ensures Run(0, s, FieldLine("data", data))
         == Out(Live(s.raw + FieldLine("data", data), "", false, true, s.cur.(has := true, hasData := true, data := data)), [])
  {
    var line := "data" + ": " + data;
    assert line + "\n" == FieldLine("data", data);
    assert line[0] == 'd' && BOM[0] != 'd';
    DataField(s.cur, data);
    assert s.cur.data + data == data;
    RunField(s, line);
  }

  lemma RunBlank(s: State)
    requires s.Live? && !s.cr && s.line == "" && s.started && s.cur.has
    ensures Run(0, s, "\n") == Out(Fresh(true), [Event(s.cur.name, s.cur.data, s.raw + "\n")])
  {
    RunOne(0, s, '\n');
    assert "\n" == ['\n'];
  }

  /** The data line and the blank line, after an optional event line. */
  lemma RunBody(s: State, data: Bytes)
    requires s.Live? && !s.cr && s.line == "" && !s.cur.hasData && s.cur.data == "" && Plain(data)
    ensures var body := FieldLine("data", data) + "\n";
      Run(0, s, body) == Out(Fresh(true), [Event(s.cur.name, data, s.raw + body)])
  {
    var line := FieldLine("data", data);
    RunData(s, data);
    var t := Live(s.raw + line, "", false, true, s.cur.(has := true, hasData := true, data := data));
    RunBlank(t);
    RunSplit(0, s, line, "\n");
    Assoc(s.raw, line, "\n");
    AfterAfter([], [], Run(0, t, "\n"));
  }

  lemma FrameRuns(name: Bytes, data: Bytes)
    requires Plain(name) && Plain(data)
    ensures Run(0, Fresh(false), Frame(name, data)) == Out(Fresh(true), [Event(name, data, Frame(name, data))])
  {
    var body := FieldLine("data", data) + "\n";
    if name == "" {
      RunBody(Fresh(false), data);
      assert "" + FieldLine("data", data) + "\n" == body && "" + body == body;
    } else {
      var head := FieldLine("event", name);
      var t := Live(head, "", false, true, Cur(true, false, name, ""));
      RunHead(name);
      RunBody(t, data);
      RunSplit(0, Fresh(false), head, body);
      Assoc(head, FieldLine("data", data), "\n");
      AfterAfter([], [], Run(0, t, body));
    }
  }

  /** Reading a written frame back gives its name and its data, whatever follows it. */
  lemma FrameReads(name: Bytes, data: Bytes)
    requires Plain(name) && Plain(data)
    ensures Run(0, Fresh(false), Frame(name, data)) == Out(Fresh(true), [Event(name, data, Frame(name, data))])
    ensures Parse(Frame(name, data)) == [Event(name, data, Frame(name, data))]
  {
    FrameRuns(name, data);
  }

  /** The same inside of a stream. */
  lemma FrameReadsInside(name: Bytes, data: Bytes)
    requires Plain(name) && Plain(data)
    ensures Feed(0, Fresh(true), Frame(name, data), true).events == [Event(name, data, Frame(name, data))]
  {
    var frame := Frame(name, data);
    FrameReads(name, data);
    assert frame[0] == if name == "" then 'd' else 'e';
    assert !(BOM <= frame);
    ParseNoBom(frame);
  }
}
