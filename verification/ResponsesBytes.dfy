/**
 Joining text deltas, byte for byte: which frames are joined, and into what (responses.go, replay and
 parseResponsesTextDelta), told without the coalescer's own notions.
 */
module ResponsesBytes {
  import opened Common
  import opened SseParser
  import opened SseDocument
  import opened SseLines
  import SseFrame
  import opened ResponsesFrames
  import opened ResponsesCoalescer
  import opened ResponsesMeaning

  function FramesOf(name: Bytes, datas: seq<Bytes>): (fs: seq<Bytes>)
    ensures |fs| == |datas|
  {
    seq(|datas|, i requires 0 <= i < |datas| => SseFrame.Frame(name, datas[i]))
  }

  /** The fields, on one route, of single lines of JSON, each in a frame that fits the limit. */
  ghost predicate OneRoute(env: Env, max: int, name: Bytes, datas: seq<Bytes>, fs: seq<Fields>) {
    && |fs| == |datas| && Plain(name)
    && forall k | 0 <= k < |datas| :: OnRoute(env, max, name, datas[k], fs[k], fs[0])
  }

  predicate OnRoute(env: Env, max: int, name: Bytes, data: Bytes, f: Fields, first: Fields) {
    && Plain(data) && env.decode(data) == Some(f) && RouteOf(name, f) == RouteOf(name, first)
    && |SseFrame.Frame(name, data)| <= max
  }

  function GroupsOf(name: Bytes, datas: seq<Bytes>, fs: seq<Fields>): (gs: seq<Group>)
    requires |fs| == |datas|
    ensures |gs| == |datas|
  {
    seq(|datas|, i requires 0 <= i < |datas| => Group(name, fs[i], SseFrame.Frame(name, datas[i]), |datas[i]|, 1))
  }

  lemma FrameIsLonger(name: Bytes, data: Bytes)
    ensures |data| <= |SseFrame.Frame(name, data)|
  {
  }

  /** A written frame whose data decodes to a delta can be joined with others. */
  lemma FrameJoinable(env: Env, max: int, name: Bytes, data: Bytes, f: Fields)
    requires Plain(name) && Plain(data) && env.decode(data) == Some(f) && |SseFrame.Frame(name, data)| <= max
    ensures Joinable(env, max, SseFrame.Frame(name, data)) == Some(Group(name, f, SseFrame.Frame(name, data), |data|, 1))
  {
    SseFrame.FrameReads(name, data);
    FrameSimple(Event(name, data, SseFrame.Frame(name, data)));
    FrameIsLonger(name, data);
  }

  lemma AllJoinable(env: Env, max: int, name: Bytes, datas: seq<Bytes>, fs: seq<Fields>)
    requires OneRoute(env, max, name, datas, fs)
    ensures IsRun(env, max, FramesOf(name, datas), GroupsOf(name, datas, fs))
    ensures forall k | 0 <= k < |datas| :: Compatible(GroupsOf(name, datas, fs)[0], GroupsOf(name, datas, fs)[k])
  {
    forall k | 0 <= k < |datas|
      ensures Joinable(env, max, FramesOf(name, datas)[k]) == Some(GroupsOf(name, datas, fs)[k])
      ensures Compatible(GroupsOf(name, datas, fs)[0], GroupsOf(name, datas, fs)[k]) {
      assert OnRoute(env, max, name, datas[k], fs[k], fs[0]);
      FrameJoinable(env, max, name, datas[k], fs[k]);
    }
  }

  lemma {:induction false} PayloadIs(name: Bytes, datas: seq<Bytes>, fs: seq<Fields>)
    requires |fs| == |datas|
    ensures Payload(GroupsOf(name, datas, fs)) == |Concat(datas)|
    decreases |datas|
  {
    if datas != [] {
      var n := |datas| - 1;
      PayloadIs(name, datas[..n], fs[..n]);
      assert GroupsOf(name, datas, fs)[..n] == GroupsOf(name, datas[..n], fs[..n]);
      assert datas == datas[..n] + [datas[n]];
      ConcatSplit(datas[..n], [datas[n]]);
      ConcatOne(datas[n]);
    }
  }

  /** Written frames, put end to end, are cut back into themselves. */
  lemma WrittenCut(name: Bytes, datas: seq<Bytes>)
    requires Plain(name) && forall k | 0 <= k < |datas| :: Plain(datas[k])
    ensures Cut(Concat(FramesOf(name, datas))) == Cuts(FramesOf(name, datas), "")
  {
    var frames := FramesOf(name, datas);
    forall f | f in frames ensures Whole(f) {
      var k :| 0 <= k < |frames| && frames[k] == f;
      JoinedWhole(name, datas[k]);
    }
    forall k | 0 <= k < |frames| ensures Apart(frames[k], Following(frames, "", k)) {
      JoinedApart(name, datas[k]);
    }
    CutConcat(frames, "");
    EmptyPlus(Concat(frames));
  }

  /** Deltas of one route, each in a frame within the limit and together within it, become one frame on the
      wire: a lone one its own bytes, several the encoding of all of their text with the last sequence
      number and padding. */
  lemma DeltasBecomeOne(env: Env, max: int, name: Bytes, datas: seq<Bytes>, fs: seq<Fields>)
    requires datas != [] && OneRoute(env, max, name, datas, fs) && |Concat(datas)| <= max
    ensures var joined := fs[0].(delta := Concat(Deltas(fs)), sequence := fs[|fs| - 1].sequence, obfuscation := fs[|fs| - 1].obfuscation);
      Replay(env, max, Concat(FramesOf(name, datas)))
      == if |datas| == 1 then SseFrame.Frame(name, datas[0]) else SseFrame.Frame(name, env.encode(joined))
  {
    var frames := FramesOf(name, datas);
    assert OnRoute(env, max, name, datas[0], fs[0], fs[0]);
    forall k | 0 <= k < |datas| ensures Plain(datas[k]) {
      assert OnRoute(env, max, name, datas[k], fs[k], fs[0]);
    }
    WrittenCut(name, datas);
    RouteJoins(env, max, name, datas, fs);
    OneFrameOut(env, max, frames, if |datas| == 1 then frames[0] else SseFrame.Frame(name, env.encode(JoinAll(fs))));
  }

  lemma RouteJoins(env: Env, max: int, name: Bytes, datas: seq<Bytes>, fs: seq<Fields>)
    requires datas != [] && OneRoute(env, max, name, datas, fs) && |Concat(datas)| <= max
    ensures JoinAll(fs) == fs[0].(delta := Concat(Deltas(fs)), sequence := fs[|fs| - 1].sequence, obfuscation := fs[|fs| - 1].obfuscation)
    ensures var frames := FramesOf(name, datas);
      Flushed(env, AcceptFrames(env, max, [] + frames)) == Flushed(env, AcceptFrames(env, max, []))
        + [if |datas| == 1 then frames[0] else SseFrame.Frame(name, env.encode(JoinAll(fs)))]
  {
    var deltas := GroupsOf(name, datas, fs);
    AllJoinable(env, max, name, datas, fs);
    PayloadIs(name, datas, fs);
    assert FieldsOf(deltas) == fs;
    RunBecomesOne(env, max, [], FramesOf(name, datas), deltas);
  }

  lemma OneFrameOut(env: Env, max: int, frames: seq<Bytes>, one: Bytes)
    requires max > 0 && Cut(Concat(frames)) == Cuts(frames, "")
    requires Flushed(env, AcceptFrames(env, max, [] + frames)) == Flushed(env, AcceptFrames(env, max, [])) + [one]
    ensures Replay(env, max, Concat(frames)) == one
  {
    assert [] + frames == frames;
    assert Flushed(env, AcceptFrames(env, max, [])) + [one] == [one];
    ConcatOne(one);
    EmptyPlus(one);
  }

  // -------------------------------------------------------------------- simple frames ----

  /** The line spells this field, colon and all, with this value. */
  predicate Spells(line: Bytes, field: Bytes, value: Bytes)
    requires line != ""
  {
    ':' in line && IsField(line, field) && ValueOf(line) == value
  }

  function CountText(ev: Event, lines: seq<Bytes>, n: LineCount): Option<LineCount> {
    if lines == [] then Some(n) else
    match CountLine(ev, lines[0], n)
    case None => None
    case Some(m) => CountText(ev, lines[1..], m)
  }

  lemma {:induction false} CountIsText(ev: Event, b: Bytes, n: LineCount)
    requires OneFrame(b)
    ensures CountLines(ev, b, n) == CountText(ev, TextLines(b), n)
    decreases |b|
  {
    var i := FirstBreak(b);
    var k := i + BreakLength(b, i);
    if i == 0 {
      assert b[k..] == "" && CountLines(ev, "", n) == CountLine(ev, "", n);
    } else {
      var c := CountLine(ev, b[..i], n);
      assert TextLines(b)[1..] == TextLines(b[k..]);
      if c.Some? {
        CountIsText(ev, b[k..], c.value);
      }
    }
  }

  lemma LineCounts(ev: Event, line: Bytes, n: LineCount)
    requires line != ""
    ensures CountLine(ev, line, n) ==
      if Spells(line, "event", ev.name) then Some(n.(events := n.events + 1))
      else if Spells(line, "data", ev.data) then Some(n.(datas := n.datas + 1))
      else None
  {
    var j := IndexOf(line, ':');
    assert ':' in line <==> j < |line|;
    assert "event" != "data" && "event" != "" && "data" != "";
    if j == 0 {
      assert line[..j] == "";
    }
  }

  lemma {:induction false} CountAddsUp(ev: Event, lines: seq<Bytes>, n: LineCount)
    requires NonBlank(lines)
    ensures var m := CountText(ev, lines, n);
      m.Some? ==> m.value.events + m.value.datas == n.events + n.datas + |lines|
    decreases |lines|
  {
    if lines != [] {
      LineCounts(ev, lines[0], n);
      if CountLine(ev, lines[0], n).Some? {
        CountAddsUp(ev, lines[1..], CountLine(ev, lines[0], n).value);
      }
    }
  }

  /** One line that spells the data, and one that spells the name unless there is none. */
  predicate NameAndData(ev: Event, lines: seq<Bytes>)
    requires NonBlank(lines)
  {
    if ev.name == "" then |lines| == 1 && Spells(lines[0], "data", ev.data)
    else |lines| == 2 && (InTurn(ev, lines[0], lines[1]) || InTurn(ev, lines[1], lines[0]))
  }

  predicate InTurn(ev: Event, x: Bytes, y: Bytes)
    requires x != "" && y != ""
  {
    Spells(x, "event", ev.name) && Spells(y, "data", ev.data)
  }

  lemma NotBoth(line: Bytes, ev: Event)
    requires line != ""
    ensures !(Spells(line, "event", ev.name) && Spells(line, "data", ev.data))
  {
    assert "event" != "data";
  }

  lemma CountOne(ev: Event, x: Bytes, n: LineCount)
    requires x != ""
    ensures CountText(ev, [x], n) == CountLine(ev, x, n)
  {
    assert [x][1..] == [];
  }

  lemma LastLine(ev: Event, y: Bytes, n: LineCount)
    requires y != ""
    ensures CountText(ev, [y], n) == Some(LineCount(1, 1))
      <==> (n == LineCount(1, 0) && Spells(y, "data", ev.data)) || (n == LineCount(0, 1) && Spells(y, "event", ev.name))
  {
    CountOne(ev, y, n);
    LineCounts(ev, y, n);
    NotBoth(y, ev);
  }

  lemma CountTwo(ev: Event, x: Bytes, y: Bytes)
    requires x != "" && y != ""
    ensures CountText(ev, [x, y], LineCount(0, 0)) == Some(LineCount(1, 1)) <==> InTurn(ev, x, y) || InTurn(ev, y, x)
  {
    assert [x, y][1..] == [y];
    LineCounts(ev, x, LineCount(0, 0));
    NotBoth(x, ev);
    LastLine(ev, y, LineCount(1, 0));
    LastLine(ev, y, LineCount(0, 1));
  }

  /** A frame is simple if and only if these are its lines, in either order, and no others. */
  lemma SimpleIff(ev: Event)
    requires OneFrame(ev.raw)
    ensures Simple(ev) <==> NameAndData(ev, TextLines(ev.raw))
  {
    var ls := TextLines(ev.raw);
    CountIsText(ev, ev.raw, LineCount(0, 0));
    CountAddsUp(ev, ls, LineCount(0, 0));
    if |ls| == 1 {
      assert ls == [ls[0]];
      CountOne(ev, ls[0], LineCount(0, 0));
      LineCounts(ev, ls[0], LineCount(0, 0));
      NotBoth(ls[0], ev);
    } else if |ls| == 2 {
      assert ls == [ls[0], ls[1]];
      CountTwo(ev, ls[0], ls[1]);
    }
  }
}
