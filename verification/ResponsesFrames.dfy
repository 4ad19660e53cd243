/**
 Cutting a replayed Responses stream into frames (responses.go, replayResponsesReader): the
 byte-step machine behind the reader and the whole-input reference it meets.
 */
module ResponsesFrames {
  import opened Common
  import opened SseParser
  import opened SseDocument

  /** Complete frames, and the bytes after the last blank line. */
  datatype Cuts = Cuts(frames: seq<Bytes>, tail: Bytes)

  /** Cut b at its blank lines; `cur` is the frame so far, and b starts a line. */
  function CutFrom(b: Bytes, cur: Bytes): Cuts
    decreases |b|
  {
    var i := FirstBreak(b);
    if i == |b| then Cuts([], cur + b) else
    var n := i + BreakLength(b, i);
    if i == 0 then
      var rest := CutFrom(b[n..], "");
      Cuts([cur + b[..n]] + rest.frames, rest.tail)
    else CutFrom(b[n..], cur + b[..n])
  }

  function Cut(b: Bytes): Cuts {
    CutFrom(b, "")
  }

  /** The reader between two bytes. `frameDone` marks a blank line that ended with a CR. */
  datatype CutState = CutState(frames: seq<Bytes>, cur: Bytes, lineHasData: bool, pendingCr: bool, frameDone: bool)

  const CUT_START := CutState([], "", false, false, false)

  function Finish(s: CutState): CutState {
    s.(frames := s.frames + [s.cur], cur := "", frameDone := false)
  }

  /** One byte when no CR is pending. */
  function CutByte(s: CutState, c: char): CutState {
    if c == '\r' then s.(cur := s.cur + [c], pendingCr := true, frameDone := !s.lineHasData, lineHasData := false)
    else if c == '\n' then
      var t := s.(cur := s.cur + [c]);
      (if s.lineHasData then t else Finish(t)).(lineHasData := false)
    else s.(cur := s.cur + [c], lineHasData := true)
  }

  function CutStep(s: CutState, c: char): CutState {
    if !s.pendingCr then CutByte(s, c)
    else if c == '\n' then
      var t := s.(cur := s.cur + [c], pendingCr := false);
      if s.frameDone then Finish(t) else t
    else
      var t := s.(pendingCr := false);
      CutByte(if s.frameDone then Finish(t) else t, c)
  }

  function CutRun(s: CutState, b: Bytes): CutState
    decreases |b|
  {
    if b == "" then s else CutRun(CutStep(s, b[0]), b[1..])
  }

  /** End of input: a blank line that ended with a CR is complete. */
  function CutEnd(s: CutState): Cuts {
    var t := if s.pendingCr && s.frameDone then Finish(s) else s;
    Cuts(t.frames, t.cur)
  }

  lemma {:induction false} CutRunSplit(s: CutState, a: Bytes, b: Bytes)
    ensures CutRun(s, a + b) == CutRun(CutRun(s, a), b)
    decreases |a|
  {
    if a == "" {
      assert a + b == b;
    } else {
      assert (a + b)[1..] == a[1..] + b;
      CutRunSplit(CutStep(s, a[0]), a[1..], b);
    }
  }

  lemma CutRunPush(s: CutState, a: Bytes, c: char)
    ensures CutRun(s, a + [c]) == CutStep(CutRun(s, a), c)
  {
    CutRunSplit(s, a, [c]);
    assert [c][1..] == "";
  }

  // ------------------------------------------------- the machine meets the reference ----

  lemma {:induction false} CutPlain(s: CutState, seg: Bytes)
    requires !s.pendingCr && Plain(seg)
    ensures CutRun(s, seg) == s.(cur := s.cur + seg, lineHasData := s.lineHasData || seg != "")
    decreases |seg|
  {
    if seg == "" {
      assert s.cur + seg == s.cur;
    } else {
      assert !IsBreak(seg[0]);
      assert Plain(seg[1..]);
      CutPlain(CutStep(s, seg[0]), seg[1..]);
      assert s.cur + [seg[0]] + seg[1..] == s.cur + seg;
    }
  }

  /** What is pending after a line and its terminator: nothing, once the next byte or the end is seen. */
  function CutLine(s: CutState, b: Bytes, i: nat, n: nat): CutState
    requires i <= n <= |b|
  {
    var t := s.(cur := s.cur + b[..n], lineHasData := false);
    if i == 0 then Finish(t) else t
  }

  /** Frames put in front of an outcome. */
  function Before(frames: seq<Bytes>, c: Cuts): Cuts {
    Cuts(frames + c.frames, c.tail)
  }

  /** A CR line is over: at the end of input, or before a byte that is not LF. */
  lemma CutAfterCr(s: CutState, rest: Bytes)
    requires s.pendingCr && !s.lineHasData
    requires rest != "" ==> rest[0] != '\n'
    ensures var t := s.(pendingCr := false);
      CutEnd(CutRun(s, rest)) == CutEnd(CutRun(if s.frameDone then Finish(t) else t, rest))
  {
  }

  lemma LineSlices(cur: Bytes, b: Bytes, i: nat)
    requires i < |b|
    ensures b == b[..i] + b[i..] && b[i..][0] == b[i] && b[i..][1..] == b[i + 1..]
    ensures (cur + b[..i]) + [b[i]] == cur + b[..i + 1]
  {
  }

  /** Up to and including the first byte of the terminator. */
  lemma CutToBreak(s: CutState, b: Bytes, i: nat)
    requires !s.pendingCr && !s.lineHasData && i == FirstBreak(b) < |b|
    ensures var t := s.(cur := s.cur + b[..i], lineHasData := i > 0);
      CutRun(s, b) == CutRun(CutStep(t, b[i]), b[i + 1..])
  {
    LineSlices(s.cur, b, i);
    CutPlain(s, b[..i]);
    CutRunSplit(s, b[..i], b[i..]);
  }

  lemma CutOneLine(s: CutState, b: Bytes, i: nat, n: nat)
    requires !s.pendingCr && !s.lineHasData && !s.frameDone
    requires i == FirstBreak(b) < |b| && n == i + BreakLength(b, i)
    ensures CutEnd(CutRun(s, b)) == CutEnd(CutRun(CutLine(s, b, i, n), b[n..]))
  {
    CutToBreak(s, b, i);
    LineSlices(s.cur, b, i);
    if b[i] == '\r' {
      CutCrLine(s, b, i, n);
    }
  }

  /** A line that ends with CR, from after that CR. */
  lemma CutCrLine(s: CutState, b: Bytes, i: nat, n: nat)
    requires !s.pendingCr && !s.lineHasData && !s.frameDone
    requires i == FirstBreak(b) < |b| && n == i + BreakLength(b, i) && b[i] == '\r'
    ensures var u := s.(cur := s.cur + b[..i + 1], pendingCr := true, frameDone := i == 0);
      CutEnd(CutRun(u, b[i + 1..])) == CutEnd(CutRun(CutLine(s, b, i, n), b[n..]))
  {
    var u := s.(cur := s.cur + b[..i + 1], pendingCr := true, frameDone := i == 0);
    var rest := b[i + 1..];
    LineSlices(s.cur, b, i);
    if n == i + 2 {
      LineSlices(s.cur, b, i + 1);
      assert CutRun(u, rest) == CutRun(CutStep(u, '\n'), b[n..]);
    } else {
      CutAfterCr(u, rest);
    }
  }

  lemma {:induction false} CutRunIsCut(s: CutState, b: Bytes)
    requires !s.pendingCr && !s.lineHasData && !s.frameDone
    ensures CutEnd(CutRun(s, b)) == Before(s.frames, CutFrom(b, s.cur))
    decreases |b|
  {
    var i := FirstBreak(b);
    if i == |b| {
      assert b[..i] == b;
      CutPlain(s, b);
      assert s.frames + [] == s.frames;
    } else {
      var n := i + BreakLength(b, i);
      CutOneLine(s, b, i, n);
      CutRunIsCut(CutLine(s, b, i, n), b[n..]);
      CutFromLine(b, s.cur, i, n);
      BeforeBefore(s.frames, [s.cur + b[..n]], CutFrom(b[n..], ""));
    }
  }

  /** The byte-step reader cuts exactly the frames of the whole input. */
  lemma CutMachine(b: Bytes)
    ensures CutEnd(CutRun(CUT_START, b)) == Cut(b)
  {
    CutRunIsCut(CUT_START, b);
    assert [] + Cut(b).frames == Cut(b).frames;
  }

  // ------------------------------------------------------------------ cutting again ----

  /** One line of the whole input. */
  lemma CutFromLine(b: Bytes, cur: Bytes, i: nat, n: nat)
    requires i == FirstBreak(b) < |b| && n == i + BreakLength(b, i)
    ensures CutFrom(b, cur) == if i == 0 then Before([cur + b[..n]], CutFrom(b[n..], "")) else CutFrom(b[n..], cur + b[..n])
  {
  }

  lemma BeforeJoins(frame: Bytes, c: Cuts)
    ensures Concat(Before([frame], c).frames) + c.tail == frame + (Concat(c.frames) + c.tail)
  {
    assert ([frame] + c.frames)[1..] == c.frames;
    assert frame + Concat(c.frames) + c.tail == frame + (Concat(c.frames) + c.tail);
  }

  /** Nothing is lost by cutting. */
  lemma {:induction false} CutJoins(b: Bytes, cur: Bytes)
    ensures Concat(CutFrom(b, cur).frames) + CutFrom(b, cur).tail == cur + b
    decreases |b|
  {
    var i := FirstBreak(b);
    if i < |b| {
      var n := i + BreakLength(b, i);
      CutFromLine(b, cur, i, n);
      assert (cur + b[..n]) + b[n..] == cur + b;
      if i == 0 {
        CutJoins(b[n..], "");
        assert "" + b[n..] == b[n..];
        BeforeJoins(cur + b[..n], CutFrom(b[n..], ""));
      } else {
        CutJoins(b[n..], cur + b[..n]);
      }
    }
  }

  /** The two may stand next to each other without a CR and an LF joining into one terminator. */
  predicate Apart(x: Bytes, y: Bytes) {
    x != "" && x[|x| - 1] == '\r' && y != "" ==> y[0] != '\n'
  }

  /** One complete frame and nothing else. */
  predicate Whole(f: Bytes) {
    f != "" && Cut(f) == Cuts([f], "")
  }

  function Following(frames: seq<Bytes>, tail: Bytes, k: nat): Bytes {
    if k + 1 < |frames| then frames[k + 1] else tail
  }

  predicate Separable(frames: seq<Bytes>, tail: Bytes) {
    && (forall f | f in frames :: Whole(f))
    && (forall k | 0 <= k < |frames| :: Apart(frames[k], Following(frames, tail, k)))
    && Cut(tail) == Cuts([], tail)
  }

  /** The first line of b is still the first line when rest follows. */
  lemma FirstLineAppend(b: Bytes, rest: Bytes, i: nat, n: nat)
    requires i == FirstBreak(b) < |b| && n == i + BreakLength(b, i) && Apart(b, rest)
    ensures i == FirstBreak(b + rest) < |b + rest| && n == i + BreakLength(b + rest, i)
    ensures (b + rest)[..n] == b[..n] && (b + rest)[n..] == b[n..] + rest
  {
    FirstBreakAppend(b, rest);
    assert (b + rest)[i] == b[i];
    if i + 1 < |b| {
      assert (b + rest)[i + 1] == b[i + 1];
    } else if rest != "" {
      assert (b + rest)[i + 1] == rest[0];
    }
  }

  /** Cutting b, and then more bytes that cannot extend its last terminator. */
  lemma {:induction false} CutAppend(b: Bytes, rest: Bytes, cur: Bytes)
    requires CutFrom(b, cur).tail == "" && b != "" && Apart(b, rest)
    ensures CutFrom(b + rest, cur) == Before(CutFrom(b, cur).frames, Cut(rest))
    decreases |b|
  {
    var i := FirstBreak(b);
    var n := i + BreakLength(b, i);
    FirstLineAppend(b, rest, i, n);
    CutFromLine(b, cur, i, n);
    CutFromLine(b + rest, cur, i, n);
    var frame := cur + b[..n];
    if b[n..] == "" {
      assert CutFrom("", frame).tail == frame + "";
      assert CutFrom("", "") == Cuts([], "");
      assert Before([frame], CutFrom("", "")).frames == [frame];
      assert b[n..] + rest == rest;
    } else {
      assert b[n..][|b[n..]| - 1] == b[|b| - 1];
      if i == 0 {
        CutAppend(b[n..], rest, "");
        BeforeBefore([frame], CutFrom(b[n..], "").frames, Cut(rest));
      } else {
        CutAppend(b[n..], rest, frame);
      }
    }
  }

  lemma BeforeBefore(a: seq<Bytes>, b: seq<Bytes>, c: Cuts)
    ensures Before(a, Before(b, c)) == Before(a + b, c)
  {
    assert a + (b + c.frames) == (a + b) + c.frames;
  }

  lemma {:induction false} FirstBreakAppend(b: Bytes, rest: Bytes)
    requires FirstBreak(b) < |b|
    ensures FirstBreak(b + rest) == FirstBreak(b)
    decreases |b|
  {
    if !IsBreak(b[0]) {
      assert (b + rest)[1..] == b[1..] + rest;
      FirstBreakAppend(b[1..], rest);
    }
  }

  lemma SeparableTail(frames: seq<Bytes>, tail: Bytes)
    requires Separable(frames, tail) && frames != []
    ensures Separable(frames[1..], tail) && Whole(frames[0])
    ensures Apart(frames[0], Concat(frames[1..]) + tail)
  {
    var rest := frames[1..];
    forall k | 0 <= k < |rest| ensures Apart(rest[k], Following(rest, tail, k)) {
      assert Apart(frames[k + 1], Following(frames, tail, k + 1));
    }
    assert Apart(frames[0], Following(frames, tail, 0));
    if rest == [] {
      assert Concat(rest) + tail == tail;
    } else {
      assert rest[0] in frames;
      assert (Concat(rest) + tail)[0] == rest[0][0];
    }
    assert frames[0] in frames;
  }

  /** Separable frames, put end to end, are cut back into the same frames. */
  lemma {:induction false} CutConcat(frames: seq<Bytes>, tail: Bytes)
    requires Separable(frames, tail)
    ensures Cut(Concat(frames) + tail) == Cuts(frames, tail)
    decreases |frames|
  {
    if frames == [] {
      assert Concat(frames) + tail == tail;
    } else {
      var rest := frames[1..];
      SeparableTail(frames, tail);
      CutConcat(rest, tail);
      var more := Concat(rest) + tail;
      CutAppend(frames[0], more, "");
      Assoc(frames[0], Concat(rest), tail);
      assert [frames[0]] + rest == frames;
    }
  }

  /** Cutting cur and what follows is the same as going on from cur. */
  ghost predicate Continues(cur: Bytes) {
    forall x | Apart(cur, x) :: Cut(cur + x) == CutFrom(x, cur)
  }

  lemma {:induction false} FirstBreakIs(b: Bytes, i: nat)
    requires i < |b| && IsBreak(b[i]) && Plain(b[..i])
    ensures FirstBreak(b) == i
  {
    if i > 0 {
      assert !IsBreak(b[..i][0]);
      PlainTail(b[..i]);
      assert b[1..][..i - 1] == b[..i][1..];
      FirstBreakIs(b[1..], i - 1);
    }
  }

  lemma PlainTail(s: Bytes)
    requires Plain(s) && s != ""
    ensures Plain(s[1..])
  {
  }

  /** A line with its terminator, taken out of its context, is the same line. */
  lemma LineAlone(b: Bytes, i: nat, n: nat)
    requires i == FirstBreak(b) < |b| && n == i + BreakLength(b, i)
    ensures i == FirstBreak(b[..n]) < |b[..n]| && n == i + BreakLength(b[..n], i)
  {
    assert b[..n][..i] == b[..i];
    FirstBreakIs(b[..n], i);
  }

  lemma LineApart(b: Bytes, i: nat, n: nat)
    requires i < |b| && IsBreak(b[i]) && n == i + BreakLength(b, i)
    ensures Apart(b[..n], b[n..])
  {
    assert b[..n][|b[..n]| - 1] == b[n - 1];
  }

  /** One line and what follows it, going on from cur. */
  lemma CutLineThen(line: Bytes, x: Bytes, cur: Bytes, i: nat)
    requires i == FirstBreak(line) < |line| && |line| == i + BreakLength(line, i) && Apart(line, x)
    ensures CutFrom(line + x, cur) == if i == 0 then Before([cur + line], Cut(x)) else CutFrom(x, cur + line)
  {
    FirstLineAppend(line, x, i, |line|);
    CutFromLine(line + x, cur, i, |line|);
    assert line[..|line|] == line && line[|line|..] + x == x;
  }

  lemma ContinuesAt(cur: Bytes, line: Bytes, i: nat, x: Bytes)
    requires 0 < i == FirstBreak(line) < |line| && |line| == i + BreakLength(line, i) && Apart(line, x)
    requires Cut(cur + (line + x)) == CutFrom(line + x, cur)
    ensures Cut((cur + line) + x) == CutFrom(x, cur + line)
  {
    CutLineThen(line, x, cur, i);
    Assoc(cur, line, x);
  }

  lemma ApartLast(cur: Bytes, line: Bytes, x: Bytes)
    requires line != "" && !IsBreak(line[0]) && Apart(cur + line, x)
    ensures Apart(line, x) && Apart(cur, line + x)
  {
    assert (cur + line)[|cur + line| - 1] == line[|line| - 1];
  }

  lemma StartsPlain(line: Bytes)
    requires 0 < FirstBreak(line)
    ensures line != "" && !IsBreak(line[0])
  {
  }

  /** A frame in progress grows by a line that is not blank. */
  lemma ContinuesLine(cur: Bytes, line: Bytes, i: nat)
    requires Continues(cur) && 0 < i == FirstBreak(line) < |line| && |line| == i + BreakLength(line, i)
    ensures Continues(cur + line)
  {
    StartsPlain(line);
    forall x | Apart(cur + line, x) ensures Cut((cur + line) + x) == CutFrom(x, cur + line) {
      ApartLast(cur, line, x);
      ContinuesAt(cur, line, i, x);
    }
  }

  /** A blank line completes a frame that is whole on its own. */
  lemma BlankLineWhole(cur: Bytes, line: Bytes)
    requires Continues(cur) && Apart(cur, line) && FirstBreak(line) == 0 < |line| == BreakLength(line, 0)
    ensures Whole(cur + line)
  {
    assert line + "" == line;
    CutLineThen(line, "", cur, 0);
    assert Cut("") == Cuts([], "");
    assert Before([cur + line], Cut("")).frames == [cur + line];
  }

  lemma ApartAfter(cur: Bytes, line: Bytes, x: Bytes)
    requires line != "" && Apart(line, x)
    ensures Apart(cur + line, x)
  {
  }

  lemma ApartPrefix(cur: Bytes, b: Bytes, n: nat)
    requires n <= |b| && Apart(cur, b)
    ensures Apart(cur, b[..n])
  {
  }

  /** One line of the input, as the frame in progress sees it. */
  lemma LineStep(b: Bytes, cur: Bytes, i: nat, n: nat)
    requires Continues(cur) && Apart(cur, b)
    requires i == FirstBreak(b) < |b| && n == i + BreakLength(b, i)
    ensures Apart(cur + b[..n], b[n..])
    ensures if i > 0 then Continues(cur + b[..n]) else Whole(cur + b[..n])
  {
    var line := b[..n];
    LineAlone(b, i, n);
    LineApart(b, i, n);
    ApartAfter(cur, line, b[n..]);
    ApartPrefix(cur, b, n);
    if i > 0 {
      ContinuesLine(cur, line, i);
    } else {
      BlankLineWhole(cur, line);
    }
  }

  /** The frames of any input stand apart, and each is whole. */
  lemma {:induction false} CutSeparable(b: Bytes, cur: Bytes)
    requires Continues(cur) && Apart(cur, b)
    ensures Separable(CutFrom(b, cur).frames, CutFrom(b, cur).tail)
    decreases |b|
  {
    var i := FirstBreak(b);
    if i == |b| {
      assert Cut(cur + b) == CutFrom(b, cur);
    } else {
      var n := i + BreakLength(b, i);
      LineStep(b, cur, i, n);
      CutFromLine(b, cur, i, n);
      if i > 0 {
        CutSeparable(b[n..], cur + b[..n]);
      } else {
        EmptyContinues();
        CutSeparable(b[n..], "");
        SeparablePush(cur + b[..n], b[n..]);
      }
    }
  }

  lemma EmptyContinues()
    ensures Continues("")
  {
    forall x | Apart("", x) ensures Cut("" + x) == CutFrom(x, "") {
      assert "" + x == x;
    }
  }

  /** A frame stands apart from the first frame of what it stands apart from. */
  lemma ApartFirst(frame: Bytes, rest: Bytes)
    requires Apart(frame, rest) && forall f | f in Cut(rest).frames :: Whole(f)
    ensures Apart(frame, if Cut(rest).frames != [] then Cut(rest).frames[0] else Cut(rest).tail)
  {
    var c := Cut(rest);
    CutJoins(rest, "");
    assert "" + rest == rest;
    if c.frames != [] {
      assert Whole(c.frames[0]);
      assert rest[0] == c.frames[0][0];
    } else {
      assert Concat(c.frames) + c.tail == c.tail;
    }
  }

  lemma SeparablePush(frame: Bytes, rest: Bytes)
    requires Whole(frame) && Apart(frame, rest) && Separable(Cut(rest).frames, Cut(rest).tail)
    ensures Separable([frame] + Cut(rest).frames, Cut(rest).tail)
  {
    ApartFirst(frame, rest);
    SeparableCons(frame, Cut(rest).frames, Cut(rest).tail);
  }

  lemma SeparableCons(frame: Bytes, frames: seq<Bytes>, tail: Bytes)
    requires Whole(frame) && Separable(frames, tail) && Apart(frame, if frames != [] then frames[0] else tail)
    ensures Separable([frame] + frames, tail)
  {
    var all := [frame] + frames;
    forall k | 0 <= k < |all| ensures Apart(all[k], Following(all, tail, k)) {
      if k > 0 {
        assert Apart(frames[k - 1], Following(frames, tail, k - 1));
      }
    }
  }
}
