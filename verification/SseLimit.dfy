/**
 The limit on the size of a frame (sse.go, appendRaw), told without the parser's own test: a document is a
 list of frames, and the parser emits the records of those before the first one that is too long.
 */
module SseLimit {
  import opened Common
  import opened SseParser
  import opened SseDocument

  /** One frame, terminator and all, and the record in it if there is one; the last frame may be unfinished. */
  datatype Piece = Piece(bytes: Bytes, records: seq<Event>)

  /** The frames of the rest of a document, `raw` and `cur` belonging to the first of them. */
  function Pieces(b: Bytes, raw: Bytes, started: bool, cur: Cur): (ps: seq<Piece>)
    ensures ps != [] && |ps[0].bytes| >= |raw|
    decreases |b|
  {
    var i := FirstBreak(b);
    if i == |b| then [Piece(raw + b, [])] else
    var n := i + BreakLength(b, i);
    var frame := raw + b[..n];
    var line := if started then b[..i] else StripBom(b[..i]);
    if line == "" then
      [Piece(frame, if cur.has then [Event(cur.name, cur.data, frame)] else [])] + Pieces(b[n..], "", true, NO_RECORD)
    else Pieces(b[n..], frame, true, Field(cur, line))
  }

  function RecordsOf(ps: seq<Piece>): seq<Event> {
    if ps == [] then [] else ps[0].records + RecordsOf(ps[1..])
  }

  function BytesOf(ps: seq<Piece>): Bytes {
    if ps == [] then "" else ps[0].bytes + BytesOf(ps[1..])
  }

  /** The first n frames are within the limit, and the next one, if there is one, is not. */
  predicate Within(ps: seq<Piece>, max: int, n: nat) {
    && n <= |ps|
    && (forall k | 0 <= k < n :: |ps[k].bytes| <= max)
    && (n < |ps| ==> |ps[n].bytes| > max)
  }

  /** How many frames come before the first that is too long. */
  function Fitting(ps: seq<Piece>, max: int): (n: nat)
    ensures Within(ps, max, n)
  {
    if ps == [] || |ps[0].bytes| > max then 0 else
    var n := Fitting(ps[1..], max);
    assert forall k | 0 < k < n + 1 :: ps[k] == ps[1..][k - 1];
    n + 1
  }

  lemma {:induction false} PiecesJoin(b: Bytes, raw: Bytes, started: bool, cur: Cur)
    ensures BytesOf(Pieces(b, raw, started, cur)) == raw + b
    decreases |b|
  {
    var i := FirstBreak(b);
    if i == |b| {
      assert [Piece(raw + b, [])][1..] == [];
      EmptyPlus(raw + b);
    } else {
      var n := i + BreakLength(b, i);
      var line := if started then b[..i] else StripBom(b[..i]);
      TakeDrop(b, n);
      Assoc(raw, b[..n], b[n..]);
      if line == "" {
        PiecesJoin(b[n..], "", true, NO_RECORD);
        EmptyPlus(b[n..]);
        assert Pieces(b, raw, started, cur)[1..] == Pieces(b[n..], "", true, NO_RECORD);
      } else {
        PiecesJoin(b[n..], raw + b[..n], true, Field(cur, line));
      }
    }
  }

  /** What these frames give under a limit. */
  function UpTo(ps: seq<Piece>, max: int): Parsed {
    Parsed(RecordsOf(ps[..Fitting(ps, max)]), Fitting(ps, max) < |ps|)
  }

  lemma UpToCons(p: Piece, rest: seq<Piece>, max: int)
    ensures UpTo([p] + rest, max) ==
      if |p.bytes| > max then Parsed([], true) else Parsed(p.records + UpTo(rest, max).events, UpTo(rest, max).failed)
  {
    var all := [p] + rest;
    assert all[1..] == rest;
    if |p.bytes| <= max {
      assert all[..1 + Fitting(rest, max)][1..] == rest[..Fitting(rest, max)];
    }
  }

  lemma UpToNone(ps: seq<Piece>, max: int)
    requires ps != [] && |ps[0].bytes| > max
    ensures UpTo(ps, max) == Parsed([], true)
  {
  }

  /** What reading with a limit gives, by the frames. */
  predicate Limited(max: int, b: Bytes, raw: Bytes, started: bool, cur: Cur) {
    Lines(max, b, raw, started, cur) == UpTo(Pieces(b, raw, started, cur), max)
  }

  lemma UnfinishedLimited(max: int, b: Bytes, raw: Bytes, started: bool, cur: Cur)
    requires max > 0 && FirstBreak(b) == |b|
    ensures Limited(max, b, raw, started, cur)
  {
    var p := Piece(raw + b, []);
    assert [p] == [p] + [];
    UpToCons(p, [], max);
  }

  lemma PiecesUnfold(b: Bytes, raw: Bytes, started: bool, cur: Cur, i: nat, n: nat)
    requires i == FirstBreak(b) < |b| && n == i + BreakLength(b, i)
    ensures var frame, line := raw + b[..n], if started then b[..i] else StripBom(b[..i]);
      Pieces(b, raw, started, cur) ==
        if line == "" then
          [Piece(frame, if cur.has then [Event(cur.name, cur.data, frame)] else [])] + Pieces(b[n..], "", true, NO_RECORD)
        else Pieces(b[n..], frame, true, Field(cur, line))
  {
  }

  /** One line of the document, the rest being understood. */
  lemma LineLimited(max: int, b: Bytes, raw: Bytes, started: bool, cur: Cur, i: nat, n: nat)
    requires max > 0 && i == FirstBreak(b) < |b| && n == i + BreakLength(b, i)
    requires var line := if started then b[..i] else StripBom(b[..i]);
      if line == "" then Limited(max, b[n..], "", true, NO_RECORD) else Limited(max, b[n..], raw + b[..n], true, Field(cur, line))
    ensures Limited(max, b, raw, started, cur)
  {
    var frame, line := raw + b[..n], if started then b[..i] else StripBom(b[..i]);
    LinesUnfold(max, b, raw, started, cur, i, n);
    PiecesUnfold(b, raw, started, cur, i, n);
    if line == "" {
      UpToCons(Piece(frame, if cur.has then [Event(cur.name, cur.data, frame)] else []), Pieces(b[n..], "", true, NO_RECORD), max);
    } else if |frame| > max {
      UpToNone(Pieces(b[n..], frame, true, Field(cur, line)), max);
    }
  }

  /** Reading with a limit gives the records of the frames before the first that is too long, and fails if and
      only if there is one. */
  lemma {:induction false} LinesLimited(max: int, b: Bytes, raw: Bytes, started: bool, cur: Cur)
    requires max > 0
    ensures Limited(max, b, raw, started, cur)
    decreases |b|
  {
    var i := FirstBreak(b);
    if i == |b| {
      UnfinishedLimited(max, b, raw, started, cur);
    } else {
      var n := i + BreakLength(b, i);
      var line := if started then b[..i] else StripBom(b[..i]);
      if line == "" {
        LinesLimited(max, b[n..], "", true, NO_RECORD);
      } else {
        LinesLimited(max, b[n..], raw + b[..n], true, Field(cur, line));
      }
      LineLimited(max, b, raw, started, cur, i, n);
    }
  }

  /** Within the first n frames no record is longer than its frame. */
  lemma {:induction false} RecordsFit(ps: seq<Piece>, max: int)
    requires forall p | p in ps :: |p.bytes| <= max && forall e | e in p.records :: e.raw == p.bytes
    ensures forall e | e in RecordsOf(ps) :: |e.raw| <= max
  {
    if ps != [] {
      assert ps[0] in ps && forall p | p in ps[1..] :: p in ps;
      RecordsFit(ps[1..], max);
    }
  }

  lemma {:induction false} OwnRecords(b: Bytes, raw: Bytes, started: bool, cur: Cur)
    ensures forall p | p in Pieces(b, raw, started, cur) :: forall e | e in p.records :: e.raw == p.bytes
    decreases |b|
  {
    var i := FirstBreak(b);
    if i < |b| {
      var n := i + BreakLength(b, i);
      var line := if started then b[..i] else StripBom(b[..i]);
      if line == "" {
        OwnRecords(b[n..], "", true, NO_RECORD);
      } else {
        OwnRecords(b[n..], raw + b[..n], true, Field(cur, line));
      }
    }
  }

  /** With a limit the parser emits the records of the frames before the first one that is longer, none of them
      longer than the limit, and fails if and only if there is such a frame, complete or not. */
  lemma LimitExact(max: int, b: Bytes)
    requires max > 0
    ensures var ps, o := Pieces(b, "", false, NO_RECORD), Feed(max, Fresh(false), b, true);
      && BytesOf(ps) == b
      && (o.state.Failed? <==> exists p :: p in ps && |p.bytes| > max)
      && o.events == RecordsOf(ps[..Fitting(ps, max)])
      && forall e | e in o.events :: |e.raw| <= max
  {
    var ps := Pieces(b, "", false, NO_RECORD);
    var n := Fitting(ps, max);
    FeedIsLines(max, Fresh(false), b);
    LinesLimited(max, b, "", false, NO_RECORD);
    PiecesJoin(b, "", false, NO_RECORD);
    EmptyPlus(b);
    OwnRecords(b, "", false, NO_RECORD);
    assert forall p | p in ps[..n] :: p in ps && |p.bytes| <= max;
    RecordsFit(ps[..n], max);
    if n < |ps| {
      assert ps[n] in ps;
    }
  }
}
