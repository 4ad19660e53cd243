/**
 When a Gemini stream is complete (gemini.go, geminiWire.accept and completeOnEOF): every requested
 candidate has finished, counted across however many chunks they were spread over.
 */
module GeminiWire {
  import opened Common
  import opened Failures
  import opened SseParser

  datatype Candidate = Candidate(index: int, hasParts: bool, finishes: bool)

  /** The decoded fields of one chunk; a null candidate is None. */
  datatype Chunk = Chunk(candidates: seq<Option<Candidate>>, blocks: bool, hasError: bool)

  /** Decoding one event's data, and classifying an in-band error. */
  datatype Env = Env(decode: Bytes -> Option<Chunk>, classify: Bytes -> Failure)

  datatype CandidateState = CandidateState(chunk: nat, finished: bool)

  datatype State = State(
    count: int, candidates: map<int, CandidateState>, chunk: nat, finished: nat,
    blocked: bool, failed: bool, sawContent: bool)

  function Start(count: int): State {
    State(count, map[], 0, 0, false, false, false)
  }

  datatype GOut = GOut(state: State, fail: Option<Failure>)

  /** One candidate of the chunk being read. */
  function Visit(g: State, c: Option<Candidate>): GOut {
    if c.None? then GOut(g, Some(MALFORMED)) else
    var i := c.value.index;
    if i < 0 || i >= g.count then GOut(g, Some(MALFORMED)) else
    var prior := if i in g.candidates then g.candidates[i] else CandidateState(0, false);
    if prior.chunk == g.chunk then GOut(g, Some(MALFORMED))
    else if c.value.hasParts && prior.finished then GOut(g, Some(MALFORMED))
    else
      GOut(g.(candidates := g.candidates[i := CandidateState(g.chunk, prior.finished || c.value.finishes)],
             finished := if c.value.finishes && !prior.finished then g.finished + 1 else g.finished,
             sawContent := g.sawContent || c.value.hasParts), None)
  }

  /** The first k candidates of a chunk, stopping at the first fault. */
  function Visits(g: State, cs: seq<Option<Candidate>>, k: nat): GOut
    requires k <= |cs|
  {
    if k == 0 then GOut(g, None) else
    var before := Visits(g, cs, k - 1);
    if before.fail.Some? then before else Visit(before.state, cs[k - 1])
  }

  function Accept(env: Env, g: State, ev: Event): GOut {
    if ev.data == "" then GOut(g, if ev.name == "error" then Some(MALFORMED) else None) else
    match env.decode(ev.data)
    case None => GOut(g, Some(MALFORMED))
    case Some(chunk) =>
      if ev.name == "error" || chunk.hasError then GOut(g, Some(Untold(env.classify(ev.data)))) else
      var o := Visits(g.(chunk := g.chunk + 1), chunk.candidates, |chunk.candidates|);
      if o.fail.Some? then o else GOut(o.state.(blocked := o.state.blocked || chunk.blocks), None)
  }

  /** Both paths run accept; a fault on either makes the stream incomplete for good. */
  function Ingest(env: Env, g: State, ev: Event): GOut {
    var o := Accept(env, g, ev);
    GOut(o.state.(failed := o.state.failed || o.fail.Some?), o.fail)
  }

  function Run(env: Env, g: State, evs: seq<Event>): State
    decreases |evs|
  {
    if evs == [] then g else Run(env, Ingest(env, g, evs[0]).state, evs[1..])
  }

  predicate CompleteOnEof(g: State) {
    !g.failed && if g.blocked then |g.candidates| == 0 else g.finished == g.count
  }

  // ---------------------------------------------------------------------- the class ----

  class Wire {
    const env: Env
    const candidateCount: int
    var candidates: map<int, CandidateState>
    var chunk: nat
    var finished: nat
    var blocked: bool
    var failed: bool
    var sawContent: bool

    function Abs(): State
      reads this
    {
      State(candidateCount, candidates, chunk, finished, blocked, failed, sawContent)
    }

    constructor (env: Env, count: int)
      ensures this.env == env && Abs() == Start(count)
    {
      this.env, candidateCount := env, count;
      candidates, chunk, finished, blocked, failed, sawContent := map[], 0, 0, false, false, false;
    }

    /** One candidate of the chunk being read. */
    method VisitCandidate(c: Option<Candidate>) returns (fail: Option<Failure>)
      modifies this`candidates, this`finished, this`sawContent
      ensures GOut(Abs(), fail) == Visit(old(Abs()), c)
    {
      if c.None? {
        return Some(MALFORMED);
      }
      var index := c.value.index;
      if index < 0 || index >= candidateCount {
        return Some(MALFORMED);
      }
      var state := if index in candidates then candidates[index] else CandidateState(0, false);
      if state.chunk == chunk {
        return Some(MALFORMED);
      }
      state := state.(chunk := chunk);
      if c.value.hasParts {
        if state.finished {
          return Some(MALFORMED);
        }
        sawContent := true;
      }
      if c.value.finishes && !state.finished {
        state := state.(finished := true);
        finished := finished + 1;
      }
      candidates := candidates[index := state];
      return None;
    }

    method AcceptEvent(ev: Event) returns (fail: Option<Failure>)
      modifies this
      ensures GOut(Abs(), fail) == Accept(env, old(Abs()), ev)
    {
      if ev.data == "" && ev.name != "error" {
        return None;
      }
      if ev.data == "" {
        return Some(MALFORMED);
      }
      var decoded := env.decode(ev.data);
      if decoded.None? {
        return Some(MALFORMED);
      }
      var c := decoded.value;
      if ev.name == "error" || c.hasError {
        return Some(Untold(env.classify(ev.data)));
      }
      chunk := chunk + 1;
      ghost var g := Abs();
      for k := 0 to |c.candidates|
        invariant GOut(Abs(), None) == Visits(g, c.candidates, k)
      {
        var fail := VisitCandidate(c.candidates[k]);
        if fail.Some? {
          VisitsStop(g, c.candidates, k + 1, |c.candidates|);
          return fail;
        }
      }
      if c.blocks {
        blocked := true;
      }
      return None;
    }
  }

  lemma {:induction false} VisitsStop(g: State, cs: seq<Option<Candidate>>, k: nat, n: nat)
    requires k <= n <= |cs| && Visits(g, cs, k).fail.Some?
    ensures Visits(g, cs, n) == Visits(g, cs, k)
    decreases n - k
  {
    if k < n {
      VisitsStop(g, cs, k, n - 1);
    }
  }

  // ---------------------------------------------------------------- the cardinality ----

  function FinishedSet(g: State): set<int> {
    set i | i in g.candidates && g.candidates[i].finished
  }

  /** The invariant of every reachable state. */
  ghost predicate Counted(g: State) {
    && g.finished == |FinishedSet(g)|
    && (forall i | i in g.candidates :: 0 <= i < g.count && g.candidates[i].chunk <= g.chunk)
  }

  lemma VisitCounted(g: State, c: Option<Candidate>)
    requires Counted(g)
    ensures Counted(Visit(g, c).state)
    ensures Visit(g, c).fail.None? ==>
      FinishedSet(Visit(g, c).state) == FinishedSet(g) + if c.value.finishes then {c.value.index} else {}
  {
    var o := Visit(g, c);
    if o.fail.None? {
      var i := c.value.index;
      FinishedInsert(g, o.state, i);
      OneMoreOf(FinishedSet(g), i);
    }
  }

  lemma OneMoreOf(s: set<int>, i: int)
    ensures if i in s then s + {i} == s else s - {i} == s && |s + {i}| == |s| + 1
  {
  }

  /** One candidate is recorded. */
  lemma FinishedInsert(g: State, h: State, i: int)
    requires i in h.candidates && h.candidates == g.candidates[i := h.candidates[i]]
    ensures FinishedSet(h) == if h.candidates[i].finished then FinishedSet(g) + {i} else FinishedSet(g) - {i}
    ensures i in FinishedSet(g) <==> i in g.candidates && g.candidates[i].finished
  {
  }

  /** The indices that the first k candidates finish. */
  function Finishing(cs: seq<Option<Candidate>>, k: nat): set<int>
    requires k <= |cs|
  {
    if k == 0 then {} else
    Finishing(cs, k - 1) + if cs[k - 1].Some? && cs[k - 1].value.finishes then {cs[k - 1].value.index} else {}
  }

  lemma UnionAssociates(a: set<int>, b: set<int>, c: set<int>)
    ensures (a + b) + c == a + (b + c)
  {
  }

  lemma {:induction false} VisitsCounted(g: State, cs: seq<Option<Candidate>>, k: nat)
    requires Counted(g) && k <= |cs|
    ensures Counted(Visits(g, cs, k).state)
    ensures Visits(g, cs, k).fail.None? ==> FinishedSet(Visits(g, cs, k).state) == FinishedSet(g) + Finishing(cs, k)
  {
    if k == 0 {
      assert FinishedSet(g) + {} == FinishedSet(g);
    } else {
      VisitsCounted(g, cs, k - 1);
      var before := Visits(g, cs, k - 1);
      if before.fail.None? {
        VisitCounted(before.state, cs[k - 1]);
        if Visit(before.state, cs[k - 1]).fail.None? {
          UnionAssociates(FinishedSet(g), Finishing(cs, k - 1), if cs[k - 1].value.finishes then {cs[k - 1].value.index} else {});
        }
      }
    }
  }

  lemma {:induction false} VisitsKeep(g: State, cs: seq<Option<Candidate>>, k: nat)
    requires k <= |cs|
    ensures var r := Visits(g, cs, k).state;
      r.count == g.count && r.chunk == g.chunk && r.blocked == g.blocked && r.failed == g.failed
  {
    if k > 0 {
      VisitsKeep(g, cs, k - 1);
    }
  }

  /** The indices that the chunk in one event finishes. */
  function FinishedIn(env: Env, ev: Event): set<int> {
    if ev.data == "" || env.decode(ev.data).None? then {} else
    var cs := env.decode(ev.data).value.candidates;
    Finishing(cs, |cs|)
  }

  /** The indices finished by the chunks of a whole history. */
  function FinishedBy(env: Env, evs: seq<Event>): set<int>
    decreases |evs|
  {
    if evs == [] then {} else FinishedBy(env, evs[..|evs| - 1]) + FinishedIn(env, evs[|evs| - 1])
  }

  lemma ChunkCounted(g: State, cs: seq<Option<Candidate>>)
    requires Counted(g)
    ensures var o := Visits(g.(chunk := g.chunk + 1), cs, |cs|);
      && Counted(o.state) && o.state.count == g.count && o.state.failed == g.failed
      && (o.fail.None? ==> FinishedSet(o.state) == FinishedSet(g) + Finishing(cs, |cs|))
  {
    var h := g.(chunk := g.chunk + 1);
    assert FinishedSet(h) == FinishedSet(g);
    VisitsCounted(h, cs, |cs|);
    VisitsKeep(h, cs, |cs|);
  }

  lemma IngestCounted(env: Env, g: State, ev: Event)
    requires Counted(g)
    ensures var o := Ingest(env, g, ev);
      && Counted(o.state) && o.state.count == g.count
      && (o.fail.None? ==> FinishedSet(o.state) == FinishedSet(g) + FinishedIn(env, ev))
      && (o.state.failed <==> g.failed || o.fail.Some?)
  {
    if ev.data != "" && env.decode(ev.data).Some? {
      ChunkCounted(g, env.decode(ev.data).value.candidates);
    }
    var o := Accept(env, g, ev).state;
    var r := Ingest(env, g, ev).state;
    assert FinishedSet(r) == FinishedSet(o);
    assert FinishedSet(g) + {} == FinishedSet(g);
  }

  lemma {:induction false} RunPush(env: Env, g: State, evs: seq<Event>, ev: Event)
    ensures Run(env, g, evs + [ev]) == Ingest(env, Run(env, g, evs), ev).state
    decreases |evs|
  {
    if evs == [] {
      assert [] + [ev] == [ev] && [ev][1..] == [];
    } else {
      assert (evs + [ev])[0] == evs[0] && (evs + [ev])[1..] == evs[1..] + [ev];
      RunPush(env, Ingest(env, g, evs[0]).state, evs[1..], ev);
    }
  }

  /** After any history the counter is the number of finished candidates, and without a fault they are
      the ones that its chunks finished. */
  lemma {:induction false} RunCounted(env: Env, g: State, evs: seq<Event>)
    requires Counted(g)
    ensures var r := Run(env, g, evs);
      && Counted(r) && r.count == g.count && (g.failed ==> r.failed)
      && (!r.failed ==> FinishedSet(r) == FinishedSet(g) + FinishedBy(env, evs))
    decreases |evs|
  {
    if evs == [] {
      assert FinishedSet(g) + {} == FinishedSet(g);
    } else {
      var init, ev := evs[..|evs| - 1], evs[|evs| - 1];
      assert evs == init + [ev];
      RunCounted(env, g, init);
      RunPush(env, g, init, ev);
      IngestCounted(env, Run(env, g, init), ev);
      UnionAssociates(FinishedSet(g), FinishedBy(env, init), FinishedIn(env, ev));
    }
  }

  // ----------------------------------------------------------- the history, on its own ----

  /** The indices of the first k candidates. */
  function Indices(cs: seq<Option<Candidate>>, k: nat): set<int>
    requires k <= |cs|
  {
    set j | 0 <= j < k && cs[j].Some? :: cs[j].value.index
  }

  /** The candidate at k is null, out of range, a second one of its chunk, or speaks after its end. */
  predicate Faulty(count: int, finished: set<int>, cs: seq<Option<Candidate>>, k: nat)
    requires k < |cs|
  {
    cs[k].None? ||
    var c := cs[k].value;
    c.index < 0 || c.index >= count || c.index in Indices(cs, k) || (c.hasParts && c.index in finished)
  }

  ghost predicate Sound(count: int, finished: set<int>, cs: seq<Option<Candidate>>) {
    forall k | 0 <= k < |cs| :: !Faulty(count, finished, cs, k)
  }

  /** The event is no chunk, an error, or holds a faulty candidate, `finished` being done before it. */
  ghost predicate FaultIn(env: Env, count: int, finished: set<int>, ev: Event) {
    if ev.data == "" then ev.name == "error"
    else
      || env.decode(ev.data).None? || ev.name == "error" || env.decode(ev.data).value.hasError
      || !Sound(count, finished, env.decode(ev.data).value.candidates)
  }

  predicate BlocksIn(env: Env, ev: Event) {
    ev.data != "" && env.decode(ev.data).Some? && env.decode(ev.data).value.blocks
  }

  function CandidatesIn(env: Env, ev: Event): set<int> {
    if ev.data == "" || env.decode(ev.data).None? then {} else
    var cs := env.decode(ev.data).value.candidates;
    Indices(cs, |cs|)
  }

  ghost predicate Faultless(env: Env, count: int, evs: seq<Event>) {
    forall k | 0 <= k < |evs| :: !FaultIn(env, count, FinishedBy(env, evs[..k]), evs[k])
  }

  predicate Blocked(env: Env, evs: seq<Event>) {
    exists k | 0 <= k < |evs| :: BlocksIn(env, evs[k])
  }

  predicate NoCandidates(env: Env, evs: seq<Event>) {
    forall k | 0 <= k < |evs| :: CandidatesIn(env, evs[k]) == {}
  }

  /** What answers a request: no fault, and every requested candidate finished by some chunk; or a chunk
      that blocks the prompt, and no candidate in any. */
  ghost predicate Answered(env: Env, count: int, evs: seq<Event>) {
    && Faultless(env, count, evs)
    && if Blocked(env, evs) then NoCandidates(env, evs) else FinishedBy(env, evs) == Range(count)
  }

  /** The candidates of the first k are marked with the chunk; all others are untouched. */
  ghost predicate Marked(g: State, r: State, cs: seq<Option<Candidate>>, k: nat)
    requires k <= |cs|
  {
    && r.candidates.Keys == g.candidates.Keys + Indices(cs, k)
    && forall i | i in r.candidates ::
         if i in Indices(cs, k) then r.candidates[i].chunk == g.chunk
         else i in g.candidates && r.candidates[i] == g.candidates[i]
  }

  lemma IndicesPush(cs: seq<Option<Candidate>>, k: nat)
    requires 0 < k <= |cs|
    ensures Indices(cs, k) == Indices(cs, k - 1) + if cs[k - 1].Some? then {cs[k - 1].value.index} else {}
  {
  }

  /** One candidate of a fresh chunk. */
  lemma VisitMarks(g: State, r: State, cs: seq<Option<Candidate>>, k: nat)
    requires 0 < k <= |cs| && Marked(g, r, cs, k - 1) && r.chunk == g.chunk && r.count == g.count
    requires g.chunk > 0 && forall i | i in g.candidates :: g.candidates[i].chunk < g.chunk
    ensures Visit(r, cs[k - 1]).fail.Some? <==> Faulty(g.count, FinishedSet(g), cs, k - 1)
    ensures Visit(r, cs[k - 1]).fail.None? ==> Marked(g, Visit(r, cs[k - 1]).state, cs, k)
  {
    IndicesPush(cs, k);
    if cs[k - 1].Some? {
      var i := cs[k - 1].value.index;
      assert i in r.candidates && i !in Indices(cs, k - 1) ==> r.candidates[i] == g.candidates[i];
      assert i in FinishedSet(g) <==> i in g.candidates && g.candidates[i].finished;
    }
  }

  lemma {:induction false} VisitsMark(g: State, cs: seq<Option<Candidate>>, k: nat)
    requires k <= |cs| && g.chunk > 0 && forall i | i in g.candidates :: g.candidates[i].chunk < g.chunk
    ensures var o := Visits(g, cs, k);
      && (o.fail.None? <==> forall j | 0 <= j < k :: !Faulty(g.count, FinishedSet(g), cs, j))
      && (o.fail.None? ==> Marked(g, o.state, cs, k))
  {
    if k == 0 {
      assert Indices(cs, 0) == {};
    } else {
      VisitsMark(g, cs, k - 1);
      VisitsKeep(g, cs, k - 1);
      var before := Visits(g, cs, k - 1);
      if before.fail.None? {
        VisitMarks(g, before.state, cs, k);
      }
    }
  }

  /** One chunk, in terms of its own candidates. */
  lemma ChunkMarks(g: State, cs: seq<Option<Candidate>>)
    requires Counted(g)
    ensures var h := g.(chunk := g.chunk + 1);
      var o := Visits(h, cs, |cs|);
      && (o.fail.None? <==> Sound(g.count, FinishedSet(g), cs))
      && (o.fail.None? ==> o.state.candidates.Keys == g.candidates.Keys + Indices(cs, |cs|) && o.state.blocked == g.blocked)
  {
    var h := g.(chunk := g.chunk + 1);
    assert FinishedSet(h) == FinishedSet(g);
    VisitsMark(h, cs, |cs|);
    VisitsKeep(h, cs, |cs|);
  }

  lemma AcceptMarks(env: Env, g: State, ev: Event)
    requires Counted(g)
    ensures var o := Accept(env, g, ev);
      && (o.fail.Some? <==> FaultIn(env, g.count, FinishedSet(g), ev)) && o.state.failed == g.failed
      && (o.fail.None? ==>
            && (o.state.blocked <==> g.blocked || BlocksIn(env, ev))
            && o.state.candidates.Keys == g.candidates.Keys + CandidatesIn(env, ev))
  {
    if ev.data == "" || env.decode(ev.data).None? {
      assert g.candidates.Keys + {} == g.candidates.Keys;
    } else {
      ChunkMarks(g, env.decode(ev.data).value.candidates);
      ChunkCounted(g, env.decode(ev.data).value.candidates);
    }
  }

  lemma IngestMarks(env: Env, g: State, ev: Event)
    requires Counted(g)
    ensures var o := Ingest(env, g, ev);
      && (o.fail.Some? <==> FaultIn(env, g.count, FinishedSet(g), ev))
      && (o.state.failed <==> g.failed || o.fail.Some?)
      && (o.fail.None? ==>
            && (o.state.blocked <==> g.blocked || BlocksIn(env, ev))
            && o.state.candidates.Keys == g.candidates.Keys + CandidatesIn(env, ev))
  {
    AcceptMarks(env, g, ev);
  }

  /** The state says of a history what the history says of itself. */
  ghost predicate Tells(env: Env, count: int, evs: seq<Event>, r: State) {
    && (r.failed <==> !Faultless(env, count, evs))
    && (!r.failed ==>
          && (r.blocked <==> Blocked(env, evs))
          && (r.candidates.Keys == {} <==> NoCandidates(env, evs)))
  }

  lemma FaultlessPush(env: Env, count: int, init: seq<Event>, ev: Event)
    ensures var evs := init + [ev];
      && (Faultless(env, count, evs) <==> Faultless(env, count, init) && !FaultIn(env, count, FinishedBy(env, init), ev))
      && (Blocked(env, evs) <==> Blocked(env, init) || BlocksIn(env, ev))
      && (NoCandidates(env, evs) <==> NoCandidates(env, init) && CandidatesIn(env, ev) == {})
  {
    var evs := init + [ev];
    assert evs[..|init|] == init && evs[|init|] == ev;
    forall k | 0 <= k < |init| ensures evs[..k] == init[..k] && evs[k] == init[k] {
    }
    if Faultless(env, count, evs) {
      forall k | 0 <= k < |init| ensures !FaultIn(env, count, FinishedBy(env, init[..k]), init[k]) {
        assert !FaultIn(env, count, FinishedBy(env, evs[..k]), evs[k]);
      }
      assert !FaultIn(env, count, FinishedBy(env, evs[..|init|]), evs[|init|]);
    }
    if NoCandidates(env, evs) {
      assert CandidatesIn(env, evs[|init|]) == {};
    }
    if Blocked(env, init) {
      var k :| 0 <= k < |init| && BlocksIn(env, init[k]);
      assert BlocksIn(env, evs[k]);
    }
    if BlocksIn(env, ev) {
      assert BlocksIn(env, evs[|init|]);
    }
  }

  lemma TellsPush(env: Env, count: int, init: seq<Event>, ev: Event, g: State)
    requires Counted(g) && g.count == count && Tells(env, count, init, g)
    requires !g.failed ==> FinishedSet(g) == FinishedBy(env, init)
    ensures Tells(env, count, init + [ev], Ingest(env, g, ev).state)
  {
    FaultlessPush(env, count, init, ev);
    IngestMarks(env, g, ev);
  }

  lemma {:induction false} RunTells(env: Env, count: int, evs: seq<Event>)
    ensures Tells(env, count, evs, Run(env, Start(count), evs))
    decreases |evs|
  {
    var g := Start(count);
    assert FinishedSet(g) == {};
    if evs != [] {
      var init, ev := evs[..|evs| - 1], evs[|evs| - 1];
      assert evs == init + [ev];
      RunTells(env, count, init);
      RunPush(env, g, init, ev);
      RunCounted(env, g, init);
      TellsPush(env, count, init, ev, Run(env, g, init));
    }
  }

  function Range(n: int): (s: set<int>)
    ensures n >= 0 ==> |s| == n
    ensures forall i :: i in s <==> 0 <= i < n
  {
    if n <= 0 then {} else
    assert n - 1 !in Range(n - 1);
    Range(n - 1) + {n - 1}
  }

  lemma SubsetFull(s: set<int>, t: set<int>)
    requires s <= t
    ensures |s| == |t| <==> s == t
  {
    assert t == s + (t - s);
    assert s !! (t - s);
  }

  /** A clean end of transport completes the response if and only if the history answers the request. */
  lemma Completion(env: Env, count: int, evs: seq<Event>)
    requires count >= 1
    ensures CompleteOnEof(Run(env, Start(count), evs)) <==> Answered(env, count, evs)
  {
    var g := Start(count);
    var r := Run(env, g, evs);
    assert FinishedSet(g) == {};
    RunCounted(env, g, evs);
    RunTells(env, count, evs);
    if !r.failed {
      assert FinishedSet(r) == FinishedBy(env, evs);
      assert FinishedSet(r) <= Range(count);
      SubsetFull(FinishedSet(r), Range(count));
      assert |r.candidates| == 0 <==> r.candidates.Keys == {};
    }
  }
}
