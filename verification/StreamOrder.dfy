/**
 The order of the events of an Anthropic stream (sse.go, streamValidator): the validator's running
 verdict, and what a complete stream looks like as a whole.
 */
module StreamOrder {
  import opened Common
  import opened SseParser

  datatype Kind = MessageStart | BlockStart | BlockStop | Delta | MessageStop | Other

  function KindOf(name: Bytes): Kind {
    match name
    case "message_start" => MessageStart
    case "content_block_start" => BlockStart
    case "content_block_stop" => BlockStop
    case "content_block_delta" => Delta
    case "message_delta" => Delta
    case "message_stop" => MessageStop
    case _ => Other
  }

  function Kinds(evs: seq<Event>): (ks: seq<Kind>)
    ensures |ks| == |evs|
  {
    seq(|evs|, i requires 0 <= i < |evs| => KindOf(evs[i].name))
  }

  datatype Order = Order(sawStart: bool, open: int, sawStop: bool, invalid: bool)

  const O_START := Order(false, 0, false, false)

  function OStep(v: Order, k: Kind): Order {
    match k
    case MessageStart => v.(invalid := v.invalid || v.sawStart || v.sawStop, sawStart := true)
    case BlockStart => v.(invalid := v.invalid || !v.sawStart || v.sawStop, open := v.open + 1)
    case BlockStop =>
      if v.open <= 0 || v.sawStop then v.(invalid := true) else v.(open := v.open - 1)
    case Delta => v.(invalid := v.invalid || !v.sawStart || v.sawStop)
    case MessageStop => v.(invalid := v.invalid || !v.sawStart || v.open != 0, sawStop := true)
    case Other => v
  }

  predicate Terminal(v: Order) {
    v.sawStart && v.sawStop && v.open == 0 && !v.invalid
  }

  function ORun(ks: seq<Kind>): Order {
    if ks == [] then O_START else OStep(ORun(ks[..|ks| - 1]), ks[|ks| - 1])
  }

  // -------------------------------------------------------------- the whole stream ----

  function Count(ks: seq<Kind>, k: Kind): nat {
    if ks == [] then 0 else Count(ks[..|ks| - 1], k) + (if ks[|ks| - 1] == k then 1 else 0)
  }

  /** The open blocks after a prefix of the stream. */
  function Depth(ks: seq<Kind>): int {
    Count(ks, BlockStart) - Count(ks, BlockStop)
  }

  predicate AfterStart(ks: seq<Kind>, i: nat)
    requires i < |ks|
  {
    ks[i].BlockStart? || ks[i].Delta? ==> MessageStart in ks[..i]
  }

  predicate DepthAt(ks: seq<Kind>, i: nat)
    requires i <= |ks|
  {
    Depth(ks[..i]) >= 0
  }

  /** One message_start, before everything that belongs to the message; blocks nest to zero or more
      open ones at every point. */
  ghost predicate Opened(ks: seq<Kind>) {
    && Count(ks, MessageStart) <= 1
    && (forall i | 0 <= i < |ks| :: AfterStart(ks, i))
    && (forall i | 0 <= i <= |ks| :: DepthAt(ks, i))
  }

  /** A complete stream: it ends with its only message_stop, when every block is closed. */
  ghost predicate CompleteStream(ks: seq<Kind>) {
    && ks != [] && ks[|ks| - 1].MessageStop? && Count(ks, MessageStop) == 1
    && Opened(ks) && Count(ks, MessageStart) == 1 && Depth(ks) == 0
  }

  lemma {:induction false} CountIn(ks: seq<Kind>, k: Kind)
    ensures k in ks <==> Count(ks, k) > 0
  {
    if ks != [] {
      CountIn(ks[..|ks| - 1], k);
      assert ks == ks[..|ks| - 1] + [ks[|ks| - 1]];
    }
  }

  /** Positions inside of a prefix. */
  lemma PrefixAt(ks: seq<Kind>, k: Kind, i: nat)
    requires i <= |ks|
    ensures DepthAt(ks + [k], i) <==> DepthAt(ks, i)
    ensures i < |ks| ==> (AfterStart(ks + [k], i) <==> AfterStart(ks, i))
  {
    assert (ks + [k])[..i] == ks[..i];
  }

  lemma LastAt(ks: seq<Kind>, k: Kind)
    ensures DepthAt(ks + [k], |ks| + 1) <==> Depth(ks + [k]) >= 0
    ensures AfterStart(ks + [k], |ks|) <==> (k.BlockStart? || k.Delta? ==> MessageStart in ks)
  {
    assert (ks + [k])[..|ks| + 1] == ks + [k] && (ks + [k])[..|ks|] == ks;
  }

  lemma OpenedPush(ks: seq<Kind>, k: Kind)
    ensures Opened(ks + [k]) <==>
      Opened(ks) && Count(ks + [k], MessageStart) <= 1 && Depth(ks + [k]) >= 0 && (k.BlockStart? || k.Delta? ==> MessageStart in ks)
  {
    var all := ks + [k];
    forall i | 0 <= i <= |ks| ensures DepthAt(all, i) <==> DepthAt(ks, i)
                              ensures i < |ks| ==> (AfterStart(all, i) <==> AfterStart(ks, i)) {
      PrefixAt(ks, k, i);
    }
    LastAt(ks, k);
    CountPush(ks, k);
    if Opened(all) {
      assert DepthAt(all, |ks| + 1) && AfterStart(all, |ks|);
      assert forall i | 0 <= i <= |ks| :: DepthAt(all, i);
      assert forall i | 0 <= i < |ks| :: AfterStart(all, i);
    }
  }

  lemma OpenedDepth(ks: seq<Kind>)
    requires Opened(ks)
    ensures Depth(ks) >= 0
  {
    assert DepthAt(ks, |ks|) && ks[..|ks|] == ks;
  }

  lemma CountPush(ks: seq<Kind>, k: Kind)
    ensures Count(ks + [k], MessageStart) >= Count(ks, MessageStart)
  {
    assert (ks + [k])[..|ks|] == ks;
  }

  /** Before any message_stop the running verdict is exact. */
  lemma {:induction false} RunIsOpened(ks: seq<Kind>)
    requires MessageStop !in ks
    ensures var v := ORun(ks);
      && (!v.invalid <==> Opened(ks))
      && (v.sawStart <==> MessageStart in ks) && !v.sawStop
      && (!v.invalid ==> v.open == Depth(ks))
  {
    if ks != [] {
      var init, k := ks[..|ks| - 1], ks[|ks| - 1];
      assert ks == init + [k];
      assert ks[..|ks| - 1] == init;
      RunIsOpened(init);
      OpenedPush(init, k);
      if Opened(init) {
        OpenedDepth(init);
      }
      CountIn(init, MessageStart);
    } else {
      assert ks[..0] == [] && Depth([]) == 0;
    }
  }

  /** The validator calls a stream complete at its first message_stop if and only if it is one. */
  lemma TerminalIsComplete(ks: seq<Kind>)
    requires MessageStop !in ks
    ensures Terminal(ORun(ks + [MessageStop])) <==> CompleteStream(ks + [MessageStop])
  {
    var all := ks + [MessageStop];
    assert all[..|all| - 1] == ks;
    RunIsOpened(ks);
    OpenedPush(ks, MessageStop);
    if Opened(ks) {
      OpenedDepth(ks);
    }
    CountIn(ks, MessageStart);
    CountIn(ks, MessageStop);
  }

  // ------------------------------------------------------------------- by event names ----

  /** How many events have this name. */
  function Named(evs: seq<Event>, name: Bytes): nat {
    if evs == [] then 0 else Named(evs[..|evs| - 1], name) + (if evs[|evs| - 1].name == name then 1 else 0)
  }

  function OpenBlocks(evs: seq<Event>): int {
    Named(evs, "content_block_start") - Named(evs, "content_block_stop")
  }

  /** The event at i, if it belongs to a message, comes after a message_start. */
  predicate InMessage(evs: seq<Event>, i: nat)
    requires i < |evs|
  {
    evs[i].name in {"content_block_start", "content_block_delta", "message_delta"} ==> Named(evs[..i], "message_start") > 0
  }

  predicate Balanced(evs: seq<Event>, i: nat)
    requires i <= |evs|
  {
    OpenBlocks(evs[..i]) >= 0
  }

  /** At most one message_start, ahead of everything of the message; no block closes before it opened. */
  ghost predicate InOrder(evs: seq<Event>) {
    && Named(evs, "message_start") <= 1
    && (forall i | 0 <= i < |evs| :: InMessage(evs, i))
    && (forall i | 0 <= i <= |evs| :: Balanced(evs, i))
  }

  /** A complete message: one message_start, every block that opened closed, and one message_stop, last. */
  ghost predicate CompleteMessage(evs: seq<Event>) {
    && evs != [] && evs[|evs| - 1].name == "message_stop" && Named(evs, "message_stop") == 1
    && InOrder(evs) && Named(evs, "message_start") == 1 && OpenBlocks(evs) == 0
  }

  lemma {:induction false} CountNamed(evs: seq<Event>)
    ensures Count(Kinds(evs), MessageStart) == Named(evs, "message_start")
    ensures Count(Kinds(evs), MessageStop) == Named(evs, "message_stop")
    ensures Depth(Kinds(evs)) == OpenBlocks(evs)
    ensures Count(Kinds(evs), BlockStart) == Named(evs, "content_block_start")
    ensures Count(Kinds(evs), BlockStop) == Named(evs, "content_block_stop")
    decreases |evs|
  {
    if evs != [] {
      CountNamed(evs[..|evs| - 1]);
      assert Kinds(evs)[..|evs| - 1] == Kinds(evs[..|evs| - 1]);
    }
  }

  lemma PrefixNamed(evs: seq<Event>, i: nat)
    requires i <= |evs|
    ensures DepthAt(Kinds(evs), i) <==> Balanced(evs, i)
    ensures i < |evs| ==> (AfterStart(Kinds(evs), i) <==> InMessage(evs, i))
  {
    assert Kinds(evs)[..i] == Kinds(evs[..i]);
    CountNamed(evs[..i]);
    CountIn(Kinds(evs[..i]), MessageStart);
  }

  /** The order check, which goes by kinds, says this of the names. */
  lemma KindsByName(evs: seq<Event>)
    ensures Opened(Kinds(evs)) <==> InOrder(evs)
    ensures CompleteStream(Kinds(evs)) <==> CompleteMessage(evs)
    ensures MessageStop in Kinds(evs) <==> Named(evs, "message_stop") > 0
  {
    CountNamed(evs);
    CountIn(Kinds(evs), MessageStop);
    forall i | 0 <= i <= |evs|
      ensures DepthAt(Kinds(evs), i) <==> Balanced(evs, i)
      ensures i < |evs| ==> (AfterStart(Kinds(evs), i) <==> InMessage(evs, i)) {
      PrefixNamed(evs, i);
    }
  }

  // ------------------------------------------------------------------------ the class ----

  class StreamValidator {
    var sawStart: bool
    var open: int
    var sawStop: bool
    var invalid: bool

    function State(): Order
      reads this
    {
      Order(sawStart, open, sawStop, invalid)
    }

    constructor ()
      ensures State() == O_START
    {
      sawStart, open, sawStop, invalid := false, 0, false, false;
    }

    method Accept(ev: Event)
      modifies this
      ensures State() == OStep(old(State()), KindOf(ev.name))
    {
      match KindOf(ev.name) {
        case MessageStart =>
          if sawStart || sawStop {
            invalid := true;
          }
          sawStart := true;
        case BlockStart =>
          if !sawStart || sawStop {
            invalid := true;
          }
          open := open + 1;
        case BlockStop =>
          if open <= 0 || sawStop {
            invalid := true;
          } else {
            open := open - 1;
          }
        case Delta =>
          if !sawStart || sawStop {
            invalid := true;
          }
        case MessageStop =>
          if !sawStart || open != 0 {
            invalid := true;
          }
          sawStop := true;
        case Other =>
      }
    }
  }
}
