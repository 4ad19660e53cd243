/** The spool (sse.go, spool): validated record bytes in memory, then in an unlinked file. */
module Spool {
  import opened Common

  /** How storage may fail during one write; `landed` bytes of the data may still reach the file. */
  datatype Fault = NoFault | CreateFails | CopyFails | WriteFails(landed: nat)

  datatype Result = Written | TooLarge | StorageError

  class Spool {
    const maxResponse: int
    const maxMem: int
    var mem: Bytes
    var file: Bytes
    var spilled: bool
    var total: int
    /** Every write that was answered with Written, in order. */
    ghost var accepted: seq<Bytes>
    /** No write has left a partial record in the file. */
    ghost var intact: bool

    ghost predicate Valid()
      reads this
    {
      && 0 <= total
      && |Concat(accepted)| <= total
      && (accepted != [] ==> |Concat(accepted)| <= maxResponse)
      && (!spilled ==> intact && (mem == "" || |mem| <= maxMem))
      && (intact ==> Content() == Concat(accepted))
    }

    /** What a replay reads back. */
    function Content(): Bytes
      reads this
    {
      if spilled then file else mem
    }

    constructor (maxResponse: int, maxMem: int)
      ensures Valid() && intact && accepted == [] && Content() == "" && total == 0
      ensures this.maxResponse == maxResponse && this.maxMem == maxMem
    {
      this.maxResponse, this.maxMem := maxResponse, maxMem;
      mem, file, spilled, total := "", "", false, 0;
      accepted, intact := [], true;
    }

    /** Accept p whole or refuse it. The running total counts refused bytes too, so a spool that was
        once over its limit refuses everything from then on. */
    method Write(p: Bytes, fault: Fault) returns (r: Result)
      requires Valid()
      modifies this
      ensures Valid()
      ensures total == old(total) + |p|
      ensures r == TooLarge <==> total > maxResponse
      ensures accepted == if r == Written then old(accepted) + [p] else old(accepted)
      ensures r != StorageError && old(intact) ==> intact
      ensures fault.NoFault? ==> r != StorageError
      ensures r == TooLarge ==> Content() == old(Content())
      ensures r == Written ==> Content() == old(Content()) + p
      ensures r == StorageError ==> exists k | 0 <= k <= |p| :: Content() == old(Content()) + p[..k]
    {
      total := total + |p|;
      if total > maxResponse {
        return TooLarge;
      }
      ConcatSplit(accepted, [p]);
      ConcatOne(p);
      assert Content() + p[..0] == Content();
      if !spilled {
        if |mem| + |p| <= maxMem {
          mem := mem + p;
          accepted := accepted + [p];
          return Written;
        }
        if fault.CreateFails? || fault.CopyFails? {
          return StorageError;
        }
        file, spilled, mem := mem, true, "";
      }
      if fault.WriteFails? {
        var k := if fault.landed <= |p| then fault.landed else |p|;
        file := file + p[..k];
        intact := false;
        return StorageError;
      }
      file := file + p;
      accepted := accepted + [p];
      return Written;
    }
  }

  /** Once over the limit, always over: no later write is ever accepted. */
  method OverLimitForever(sp: Spool, writes: seq<Bytes>, faults: nat -> Fault)
    requires sp.Valid() && sp.total > sp.maxResponse
    modifies sp
    ensures sp.Valid() && sp.accepted == old(sp.accepted) && sp.Content() == old(sp.Content())
  {
    for i := 0 to |writes|
      invariant sp.Valid() && sp.total > sp.maxResponse
      invariant sp.accepted == old(sp.accepted) && sp.Content() == old(sp.Content())
    {
      var r := sp.Write(writes[i], faults(i));
    }
  }
}
