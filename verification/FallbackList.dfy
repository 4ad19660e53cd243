/**
 The ordered list of fallback models (main.go, loadClaudeRefusalFallbacks): entries are trimmed,
 checked and deduplicated in place, in the storage that is still being read.
 */
module FallbackList {
  import opened Common

  /** Library text functions. */
  datatype Text = Text(trim: Bytes -> Bytes, isClaude: Bytes -> bool)

  /** First occurrences, in order. */
  function Dedup(s: seq<Bytes>): seq<Bytes> {
    if s == [] then [] else
    var d := Dedup(s[..|s| - 1]);
    if s[|s| - 1] in d then d else d + [s[|s| - 1]]
  }

  function Trimmed(t: Text, s: seq<Bytes>): (r: seq<Bytes>)
    ensures |r| == |s|
  {
    seq(|s|, i requires 0 <= i < |s| => t.trim(s[i]))
  }

  ghost predicate Distinct(s: seq<Bytes>) {
    forall i, j | 0 <= i < j < |s| :: s[i] != s[j]
  }

  function FirstAt(s: seq<Bytes>, x: Bytes): nat
    requires x in s
  {
    if s[0] == x then 0 else 1 + FirstAt(s[1..], x)
  }

  lemma {:induction false} FirstAtInit(s: seq<Bytes>, x: Bytes)
    requires s != []
    ensures x in s[..|s| - 1] ==> x in s && FirstAt(s, x) == FirstAt(s[..|s| - 1], x) < |s| - 1
    ensures x in s && x !in s[..|s| - 1] ==> FirstAt(s, x) == |s| - 1
    decreases |s|
  {
    if |s| > 1 && s[0] != x {
      FirstAtInit(s[1..], x);
      assert s[1..][..|s| - 2] == s[..|s| - 1][1..];
      assert s == [s[0]] + s[1..];
    }
  }

  /** The deduplicated list has no model twice, loses none, and keeps the order of first mention. */
  lemma {:induction false} DedupKeepsOrder(s: seq<Bytes>)
    ensures Distinct(Dedup(s)) && (forall x :: x in Dedup(s) <==> x in s)
    ensures forall i, j | 0 <= i < j < |Dedup(s)| :: FirstAt(s, Dedup(s)[i]) < FirstAt(s, Dedup(s)[j])
    decreases |s|
  {
    if s != [] {
      var init := s[..|s| - 1];
      DedupKeepsOrder(init);
      assert s == init + [s[|s| - 1]];
      forall x {
        FirstAtInit(s, x);
      }
    }
  }

  /** Entries are read at index i and written at index n <= i, so nothing unread is overwritten. */
  method LoadFallbacks(models: array<Bytes>, t: Text) returns (n: nat, bad: Option<Bytes>)
    modifies models
    ensures n <= models.Length
    ensures bad.None? <==> forall m | m in Trimmed(t, old(models[..])) :: t.isClaude(m)
    ensures bad.None? ==> models[..n] == Dedup(Trimmed(t, old(models[..])))
    ensures bad.Some? ==> bad.value in Trimmed(t, old(models[..])) && !t.isClaude(bad.value)
  {
    ghost var all := Trimmed(t, models[..]);
    n := 0;
    for i := 0 to models.Length
      invariant n <= i && models[..n] == Dedup(all[..i])
      invariant forall k | i <= k < models.Length :: models[k] == old(models[k])
      invariant forall m | m in all[..i] :: t.isClaude(m)
    {
      var model := t.trim(models[i]);
      assert model == all[i];
      if !t.isClaude(model) {
        return n, Some(model);
      }
      assert all[..i + 1][..i] == all[..i] && all[..i + 1] == all[..i] + [model];
      var duplicate := false;
      for k := 0 to n
        invariant !duplicate && model !in models[..k]
      {
        if models[k] == model {
          duplicate := true;
          break;
        }
      }
      if !duplicate {
        models[n] := model;
        n := n + 1;
      }
    }
    assert all[..models.Length] == all;
    return n, None;
  }
}
