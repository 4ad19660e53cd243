/** Vocabulary shared by every module. A byte string is a Dafny string with one char per byte. */
module Common {

  type Bytes = string

  datatype Option<+T> = None | Some(value: T)

  const MAX_INT64 := 0x7FFF_FFFF_FFFF_FFFF
  const MAX_INT32 := 0x7FFF_FFFF
  const MIN_INT32 := -0x8000_0000

  lemma Assoc<T>(a: seq<T>, b: seq<T>, c: seq<T>)
    ensures (a + b) + c == a + (b + c)
  {
  }

  lemma EmptyPlus<T>(s: seq<T>)
    ensures [] + s == s && s + [] == s
  {
  }

  lemma TakeDrop<T>(s: seq<T>, n: nat)
    requires n <= |s|
    ensures s[..n] + s[n..] == s
  {
  }

  /** Moving the first element of b to the end of a. */
  lemma Shift<T>(a: seq<T>, b: seq<T>)
    requires b != []
    ensures (a + [b[0]]) + b[1..] == a + b
  {
  }

  /** Concatenation of a list of byte strings, in order. */
  function Concat(parts: seq<Bytes>): Bytes {
    if parts == [] then "" else parts[0] + Concat(parts[1..])
  }

  lemma {:induction false} ConcatSplit(a: seq<Bytes>, b: seq<Bytes>)
    ensures Concat(a + b) == Concat(a) + Concat(b)
  {
    if a == [] {
      assert a + b == b;
    } else {
      ConcatSplit(a[1..], b);
      assert (a + b)[0] == a[0] && (a + b)[1..] == a[1..] + b;
      Assoc(a[0], Concat(a[1..]), Concat(b));
    }
  }

  lemma ConcatOne(p: Bytes)
    ensures Concat([p]) == p
  {
    assert [p][1..] == [];
  }

  /** The first index of c in s, or |s| when it does not occur. */
  function IndexOf(s: Bytes, c: char): (i: nat)
    ensures i <= |s|
    ensures c !in s[..i]
    ensures i < |s| ==> s[i] == c
  {
    if s == "" then 0 else if s[0] == c then 0 else
    assert s[1..][..IndexOf(s[1..], c)] == s[1..1 + IndexOf(s[1..], c)];
    assert s[..1 + IndexOf(s[1..], c)] == [s[0]] + s[1..1 + IndexOf(s[1..], c)];
    1 + IndexOf(s[1..], c)
  }

  lemma {:induction false} IndexIs(s: Bytes, c: char, k: nat)
    requires k < |s| && s[k] == c && c !in s[..k]
    ensures IndexOf(s, c) == k
  {
    if k > 0 {
      assert s[0] == s[..k][0];
      assert s[1..][..k - 1] == s[..k][1..];
      IndexIs(s[1..], c, k - 1);
    }
  }
}
