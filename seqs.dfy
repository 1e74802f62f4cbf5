/**
  Sequence facts used by the hub construction: `[...new Set(xs)]`, which keeps the
  first occurrence of every value in insertion order.
 */
module Seqs {

  /** No value occurs twice in `s`. */
  predicate NoDuplicates(s: seq<string>)
  {
    forall i, j :: 0 <= i < j < |s| ==> s[i] != s[j]
  }

  /** The position of the first occurrence of `x` in `s`. */
  function FirstIndex(s: seq<string>, x: string): (r: nat)
    requires x in s
    ensures r < |s| && s[r] == x
    ensures forall j :: 0 <= j < r ==> s[j] != x
  {
    if s[0] == x then 0 else 1 + FirstIndex(s[1..], x)
  }

  /**
    The elements of a JavaScript `Set` filled from `s` in order: each value once,
    at the place it was first inserted.
   */
  function Dedup(s: seq<string>): seq<string>
  {
    if |s| == 0 then []
    else
      var d := Dedup(s[..|s| - 1]);
      var x := s[|s| - 1];
      if x in d then d else d + [x]
  }

  /** `Dedup` keeps every value of `s`, adds none, and holds no value twice. */
  lemma {:induction false} DedupProperties(s: seq<string>)
    ensures NoDuplicates(Dedup(s))
    ensures forall x :: x in Dedup(s) <==> x in s
    ensures |Dedup(s)| <= |s|
  {
    if |s| > 0 {
      var p, x := s[..|s| - 1], s[|s| - 1];
      DedupProperties(p);
      assert s == p + [x];
    }
  }

  /** Extending `s` at the end does not move the first occurrence of a value already in `s`. */
  lemma FirstIndexOfPrefix(s: seq<string>, y: string, x: string)
    requires x in s
    ensures x in s + [y] && FirstIndex(s + [y], x) == FirstIndex(s, x)
  {
    var i, j := FirstIndex(s, x), FirstIndex(s + [y], x);
    assert (s + [y])[i] == x;
    assert forall k :: 0 <= k < |s| ==> s[k] == (s + [y])[k];
  }

  /** `Dedup` keeps values in the order of their first occurrence in the input. */
  lemma {:induction false} DedupFirstOccurrenceOrder(s: seq<string>, i: nat, j: nat)
    requires i < j < |Dedup(s)|
    ensures Dedup(s)[i] in s && Dedup(s)[j] in s
            && FirstIndex(s, Dedup(s)[i]) < FirstIndex(s, Dedup(s)[j])
  {
    var p, x := s[..|s| - 1], s[|s| - 1];
    var d := Dedup(p);
    assert s == p + [x];
    DedupProperties(p);
    var a, b := Dedup(s)[i], Dedup(s)[j];
    if x in d {
      assert Dedup(s) == d;
      DedupFirstOccurrenceOrder(p, i, j);
      FirstIndexOfPrefix(p, x, a);
      FirstIndexOfPrefix(p, x, b);
    } else {
      assert Dedup(s) == d + [x];
      assert a == d[i] && a in p;
      FirstIndexOfPrefix(p, x, a);
      if j < |d| {
        assert b == d[j] && b in p;
        DedupFirstOccurrenceOrder(p, i, j);
        FirstIndexOfPrefix(p, x, b);
      } else {
        assert b == x && x !in p;
        assert FirstIndex(s, b) == |p|;
      }
    }
  }

}
