/**
 * Sequence helpers shared by the stages of the pipeline: every stage of
 * discover.py builds its output by appending, in order, the items of a
 * sequence of listings.
 */
module Seqs {

  /** The concatenation, in order, of a sequence of sequences. */
  function Concat<T>(ss: seq<seq<T>>): seq<T>
  {
    if |ss| == 0 then [] else ss[0] + Concat(ss[1..])
  }

  /** `f` applied to every element of `s`, keeping the order. */
  function MapSeq<A, B>(s: seq<A>, f: A -> B): (r: seq<B>)
    ensures |r| == |s|
    ensures forall i :: 0 <= i < |s| ==> r[i] == f(s[i])
  {
    seq(|s|, i requires 0 <= i < |s| => f(s[i]))
  }

  /** Concatenation distributes over `+`. */
  lemma {:induction false} ConcatAppend<T>(a: seq<seq<T>>, b: seq<seq<T>>)
    ensures Concat(a + b) == Concat(a) + Concat(b)
  {
    if |a| == 0 {
      assert a + b == b;
    } else {
      assert (a + b)[1..] == a[1..] + b;
      ConcatAppend(a[1..], b);
    }
  }

  /** Appending one more listing appends its items at the end. */
  lemma ConcatSnoc<T>(ss: seq<seq<T>>, x: seq<T>)
    ensures Concat(ss + [x]) == Concat(ss) + x
  {
    ConcatAppend(ss, [x]);
    assert Concat([x]) == x + Concat([x][1..]);
  }

  /**
   * Item `j` of listing `i` sits in the concatenation right after the
   * items of the listings before `i`.
   */
  lemma ConcatIndex<T>(ss: seq<seq<T>>, i: nat, j: nat)
    requires i < |ss| && j < |ss[i]|
    ensures |Concat(ss[..i])| + j < |Concat(ss)|
    ensures Concat(ss)[|Concat(ss[..i])| + j] == ss[i][j]
  {
    assert ss == ss[..i] + ss[i..];
    ConcatAppend(ss[..i], ss[i..]);
    assert Concat(ss[i..]) == ss[i] + Concat(ss[i..][1..]);
  }

  /** Mapping a one-longer prefix adds one image at the end. */
  lemma MapSeqSnoc<A, B>(s: seq<A>, f: A -> B, i: nat)
    requires i < |s|
    ensures MapSeq(s[..i + 1], f) == MapSeq(s[..i], f) + [f(s[i])]
  {
  }

  /** Mapping splits along `+`. */
  lemma MapSeqAppend<A, B>(a: seq<A>, b: seq<A>, f: A -> B)
    ensures MapSeq(a + b, f) == MapSeq(a, f) + MapSeq(b, f)
  {
  }
}
