/**
 * The playlist assembler of add_to_playlist: choose how many append
 * requests to send from the number of tracks, cut the track list into
 * that many parts as `numpy.array_split` does, and send one request per
 * part, in order.
 */
module Batches {
  import opened Seqs
  import opened Tracks

  /** 3 requests above 200 tracks, 2 above 100, otherwise 1. */
  function BatchCount(n: nat): nat
  {
    if n > 200 then 3 else if n > 100 then 2 else 1
  }

  function Sum(xs: seq<nat>): nat
  {
    if |xs| == 0 then 0 else xs[0] + Sum(xs[1..])
  }

  lemma {:induction false} SumAppend(a: seq<nat>, b: seq<nat>)
    ensures Sum(a + b) == Sum(a) + Sum(b)
  {
    if |a| == 0 {
      assert a + b == b;
    } else {
      assert (a + b)[1..] == a[1..] + b;
      SumAppend(a[1..], b);
    }
  }

  /** `m` copies of `x`. */
  function Repeat(x: nat, m: nat): (r: seq<nat>)
    ensures |r| == m && Sum(r) == m * x
    ensures forall i :: 0 <= i < m ==> r[i] == x
  {
    if m == 0 then [] else [x] + Repeat(x, m - 1)
  }

  /**
   * `array_split`'s section sizes for `n` items in `k` sections: the first
   * `n % k` sections hold `n / k + 1` items, the others `n / k`.
   */
  function SectionSizes(n: nat, k: nat): (sizes: seq<nat>)
    requires k > 0
    ensures |sizes| == k && Sum(sizes) == n
    ensures forall i :: 0 <= i < k ==> sizes[i] == if i < n % k then n / k + 1 else n / k
  {
    var q, r := n / k, n % k;
    SumAppend(Repeat(q + 1, r), Repeat(q, k - r));
    SectionTotal(n, k);
    Repeat(q + 1, r) + Repeat(q, k - r)
  }

  lemma SectionTotal(n: nat, k: nat)
    requires k > 0
    ensures (n % k) * (n / k + 1) + (k - n % k) * (n / k) == n
  {
    var q, r := n / k, n % k;
    assert n == k * q + r;
    assert r * (q + 1) == r * q + r;
    assert (k - r) * q == k * q - r * q;
  }

  /** Cut `s` into consecutive parts of the given sizes. */
  function SplitAt<T>(s: seq<T>, sizes: seq<nat>): (parts: seq<seq<T>>)
    requires Sum(sizes) == |s|
    ensures |parts| == |sizes| && Concat(parts) == s
    ensures forall i :: 0 <= i < |sizes| ==> |parts[i]| == sizes[i]
  {
    if |sizes| == 0 then []
    else
      var rest := SplitAt(s[sizes[0]..], sizes[1..]);
      assert s == s[..sizes[0]] + s[sizes[0]..];
      [s[..sizes[0]]] + rest
  }

  /**
   * `numpy.array_split(s, k)`: `k` consecutive parts that put `s` back
   * together, the first `|s| % k` of them one item longer than the rest.
   */
  function ArraySplit<T>(s: seq<T>, k: nat): (parts: seq<seq<T>>)
    requires k > 0
    ensures |parts| == k && Concat(parts) == s
    ensures forall i :: 0 <= i < k ==> |parts[i]| == if i < |s| % k then |s| / k + 1 else |s| / k
  {
    SplitAt(s, SectionSizes(|s|, k))
  }

  /** The payloads of the append requests add_to_playlist is meant to send. */
  function Batches(trackList: seq<TrackUri>): seq<seq<TrackUri>>
  {
    var n := |trackList|;
    if n > 200 then ArraySplit(trackList, 3)
    else if n > 100 then ArraySplit(trackList, 2)
    else [trackList]
  }

  /**
   * The batches are `BatchCount(n)` in number and put the track list back
   * together in order; each holds the floor or the ceiling of `n / k`
   * tracks, and no batch is longer than one before it.
   */
  lemma BatchesPartition(trackList: seq<TrackUri>)
    ensures var b, n := Batches(trackList), |trackList|;
      var k := BatchCount(n);
      && |b| == k
      && Concat(b) == trackList
      && (forall i :: 0 <= i < k ==> n / k <= |b[i]| <= (n + k - 1) / k)
      && (forall i, j :: 0 <= i < j < k ==> |b[i]| >= |b[j]|)
  {
    var b := Batches(trackList);
    if |trackList| <= 100 {
      assert Concat(b) == trackList + Concat([]);
    }
  }

  /**
   * Every batch fits the catalog's limit of 100 tracks per append request
   * exactly when there are at most 300 tracks.
   */
  lemma BatchesWithinLimit(trackList: seq<TrackUri>)
    ensures (forall i :: 0 <= i < |Batches(trackList)| ==> |Batches(trackList)[i]| <= 100) <==> |trackList| <= 300
  {
    BatchesPartition(trackList);
    var n := |trackList|;
    if n > 300 {
      assert |Batches(trackList)[0]| >= n / 3 + (if n % 3 > 0 then 1 else 0);
    }
  }

  /** The sizes given as examples for 250, 150 and 80 tracks. */
  lemma BatchSizeExamples(trackList: seq<TrackUri>)
    ensures |trackList| == 250 ==>
      (|Batches(trackList)| == 3
       && |Batches(trackList)[0]| == 84 && |Batches(trackList)[1]| == 83 && |Batches(trackList)[2]| == 83)
    ensures |trackList| == 150 ==>
      (|Batches(trackList)| == 2 && |Batches(trackList)[0]| == 75 && |Batches(trackList)[1]| == 75)
    ensures |trackList| == 80 ==> Batches(trackList) == [trackList]
  {
  }

  /**
   * add_to_playlist with the request body of line 197 built by
   * `json.dumps`, as in the other two branches: send one append request
   * per batch, in order. `requests` lists the payloads sent.
   */
  method AddToPlaylist(trackList: seq<TrackUri>) returns (requests: seq<seq<TrackUri>>)
    ensures requests == Batches(trackList)
    ensures |requests| == BatchCount(|trackList|) && Concat(requests) == trackList
  {
    var numberOfTracks := |trackList|;
    if numberOfTracks > 200 {
      var threeSplit := ArraySplit(trackList, 3);
      requests := [];
      for i := 0 to |threeSplit|
        invariant requests == threeSplit[..i]
      {
        requests := requests + [threeSplit[i]];
      }
      assert threeSplit[..|threeSplit|] == threeSplit;
    } else if numberOfTracks > 100 {
      var twoSplit := ArraySplit(trackList, 2);
      requests := [];
      for i := 0 to |twoSplit|
        invariant requests == twoSplit[..i]
      {
        requests := requests + [twoSplit[i]];
      }
      assert twoSplit[..|twoSplit|] == twoSplit;
    } else {
      requests := [trackList];
    }
    BatchesPartition(trackList);
  }

  // ---------------------------------------------------------------------
  // The handler as written: in the branch for more than 200 tracks the
  // request body is built with `json.dump(payload)`, which has no file
  // argument and raises TypeError before the request is sent.

  /**
   * add_to_playlist branch by branch as written. `raised` reports the
   * TypeError of `json.dump(payload)`; `requests` lists the payloads sent
   * before the handler returned or raised.
   */
  method AddAsWritten(trackList: seq<TrackUri>) returns (raised: bool, requests: seq<seq<TrackUri>>)
    ensures raised <==> |trackList| > 200
    ensures |trackList| > 200 ==> requests == [] && Concat(requests) != trackList
    ensures |trackList| <= 200 ==> requests == Batches(trackList) && Concat(requests) == trackList
  {
    raised := false;
    requests := [];
    var numberOfTracks := |trackList|;
    if numberOfTracks > 200 {
      var threeSplit := ArraySplit(trackList, 3);
      for i := 0 to |threeSplit|
        invariant requests == [] && !raised
      {
        var payload := threeSplit[i];
        // json.dump(payload) raises before requests.post is called
        raised := true;
        return;
      }
    } else if numberOfTracks > 100 {
      var twoSplit := ArraySplit(trackList, 2);
      for i := 0 to |twoSplit|
        invariant requests == twoSplit[..i]
      {
        requests := requests + [twoSplit[i]];
      }
      assert twoSplit[..|twoSplit|] == twoSplit;
    } else {
      requests := [trackList];
    }
    BatchesPartition(trackList);
  }
}
