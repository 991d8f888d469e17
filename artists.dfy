/**
 * The artist enumerator of get_artists: read the first page of followed
 * artists and keep following each page's `next` link until a page has
 * none, collecting the artist ids of every page read.
 */
module Artists {
  import opened Wrappers
  import opened Seqs
  import opened Releases

  /** One page of the followed-artists listing. */
  datatype Page = Page(artistIds: seq<ArtistId>, next: Option<string>)

  function ItemIds(page: Page): seq<ArtistId>
  {
    page.artistIds
  }

  /** Python truthiness of `response['artists']['next']`: neither null nor empty. */
  predicate HasNext(page: Page)
  {
    page.next.Some? && page.next.value != ""
  }

  /** Some page of the listing ends the chain of `next` links. */
  predicate Ends(pages: seq<Page>)
  {
    exists k :: 0 <= k < |pages| && !HasNext(pages[k])
  }

  /** The loop stops at the first page without a `next` link, and at no page before it. */
  function LastPage(pages: seq<Page>): (k: nat)
    requires Ends(pages)
    ensures k < |pages| && !HasNext(pages[k])
    ensures forall i :: 0 <= i < k ==> HasNext(pages[i])
  {
    if !HasNext(pages[0]) then 0
    else
      assert Ends(pages[1..]) by {
        var k :| 0 <= k < |pages| && !HasNext(pages[k]);
        assert k > 0 && !HasNext(pages[1..][k - 1]);
      }
      1 + LastPage(pages[1..])
  }

  /** The ids the source collects: those of every page up to and including the last one read. */
  function Collected(pages: seq<Page>): seq<ArtistId>
    requires Ends(pages)
  {
    Concat(MapSeq(pages[..LastPage(pages) + 1], ItemIds))
  }

  /**
   * get_artists: `pages[0]` is the first response and `pages[i + 1]` the
   * response to `pages[i].next`. `artist_ids` ends as the ids of every page
   * read, in page order.
   */
  method GetArtists(pages: seq<Page>) returns (artistIds: seq<ArtistId>)
    requires Ends(pages)
    ensures artistIds == Collected(pages)
  {
    ghost var last := LastPage(pages);
    var response := pages[0];
    artistIds := [];
    for j := 0 to |response.artistIds|
      invariant artistIds == response.artistIds[..j]
    {
      artistIds := artistIds + [response.artistIds[j]];
    }
    assert response.artistIds[..|response.artistIds|] == response.artistIds;
    assert MapSeq(pages[..1], ItemIds) == [response.artistIds];
    assert Concat([response.artistIds]) == response.artistIds + Concat([response.artistIds][1..]);
    var i := 0;
    while HasNext(response)
      invariant 0 <= i <= last && response == pages[i]
      invariant artistIds == Concat(MapSeq(pages[..i + 1], ItemIds))
      decreases last - i
    {
      ghost var before := artistIds;
      i := i + 1;
      response := pages[i];
      for j := 0 to |response.artistIds|
        invariant artistIds == before + response.artistIds[..j]
      {
        artistIds := artistIds + [response.artistIds[j]];
      }
      assert response.artistIds[..|response.artistIds|] == response.artistIds;
      MapSeqSnoc(pages, ItemIds, i);
      ConcatSnoc(MapSeq(pages[..i], ItemIds), response.artistIds);
    }
  }

  /**
   * Pages after the last one read never matter: a listing that goes on
   * after a page without `next` yields the same ids.
   */
  lemma PagesAfterLastIgnored(pages: seq<Page>, more: seq<Page>)
    requires Ends(pages)
    ensures Ends(pages + more)
    ensures LastPage(pages + more) == LastPage(pages)
    ensures Collected(pages + more) == Collected(pages)
  {
    var k := LastPage(pages);
    assert (pages + more)[k] == pages[k];
    assert forall i :: 0 <= i < k ==> (pages + more)[i] == pages[i];
    LastPageUnique(pages + more, k);
    assert (pages + more)[..k + 1] == pages[..k + 1];
  }

  /** The first page without `next` is the last page read. */
  lemma {:induction false} LastPageUnique(pages: seq<Page>, k: nat)
    requires k < |pages| && !HasNext(pages[k])
    requires forall i :: 0 <= i < k ==> HasNext(pages[i])
    ensures Ends(pages) && LastPage(pages) == k
  {
    if k > 0 {
      assert !HasNext(pages[1..][k - 1]);
      assert forall i :: 0 <= i < k - 1 ==> pages[1..][i] == pages[i + 1];
      LastPageUnique(pages[1..], k - 1);
    }
  }
}
