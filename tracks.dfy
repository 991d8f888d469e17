/**
 * The track collector of get_tracks: fetch the track listing of every
 * admitted album and append the track URIs, album by album.
 */
module Tracks {
  import opened Seqs
  import opened Releases

  type TrackUri = string

  /** The URIs of every listed album's tracks, album by album, each in listing order. */
  function TrackList(albumIds: seq<AlbumId>, tracksOf: AlbumId -> seq<TrackUri>): seq<TrackUri>
  {
    Concat(MapSeq(albumIds, tracksOf))
  }

  /**
   * get_tracks: `track_uris` ends as the concatenation, in `album_ids`
   * order, of each album's track URIs in listing order.
   */
  method GetTracks(albumIds: seq<AlbumId>, tracksOf: AlbumId -> seq<TrackUri>) returns (trackUris: seq<TrackUri>)
    ensures trackUris == TrackList(albumIds, tracksOf)
  {
    trackUris := [];
    for i := 0 to |albumIds|
      invariant trackUris == TrackList(albumIds[..i], tracksOf)
    {
      var items := tracksOf(albumIds[i]);
      for j := 0 to |items|
        invariant trackUris == TrackList(albumIds[..i], tracksOf) + items[..j]
      {
        trackUris := trackUris + [items[j]];
      }
      assert items[..|items|] == items;
      MapSeqSnoc(albumIds, tracksOf, i);
      ConcatSnoc(MapSeq(albumIds[..i], tracksOf), items);
    }
    assert albumIds[..|albumIds|] == albumIds;
  }

  /**
   * Track `j` of album `i` comes right after all tracks of the albums
   * before `i`: collection order is album order, then listing order.
   */
  lemma TrackPosition(albumIds: seq<AlbumId>, tracksOf: AlbumId -> seq<TrackUri>, i: nat, j: nat)
    requires i < |albumIds| && j < |tracksOf(albumIds[i])|
    ensures |TrackList(albumIds[..i], tracksOf)| + j < |TrackList(albumIds, tracksOf)|
    ensures TrackList(albumIds, tracksOf)[|TrackList(albumIds[..i], tracksOf)| + j] == tracksOf(albumIds[i])[j]
  {
    var ss := MapSeq(albumIds, tracksOf);
    assert MapSeq(albumIds[..i], tracksOf) == ss[..i];
    ConcatIndex(ss, i, j);
  }

  /** Collecting two runs of albums gives the two track lists one after the other. */
  lemma TrackListAppend(a: seq<AlbumId>, b: seq<AlbumId>, tracksOf: AlbumId -> seq<TrackUri>)
    ensures TrackList(a + b, tracksOf) == TrackList(a, tracksOf) + TrackList(b, tracksOf)
  {
    MapSeqAppend(a, b, tracksOf);
    ConcatAppend(MapSeq(a, tracksOf), MapSeq(b, tracksOf));
  }

  lemma RecentReleaseDate()
    ensures Dates.ParseDate("2024-05-05") == Wrappers.Some(Dates.Date(2024, 5, 5))
  {
  }

  lemma OutdatedReleaseDate()
    ensures Dates.ParseDate("2024-04-25") == Wrappers.Some(Dates.Date(2024, 4, 25))
  {
  }

  lemma RecentAdmitted(cutoff: Dates.Date)
    requires cutoff == Dates.Date(2024, 5, 1)
    ensures Step(Registry([], map[]), Album("fresh", "New Single", "2024-05-05", ["P"]), cutoff)
         == Wrappers.Some(Registry(["fresh"], map["New Single" := "P"]))
  {
    RecentReleaseDate();
    assert map[]["New Single" := "P"] == map["New Single" := "P"];
    assert [] + ["fresh"] == ["fresh"];
  }

  lemma OutdatedSkipped(reg: Registry, cutoff: Dates.Date)
    requires cutoff == Dates.Date(2024, 5, 1)
    ensures Step(reg, Album("stale", "Old Single", "2024-04-25", ["Q"]), cutoff) == Wrappers.Some(reg)
  {
    OutdatedReleaseDate();
  }

  /**
   * Two followed artists, one release inside the window and one outside:
   * only the first release is admitted, so only its tracks are collected.
   * With today at 2024-05-15 and a two-week lookback, the cutoff is
   * 2024-05-01; the releases are dated 10 and 20 days before today.
   */
  lemma RecentReleaseOnly(p: ArtistId, q: ArtistId, albumsOf: ArtistId -> seq<Album>, tracksOf: AlbumId -> seq<TrackUri>)
    requires albumsOf(p) == [Album("fresh", "New Single", "2024-05-05", ["P"])]
    requires albumsOf(q) == [Album("stale", "Old Single", "2024-04-25", ["Q"])]
    ensures Run(Traversal([p, q], albumsOf), Dates.Date(2024, 5, 1)) == Wrappers.Some(Registry(["fresh"], map["New Single" := "P"]))
    ensures TrackList(Run(Traversal([p, q], albumsOf), Dates.Date(2024, 5, 1)).value.albumIds, tracksOf) == tracksOf("fresh")
  {
    var recent, outdated := albumsOf(p)[0], albumsOf(q)[0];
    var cutoff := Dates.Date(2024, 5, 1);
    assert MapSeq([p, q], albumsOf) == [[recent], [outdated]];
    assert Concat([[recent], [outdated]]) == [recent] + Concat([[outdated]]);
    assert Concat([[outdated]]) == [outdated] + Concat([]);
    assert Traversal([p, q], albumsOf) == [recent, outdated];
    var admittedOne := Registry(["fresh"], map["New Single" := "P"]);
    RunSnoc([], recent, Registry([], map[]), cutoff);
    RecentAdmitted(cutoff);
    assert [] + [recent] == [recent];
    RunSnoc([recent], outdated, admittedOne, cutoff);
    OutdatedSkipped(admittedOne, cutoff);
    assert [recent] + [outdated] == [recent, outdated];
    var only := tracksOf("fresh");
    assert MapSeq(["fresh"], tracksOf) == [only];
    assert Concat([only]) == only + Concat([only][1..]);
    assert [only][1..] == [];
  }
}
