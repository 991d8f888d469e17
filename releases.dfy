/**
 * The release filter of get_albums: walk every followed artist's album
 * listing in order, keep the albums released strictly after a cutoff
 * date, and skip an album whose name is already bound to the same primary
 * artist in the `album_names` registry.
 */
module Releases {
  import opened Wrappers
  import opened Seqs
  import opened Dates

  type ArtistId = string
  type AlbumId = string

  /** One entry of an artist's album listing; `artists[0]` is its primary artist. */
  datatype Album = Album(id: AlbumId, name: string, releaseDate: string, artists: seq<string>)

  /** The filter's state: the admitted ids (`album_ids`) and `album_names`. */
  datatype Registry = Registry(albumIds: seq<AlbumId>, albumNames: map<string, string>)

  /**
   * The date parses but `album['artists'][0]` raises IndexError, which the
   * `except ValueError` does not catch: the request aborts.
   */
  predicate Raises(a: Album)
  {
    ParseDate(a.releaseDate).Some? && |a.artists| == 0
  }

  /** The album passes the date test: parsed, with an artist, strictly after the cutoff. */
  predicate InWindow(a: Album, cutoff: Date)
  {
    ParseDate(a.releaseDate).Some? && |a.artists| > 0 && After(ParseDate(a.releaseDate).value, cutoff)
  }

  /** One iteration of the inner loop; `None` when the iteration raises. */
  function Step(reg: Registry, a: Album, cutoff: Date): Option<Registry>
  {
    match ParseDate(a.releaseDate)
    case None => Some(reg)
    case Some(releaseDate) =>
      if |a.artists| == 0 then None
      else
        var artistName := a.artists[0];
        if After(releaseDate, cutoff)
           && (a.name !in reg.albumNames || artistName != reg.albumNames[a.name])
        then Some(Registry(reg.albumIds + [a.id], reg.albumNames[a.name := artistName]))
        else Some(reg)
  }

  /** The filter run over `albums` from an empty registry; `None` once a step raises. */
  function Run(albums: seq<Album>, cutoff: Date): Option<Registry>
  {
    if |albums| == 0 then Some(Registry([], map[]))
    else match Run(albums[..|albums| - 1], cutoff)
      case None => None
      case Some(reg) => Step(reg, albums[|albums| - 1], cutoff)
  }

  /** Every album of every artist, artist by artist, each listing in its own order. */
  function Traversal(artistIds: seq<ArtistId>, albumsOf: ArtistId -> seq<Album>): seq<Album>
  {
    Concat(MapSeq(artistIds, albumsOf))
  }

  // ---------------------------------------------------------------------
  // A reference description that needs no registry: it looks back over the
  // albums already seen instead.

  /** The primary artist of the last album in `albums` that is in the window and called `name`. */
  function LastArtist(albums: seq<Album>, cutoff: Date, name: string): Option<string>
  {
    if |albums| == 0 then None
    else
      var a := albums[|albums| - 1];
      if InWindow(a, cutoff) && a.name == name then Some(a.artists[0])
      else LastArtist(albums[..|albums| - 1], cutoff, name)
  }

  /**
   * Album `k` is admitted: it is in the window, and the last earlier
   * in-window album of the same name, if any, has another primary artist.
   */
  predicate Admits(albums: seq<Album>, k: nat, cutoff: Date)
    requires k < |albums|
  {
    InWindow(albums[k], cutoff)
    && LastArtist(albums[..k], cutoff, albums[k].name) != Some(albums[k].artists[0])
  }

  /** The positions of the admitted albums, in traversal order. */
  function Admitted(albums: seq<Album>, cutoff: Date): seq<nat>
  {
    if |albums| == 0 then []
    else
      var n := |albums| - 1;
      Admitted(albums[..n], cutoff) + (if Admits(albums, n, cutoff) then [n] else [])
  }

  /** The primary artist of the last admitted album called `name`. */
  function LastAdmittedArtist(albums: seq<Album>, cutoff: Date, name: string): Option<string>
  {
    if |albums| == 0 then None
    else
      var n := |albums| - 1;
      if Admits(albums, n, cutoff) && albums[n].name == name then Some(albums[n].artists[0])
      else LastAdmittedArtist(albums[..n], cutoff, name)
  }

  lemma AdmitsPrefix(albums: seq<Album>, m: nat, k: nat, cutoff: Date)
    requires k < m <= |albums|
    ensures Admits(albums[..m], k, cutoff) == Admits(albums, k, cutoff)
  {
    assert albums[..m][..k] == albums[..k];
  }

  /**
   * `Admitted` lists, in increasing order and once each, exactly the
   * positions the reference description admits: `album_ids` is an
   * order-preserving subsequence of the traversal with one entry per
   * admission.
   */
  lemma {:induction false} AdmittedIndices(albums: seq<Album>, cutoff: Date)
    ensures forall j :: 0 <= j < |Admitted(albums, cutoff)| ==> Admitted(albums, cutoff)[j] < |albums|
    ensures forall i, j :: 0 <= i < j < |Admitted(albums, cutoff)| ==> Admitted(albums, cutoff)[i] < Admitted(albums, cutoff)[j]
    ensures forall k :: 0 <= k < |albums| ==> (k in Admitted(albums, cutoff) <==> Admits(albums, k, cutoff))
  {
    AdmittedIncreasing(albums, cutoff);
    AdmittedExactly(albums, cutoff);
  }

  lemma {:induction false} AdmittedIncreasing(albums: seq<Album>, cutoff: Date)
    ensures forall j :: 0 <= j < |Admitted(albums, cutoff)| ==> Admitted(albums, cutoff)[j] < |albums|
    ensures forall i, j :: 0 <= i < j < |Admitted(albums, cutoff)| ==> Admitted(albums, cutoff)[i] < Admitted(albums, cutoff)[j]
  {
    if |albums| > 0 {
      var n := |albums| - 1;
      var prev := Admitted(albums[..n], cutoff);
      var last := if Admits(albums, n, cutoff) then [n] else [];
      assert Admitted(albums, cutoff) == prev + last;
      AdmittedIncreasing(albums[..n], cutoff);
    }
  }

  lemma {:induction false} AdmittedExactly(albums: seq<Album>, cutoff: Date)
    ensures forall k :: 0 <= k < |albums| ==> (k in Admitted(albums, cutoff) <==> Admits(albums, k, cutoff))
  {
    if |albums| > 0 {
      var n := |albums| - 1;
      var prev := Admitted(albums[..n], cutoff);
      var last := if Admits(albums, n, cutoff) then [n] else [];
      assert Admitted(albums, cutoff) == prev + last;
      AdmittedIncreasing(albums[..n], cutoff);
      AdmittedExactly(albums[..n], cutoff);
      assert n !in prev;
      forall k | 0 <= k < n
        ensures k in prev + last <==> Admits(albums, k, cutoff)
      {
        AdmitsPrefix(albums, n, k, cutoff);
      }
    }
  }

  /** Once a step raises, the rest of the traversal is never reached. */
  lemma {:induction false} RaiseIsFinal(albums: seq<Album>, rest: seq<Album>, cutoff: Date)
    requires Run(albums, cutoff).None?
    ensures Run(albums + rest, cutoff).None?
  {
    if |rest| > 0 {
      var r := rest[..|rest| - 1];
      assert (albums + rest)[..|albums + rest| - 1] == albums + r;
      RaiseIsFinal(albums, r, cutoff);
    } else {
      assert albums + rest == albums;
    }
  }

  /** `album_names` answers every name as `LastArtist` does. */
  ghost predicate NamesAgree(albums: seq<Album>, cutoff: Date, albumNames: map<string, string>)
  {
    forall name :: LastArtist(albums, cutoff, name) == if name in albumNames then Some(albumNames[name]) else None
  }

  /** The run raises exactly when some album has a parseable date and no artist. */
  lemma {:induction false} RunRaises(albums: seq<Album>, cutoff: Date)
    ensures Run(albums, cutoff).None? <==> exists k :: 0 <= k < |albums| && Raises(albums[k])
  {
    if |albums| > 0 {
      var n := |albums| - 1;
      RunRaises(albums[..n], cutoff);
      assert forall k :: 0 <= k < n ==> albums[..n][k] == albums[k];
    }
  }

  /** One step keeps the registry's names in agreement with `LastArtist`, and appends an id exactly on admission. */
  lemma StepAgrees(albums: seq<Album>, reg: Registry, cutoff: Date)
    requires |albums| > 0
    requires Run(albums[..|albums| - 1], cutoff) == Some(reg)
    requires NamesAgree(albums[..|albums| - 1], cutoff, reg.albumNames)
    requires !Raises(albums[|albums| - 1])
    ensures Run(albums, cutoff).Some?
    ensures NamesAgree(albums, cutoff, Run(albums, cutoff).value.albumNames)
    ensures Run(albums, cutoff).value.albumIds
         == reg.albumIds + if Admits(albums, |albums| - 1, cutoff) then [albums[|albums| - 1].id] else []
  {
    var n := |albums| - 1;
    var a := albums[n];
    assert LastArtist(albums[..n], cutoff, a.name) == if a.name in reg.albumNames then Some(reg.albumNames[a.name]) else None;
  }

  lemma {:induction false} RunNamesAgree(albums: seq<Album>, cutoff: Date)
    requires Run(albums, cutoff).Some?
    ensures NamesAgree(albums, cutoff, Run(albums, cutoff).value.albumNames)
  {
    if |albums| > 0 {
      var n := |albums| - 1;
      RunNamesAgree(albums[..n], cutoff);
      StepAgrees(albums, Run(albums[..n], cutoff).value, cutoff);
    }
  }

  lemma {:induction false} RunIdsAgree(albums: seq<Album>, cutoff: Date)
    requires Run(albums, cutoff).Some?
    ensures var reg := Run(albums, cutoff).value;
      var idx := Admitted(albums, cutoff);
      && |reg.albumIds| == |idx|
      && (forall j :: 0 <= j < |idx| ==> idx[j] < |albums| && reg.albumIds[j] == albums[idx[j]].id)
  {
    if |albums| > 0 {
      var n := |albums| - 1;
      var p := albums[..n];
      RunIdsAgree(p, cutoff);
      RunNamesAgree(p, cutoff);
      StepAgrees(albums, Run(p, cutoff).value, cutoff);
      assert forall k :: 0 <= k < n ==> p[k] == albums[k];
    }
  }

  /**
   * The state machine agrees with the reference description: the run
   * raises exactly when some album has a parseable date and no artist;
   * otherwise `album_ids` holds the ids of the admitted albums in order,
   * and `album_names` binds each name to the primary artist of the last
   * in-window album with that name, and binds nothing else.
   */
  lemma {:induction false} RunMatchesReference(albums: seq<Album>, cutoff: Date)
    ensures Run(albums, cutoff).None? <==> exists k :: 0 <= k < |albums| && Raises(albums[k])
    ensures Run(albums, cutoff).Some? ==>
      var reg := Run(albums, cutoff).value;
      var idx := Admitted(albums, cutoff);
      && |reg.albumIds| == |idx|
      && (forall j :: 0 <= j < |idx| ==> idx[j] < |albums| && reg.albumIds[j] == albums[idx[j]].id)
      && (forall name :: LastArtist(albums, cutoff, name) == if name in reg.albumNames then Some(reg.albumNames[name]) else None)
  {
    RunRaises(albums, cutoff);
    if Run(albums, cutoff).Some? {
      RunNamesAgree(albums, cutoff);
      RunIdsAgree(albums, cutoff);
    }
  }

  /**
   * A name stays bound to the artist of the last ADMITTED album with that
   * name: the last in-window album of a name is either admitted or repeats
   * the artist already bound.
   */
  lemma {:induction false} LastArtistIsLastAdmitted(albums: seq<Album>, cutoff: Date, name: string)
    ensures LastArtist(albums, cutoff, name) == LastAdmittedArtist(albums, cutoff, name)
  {
    if |albums| > 0 {
      var n := |albums| - 1;
      LastArtistIsLastAdmitted(albums[..n], cutoff, name);
    }
  }

  /**
   * After the loop every name in `album_names` maps to the primary artist
   * of the last admitted album with that name, and only admitted names
   * are bound.
   */
  lemma RegistryNamesLastAdmitted(albums: seq<Album>, cutoff: Date, name: string)
    requires Run(albums, cutoff).Some?
    ensures var names := Run(albums, cutoff).value.albumNames;
      LastAdmittedArtist(albums, cutoff, name) == if name in names then Some(names[name]) else None
  {
    RunMatchesReference(albums, cutoff);
    LastArtistIsLastAdmitted(albums, cutoff, name);
  }

  /**
   * Only albums released strictly after the cutoff are admitted; an album
   * dated exactly on the cutoff is not.
   */
  lemma {:induction false} OnlyRecentAdmitted(albums: seq<Album>, cutoff: Date)
    ensures forall j :: 0 <= j < |Admitted(albums, cutoff)| ==>
      var k := Admitted(albums, cutoff)[j];
      k < |albums| && ParseDate(albums[k].releaseDate).Some? && After(ParseDate(albums[k].releaseDate).value, cutoff)
    ensures forall k :: 0 <= k < |albums| && ParseDate(albums[k].releaseDate) == Some(cutoff) ==> k !in Admitted(albums, cutoff)
  {
    var idx := Admitted(albums, cutoff);
    AdmittedIndices(albums, cutoff);
    forall j | 0 <= j < |idx|
      ensures idx[j] < |albums| && InWindow(albums[idx[j]], cutoff)
    {
      assert idx[j] in idx;
    }
  }

  /**
   * An album whose date does not parse, or that has a primary artist and a
   * date on or before the cutoff, changes nothing: removing it from the traversal leaves the outcome,
   * `album_ids` and `album_names` alike, as it was.
   */
  lemma {:induction false} SkippedAlbumIsInert(before: seq<Album>, a: Album, after: seq<Album>, cutoff: Date)
    requires !InWindow(a, cutoff) && !Raises(a)
    ensures Run(before + [a] + after, cutoff) == Run(before + after, cutoff)
  {
    if |after| == 0 {
      assert before + [a] + after == before + [a];
      assert (before + [a])[..|before|] == before;
      assert before + after == before;
    } else {
      var r := after[..|after| - 1];
      SkippedAlbumIsInert(before, a, r, cutoff);
      assert (before + [a] + after)[..|before + [a] + after| - 1] == before + [a] + r;
      assert (before + after)[..|before + after| - 1] == before + r;
    }
  }

  /**
   * The registry keeps one artist per name and overwrites it, so a
   * repeat by the first artist is admitted again once a same-named album
   * by another artist came in between: all three albums are admitted.
   */
  lemma RepeatAfterOtherArtistReadmitted(x: Album, y: Album, z: Album, cutoff: Date)
    requires InWindow(x, cutoff) && InWindow(y, cutoff) && InWindow(z, cutoff)
    requires x.name == y.name == z.name
    requires x.artists[0] == z.artists[0] != y.artists[0]
    ensures Admitted([x, y, z], cutoff) == [0, 1, 2]
  {
    var s := [x, y, z];
    assert s[..2] == [x, y] && [x, y][..1] == [x] && [x][..0] == [];
    assert Admitted([x], cutoff) == [0];
    assert LastArtist([x], cutoff, x.name) == Some(x.artists[0]);
    assert Admitted([x, y], cutoff) == [0, 1];
    assert LastArtist([x, y], cutoff, x.name) == Some(y.artists[0]);
  }

  /**
   * The same album listed again under the same primary artist, later
   * in the traversal (say on a featured artist's listing), is not
   * admitted a second time.
   */
  lemma SameArtistRepeatSkipped(x: Album, others: seq<Album>, cutoff: Date)
    requires InWindow(x, cutoff)
    requires forall k :: 0 <= k < |others| ==> others[k].name != x.name
    ensures Admitted([x] + others + [x], cutoff) == Admitted([x] + others, cutoff)
  {
    var s := [x] + others + [x];
    var n := |s| - 1;
    assert s[..n] == [x] + others;
    LastArtistPastOthers(x, others, cutoff);
  }

  /**
   * One iteration for an album whose name the registry still binds to its
   * primary artist leaves the registry as it was, whatever the date.
   */
  lemma BoundToSameArtistUnchanged(reg: Registry, a: Album, cutoff: Date)
    requires |a.artists| > 0
    requires a.name in reg.albumNames && reg.albumNames[a.name] == a.artists[0]
    ensures Step(reg, a, cutoff) == Some(reg)
  {
  }

  /**
   * Over a whole traversal: when the run so far binds the name of album `k`
   * to that album's primary artist, album `k` is not admitted and the
   * registry after it is the registry before it.
   */
  lemma SameArtistBindingSkipped(albums: seq<Album>, k: nat, reg: Registry, cutoff: Date)
    requires k < |albums| && |albums[k].artists| > 0
    requires Run(albums[..k], cutoff) == Some(reg)
    requires albums[k].name in reg.albumNames && reg.albumNames[albums[k].name] == albums[k].artists[0]
    ensures k !in Admitted(albums, cutoff)
    ensures Run(albums[..k + 1], cutoff) == Some(reg)
  {
    RunMatchesReference(albums[..k], cutoff);
    assert LastArtist(albums[..k], cutoff, albums[k].name) == Some(albums[k].artists[0]);
    assert !Admits(albums, k, cutoff);
    AdmittedIndices(albums, cutoff);
    assert albums[..k + 1] == albums[..k] + [albums[k]];
    RunSnoc(albums[..k], albums[k], reg, cutoff);
    BoundToSameArtistUnchanged(reg, albums[k], cutoff);
  }

  lemma {:induction false} LastArtistPastOthers(x: Album, others: seq<Album>, cutoff: Date)
    requires InWindow(x, cutoff)
    requires forall k :: 0 <= k < |others| ==> others[k].name != x.name
    ensures LastArtist([x] + others, cutoff, x.name) == Some(x.artists[0])
  {
    if |others| > 0 {
      var r := others[..|others| - 1];
      assert ([x] + others)[..|others|] == [x] + r;
      LastArtistPastOthers(x, r, cutoff);
    } else {
      assert [x] + others == [x];
    }
  }

  lemma TraversalSnoc(artistIds: seq<ArtistId>, albumsOf: ArtistId -> seq<Album>, i: nat)
    requires i < |artistIds|
    ensures Traversal(artistIds[..i + 1], albumsOf) == Traversal(artistIds[..i], albumsOf) + albumsOf(artistIds[i])
  {
    MapSeqSnoc(artistIds, albumsOf, i);
    ConcatSnoc(MapSeq(artistIds[..i], albumsOf), albumsOf(artistIds[i]));
  }

  lemma TraversalSplit(artistIds: seq<ArtistId>, albumsOf: ArtistId -> seq<Album>, i: nat)
    requires i < |artistIds|
    ensures Traversal(artistIds, albumsOf)
         == Traversal(artistIds[..i + 1], albumsOf) + Traversal(artistIds[i + 1..], albumsOf)
  {
    assert artistIds == artistIds[..i + 1] + artistIds[i + 1..];
    MapSeqAppend(artistIds[..i + 1], artistIds[i + 1..], albumsOf);
    ConcatAppend(MapSeq(artistIds[..i + 1], albumsOf), MapSeq(artistIds[i + 1..], albumsOf));
  }

  /** Running one more album is one more step. */
  lemma RunSnoc(albums: seq<Album>, a: Album, reg: Registry, cutoff: Date)
    requires Run(albums, cutoff) == Some(reg)
    ensures Run(albums + [a], cutoff) == Step(reg, a, cutoff)
  {
    assert (albums + [a])[..|albums|] == albums;
  }

  /** An album that raises in the middle of artist `i`'s listing makes the whole traversal raise. */
  lemma RaiseInTraversal(artistIds: seq<ArtistId>, albumsOf: ArtistId -> seq<Album>, i: nat, j: nat, cutoff: Date)
    requires i < |artistIds| && j < |albumsOf(artistIds[i])|
    requires Run(Traversal(artistIds[..i], albumsOf) + albumsOf(artistIds[i])[..j + 1], cutoff).None?
    ensures Run(Traversal(artistIds, albumsOf), cutoff).None?
  {
    var albums := albumsOf(artistIds[i]);
    var done := Traversal(artistIds[..i], albumsOf);
    TraversalSplit(artistIds, albumsOf, i);
    TraversalSnoc(artistIds, albumsOf, i);
    assert albums == albums[..j + 1] + albums[j + 1..];
    RaiseIsFinal(done + albums[..j + 1], albums[j + 1..] + Traversal(artistIds[i + 1..], albumsOf), cutoff);
    assert Traversal(artistIds, albumsOf)
        == (done + albums[..j + 1]) + (albums[j + 1..] + Traversal(artistIds[i + 1..], albumsOf));
  }

  /**
   * get_albums: for each artist, in order, fetch its albums and run each
   * through the filter. `raised` reports the IndexError of an album with
   * no artist; otherwise the result is the filter run over the whole
   * traversal.
   */
  method GetAlbums(artistIds: seq<ArtistId>, albumsOf: ArtistId -> seq<Album>, cutoff: Date)
    returns (raised: bool, albumIds: seq<AlbumId>, albumNames: map<string, string>)
    ensures raised <==> Run(Traversal(artistIds, albumsOf), cutoff).None?
    ensures !raised ==> Run(Traversal(artistIds, albumsOf), cutoff) == Some(Registry(albumIds, albumNames))
  {
    raised := false;
    albumIds := [];
    albumNames := map[];
    for i := 0 to |artistIds|
      invariant Run(Traversal(artistIds[..i], albumsOf), cutoff) == Some(Registry(albumIds, albumNames))
    {
      ghost var done := Traversal(artistIds[..i], albumsOf);
      var albums := albumsOf(artistIds[i]);
      assert done + albums[..0] == done;
      for j := 0 to |albums|
        invariant Run(done + albums[..j], cutoff) == Some(Registry(albumIds, albumNames))
      {
        var album := albums[j];
        assert done + albums[..j + 1] == (done + albums[..j]) + [album];
        RunSnoc(done + albums[..j], album, Registry(albumIds, albumNames), cutoff);
        match ParseDate(album.releaseDate) {
          case None =>
          case Some(releaseDate) =>
            if |album.artists| == 0 {
              raised := true;
              RaiseInTraversal(artistIds, albumsOf, i, j, cutoff);
              return;
            }
            var artistName := album.artists[0];
            if After(releaseDate, cutoff) {
              if album.name !in albumNames || artistName != albumNames[album.name] {
                albumIds := albumIds + [album.id];
                albumNames := albumNames[album.name := artistName];
              }
            }
        }
      }
      TraversalSnoc(artistIds, albumsOf, i);
      assert albums[..|albums|] == albums;
    }
    assert artistIds[..|artistIds|] == artistIds;
  }
}
