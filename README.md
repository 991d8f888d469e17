# SpotiFlask release discovery, modelled in Dafny

SpotiFlask builds a playlist of new releases for one user of a music
streaming service. Its web handlers run one after another:

1. read the followed artists, page by page;
2. keep each artist's albums released in the last two weeks, without
   repeats by the same artist;
3. collect the tracks of those albums;
4. append the tracks to a new playlist in one, two or three requests.

This project models the logic of these four handlers. It works on plain
data: every HTTP response is given as input.

- `wrappers.dfy` (`Wrappers`): `Option`.
- `seqs.dfy` (`Seqs`): `Concat` and `MapSeq`, and their lemmas. Every stage
  builds its output by appending listings in order.
- `dates.dfy` (`Dates`): calendar dates. It also models
  `datetime.strptime(s, '%Y-%m-%d')` as CPython implements it:
  - the year is exactly four digits;
  - the month is `1[0-2]`, `0[1-9]` or `[1-9]`;
  - the day is `3[01]`, `[12]\d`, `0[1-9]`, `[1-9]` or a space followed
    by `[1-9]`;
  - the pattern must consume the whole string;
  - the date must exist (year 1 to 9999, day within its month).

  Any other string raises ValueError, modelled as `None`. The lemma
  `ParseDateSpellings` gives the exact set of strings that parse to each
  date. `Format`, the catalog's `YYYY-MM-DD` form, always parses back.
- `releases.dfy` (`Releases`): the release filter of `get_albums`.
  - `Step` is one pass of the inner loop and `Run` folds it over the
    traversal. `Run` returns `None` once an album raises.
  - `GetAlbums` is the nested loop itself, proved equal to `Run`.
  - A second description needs no registry: `LastArtist`, `Admits` and
    `Admitted` look back over the albums already seen.
    `RunMatchesReference` proves that the two descriptions agree.
- `tracks.dfy` (`Tracks`): the track collector of `get_tracks`, and the
  two-artist example run end to end.
- `artists.dfy` (`Artists`): the followed-artist pagination of
  `get_artists`.
- `batches.dfy` (`Batches`): how `add_to_playlist` chooses the batch count
  and cuts the list as `numpy.array_split` does. `AddToPlaylist` is the
  handler with line 197 corrected, and `AddAsWritten` is the handler as
  written (see Findings).

Inputs that replace I/O:
- The album listing of an artist is a function `albumsOf: ArtistId -> seq<Album>`.
- The track listing of an album is a function `tracksOf: AlbumId -> seq<TrackUri>`.
- The followed-artist responses are `pages: seq<Page>`. `pages[0]` is the
  first response, and `pages[i + 1]` answers `pages[i].next`.
- The cutoff date (today minus two weeks) is a parameter.

Two points about the code that the model follows exactly:
- `album_names` keeps one artist per name, and each admission overwrites
  it. So albums with the same name by P, Q and P, in that order, are all admitted
  (`RepeatAfterOtherArtistReadmitted`).
- For more than 200 tracks, the code as written raises at line 197
  before sending any request (see Findings).

## Model

| member | source | states |
|---|---|---|
| `Dates.ParseDate` | spotif/discover.py:121 | a successful parse always yields a real calendar date (year 1–9999, month 1–12, day within the month) |
| `Dates.ParseDateSpellings` | spotif/discover.py:121 | a string parses to `d` if and only if `d` is valid and the string is one of its `%Y-%m-%d` spellings: four-digit year, month with or without a leading zero, day with a leading zero, a leading space or neither |
| `Dates.ParseFormat` | spotif/discover.py:121 | every valid date in the catalog's `YYYY-MM-DD` form parses back to itself |
| `Dates.MalformedExample` | spotif/discover.py:120-121 | `"2024-13-40"` raises ValueError |
| `Dates.CoarsePrecisionExamples` | spotif/discover.py:120-121 | year-only and year-month release dates (`"2024"`, `"2024-05"`) raise ValueError |
| `Dates.CommonYearLeapDayExample` | spotif/discover.py:120-121 | 29 February of a common year (`"2023-02-29"`) raises ValueError |
| `Dates.ThirtyFirstOfAprilExample` | spotif/discover.py:120-121 | 31 April (`"2024-04-31"`) raises ValueError |
| `Dates.WellFormedExamples` | spotif/discover.py:121 | 29 February of a leap year parses, and so does a day written with a leading space |
| `Releases.GetAlbums` | spotif/discover.py:106-131 | the nested loop over artists and their albums raises exactly when the filter run over the whole artist-major traversal raises; otherwise it returns that run's `album_ids` and `album_names` |
| `Releases.RunMatchesReference` | spotif/discover.py:112-129 | the registry state machine agrees with the description without a registry. It raises exactly when some album has a parseable date and an empty artist list. Otherwise `album_ids` holds the ids of the admitted albums in order. An album is admitted when it is in the window and the last earlier in-window album of that name, if any, has another primary artist. `album_names` binds each name to the artist of its last in-window album and binds nothing else |
| `Releases.AdmittedIndices` | spotif/discover.py:112-127 | the admitted positions are strictly increasing and within the traversal, and a position is listed exactly when that album is admitted: an order-preserving subsequence with one entry per admission |
| `Releases.OnlyRecentAdmitted` | spotif/discover.py:124 | every admitted album has a parseable date strictly after the cutoff; an album dated exactly on the cutoff is never admitted |
| `Releases.SkippedAlbumIsInert` | spotif/discover.py:120-129 | an album whose date does not parse, or that has a primary artist and a date on or before the cutoff, changes nothing: the run with it equals the run without it, so the ids, the names and the rest of the processing are unchanged |
| `Releases.BoundToSameArtistUnchanged` | spotif/discover.py:122-127 | one iteration over an album with a primary artist, whose name the registry binds to that same artist, leaves `album_ids` and `album_names` unchanged, whatever its date |
| `Releases.SameArtistBindingSkipped` | spotif/discover.py:112-127 | in any traversal, an album whose name the run so far binds to its own primary artist is not admitted, and the registry after it equals the registry before it |
| `Releases.SameArtistRepeatSkipped` | spotif/discover.py:125 | an in-window album listed again, with only albums of other names in between, is not admitted the second time: the admitted positions are those without the repeat |
| `Releases.RepeatAfterOtherArtistReadmitted` | spotif/discover.py:125-127 | three in-window albums with one name and artists P, Q, P are all admitted, because each admission overwrites the name's binding |
| `Releases.LastArtistIsLastAdmitted` | spotif/discover.py:125-127 | the artist of the last in-window album of a name is the artist of the last admitted album of that name |
| `Releases.RegistryNamesLastAdmitted` | spotif/discover.py:125-127 | after the loop each name in `album_names` maps to the primary artist of the last admitted album with that name, and only names of admitted albums are bound |
| `Releases.RaiseIsFinal` | spotif/discover.py:123 | once an album raises IndexError, nothing later in the traversal is processed: the run stays raised |
| `Tracks.GetTracks` | spotif/discover.py:142-151 | the loop's `track_uris` equals the concatenation, in `album_ids` order, of each album's track URIs in listing order |
| `Tracks.TrackPosition` | spotif/discover.py:144-151 | track `j` of album `i` appears in the track list right after all tracks of the albums before `i` |
| `Tracks.TrackListAppend` | spotif/discover.py:144-151 | collecting two runs of albums gives their track lists one after the other |
| `Tracks.RecentReleaseOnly` | spotif/discover.py:106-151 | two artists, one release 10 days old and one 20 days old, cutoff 14 days back: only the recent release is admitted and only its tracks are collected |
| `Artists.LastPage` | spotif/discover.py:86 | pagination stops at the first page whose `next` is null or empty, and at no page before it |
| `Artists.GetArtists` | spotif/discover.py:79-91 | `artist_ids` is the item ids of every page read, first page included, concatenated in page order |
| `Artists.PagesAfterLastIgnored` | spotif/discover.py:86-91 | pages after the first page without `next` are never read: extending the listing changes neither the last page read nor the ids |
| `Batches.SectionSizes` | spotif/discover.py:192 | `array_split` section sizes: `k` sizes summing to `n`, the first `n % k` equal to `n / k + 1`, the rest `n / k` |
| `Batches.SplitAt` | spotif/discover.py:192 | cutting by sizes summing to the length gives parts of exactly those sizes that concatenate back to the input |
| `Batches.ArraySplit` | spotif/discover.py:192 | `numpy.array_split(s, k)` gives `k` parts that concatenate back to `s`, the first `|s| % k` of them one longer than the rest |
| `Batches.BatchesPartition` | spotif/discover.py:189-214 | there are 3 batches above 200 tracks, 2 above 100, else 1. They concatenate back to the track list, each holds ⌊n/k⌋ or ⌈n/k⌉ tracks, and no batch is longer than one before it |
| `Batches.BatchesWithinLimit` | spotif/discover.py:191-214 | every batch has at most 100 tracks if and only if there are at most 300 tracks |
| `Batches.BatchSizeExamples` | spotif/discover.py:191-214 | 250 tracks give batches of 84, 83 and 83; 150 give 75 and 75; 80 give one batch of 80 |
| `Batches.AddToPlaylist` | spotif/discover.py:188-214 | the handler with line 197's `json.dump` corrected to `json.dumps` (the corrected side of the Findings row): the append requests sent are the batches, in order, their number is the batch count, and their payloads concatenate to the track list |
| `Batches.AddAsWritten` | spotif/discover.py:188-214 | the handler as written: it raises exactly when there are more than 200 tracks, and then before any append request, so no track reaches the playlist; up to 200 tracks it sends exactly the batches, which concatenate to the track list |

## Findings

| source | as written | input that shows it | evidently intended | confidence | as-written member | corrected member |
|---|---|---|---|---|---|---|
| spotif/discover.py:197 | `data=json.dump(payload)` passes no file object, so the call raises TypeError before the first of the three requests is sent | any track list of more than 200 tracks, e.g. 250 | `json.dumps(payload)`, as in the other two branches: three requests whose payloads concatenate to the track list | high (not executed) | `Batches.AddAsWritten` | `Batches.AddToPlaylist` |

## Left out

- The OAuth redirect and token exchange (`request_auth`, `request_tokens`). They are HTTP steps with no logic.
- All HTTP requests and their JSON decoding. Responses are inputs. Status codes are never checked, so failed requests are not modelled.
- The catalog's own limit of 100 tracks per append request. It belongs to the remote service. `Batches.BatchesWithinLimit` states when the batches respect it.
- Flask routing, redirects and the `session` store. Results are returned instead of stored.
- Reading and writing `tokens.json` and `tracks.json` (`get_tokens`, `get_track`, the `json.dump` in `get_tracks`).
- `create_playlist`: one POST and date formatting of the playlist name. It has no logic beyond formatting.
- The clock. The cutoff date is a parameter: `datetime.now()` minus two weeks is not computed.
- Missing JSON keys in a response (a KeyError aborts the handler). Records always carry their fields.
- `Dates.ParseDate`: `\d` in CPython's regular expression also matches non-ASCII decimal digits. The model accepts only `0`–`9`.
- `numpy` itself. `array_split` is modelled by its documented section sizes, and its conversion of the strings to a numpy array is not modelled.
- `Artists.GetArtists` requires some page to end the chain of `next` links. A listing whose links never end makes the source loop forever, and that is not modelled.
- Pagination of per-artist album listings and per-album track listings. The source reads only their first page, and the model does the same.
- The `print` calls, which log only.
