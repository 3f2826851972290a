# Song lyrics word counts: a Dafny model of the aggregation pipeline

`al_song_lyrics.py` is a small Dash web page. The user types a
comma-separated list of artist names. For each artist the program asks a
music metadata service for the artist's single releases and builds an
ordered dictionary from song title to release year. Remixes are skipped and
only the first release of each title is kept. It then asks a lyrics service
for the lyrics of every song, strips their punctuation, lower-cases them and
counts their words. Songs without lyrics are dropped. Finally it shows a
per-artist summary and a table of songs sorted by release year.

This project models that pipeline in Dafny:

- `collections.dfy` (`Collections`): `Option`, distinctness, first index and
  occurrence count over sequences.
- `text.dfy` (`Text`): the parts of Python's string behaviour the pipeline
  relies on, restricted to ASCII. This covers `string.punctuation`,
  whitespace as `str.split()` sees it (code points 9–13 and 28–32),
  `str.lower`, `str.split(sep)` (empty fields kept), `str.split()` and
  `" ".join`. The round trips between splitting and joining are proved:
  `SplitJoin` and `JoinSplit` for one separator, `WordsJoin` for
  whitespace splitting of a single-space join.
- `song_lookup.dfy` (`SongLookup`): `get_songs_for_artist`. The decoded
  response is an input. The dictionary is a sequence of `Entry` items with
  distinct titles, in insertion order. A release whose title is missing, or
  whose date `int()` cannot read, ends the loop, and the items gathered so
  far are returned. That is what the `except` clause does with the
  `KeyError`/`ValueError`.
- `lyrics.dfy` (`Lyrics`): the cleaning part of `get_lyrics_for_song`. The
  fetched text is an input, `""` when the service gave nothing. The
  character loop is a method proved against the `Clean` function.
- `records.dfy` (`Records`): the rows of the song table, the song listing
  and the per-artist summary.
- `results.dfy` (`Results`): `Series.unique()`, the per-artist summary loop
  of the submit callback, and the sort by release year.
- `aggregation.dfy` (`Aggregation`): the global `SONGS_DF` as a class
  `SongTable` with a `rows: seq<Row>` field. It models
  `get_songs_and_lyrics_for_artists`, the submit callback and the
  show-songs callback. Both web services are function-valued parameters:
  - `Lookup` maps an artist name to a response.
  - `LyricsSource` maps (artist, title) to the raw lyrics text.

  The pandas steps `apply`, row `drop` and the word-count column are
  functions on sequences of rows. `WithLyrics` is their reference
  definition: the rows whose cleaned lyrics are not `""`, in order, each
  with its lyrics and word count filled in.

The submit callback refetches the lyrics of every row, old and new, after
each artist. The model proves that this refetch is harmless. After every
turn of the artist loop, the table equals a single lyrics pass over all the
rows appended so far.

The model follows the code in these points:

- Artist segments are not trimmed. Only empty segments are skipped.
- A release with a missing title or a non-numeric date stops the lookup for
  that artist; it is not skipped.
- Words are counted by splitting the cleaned lyrics on single spaces. For
  cleaned text this gives the same count as whitespace splitting
  (`Lyrics.CleanTokens`).

## Model

| member | source | states |
|---|---|---|
| Text.LowerChar | al_song_lyrics.py:109 | lower-casing turns an upper-case ASCII letter into the same letter in lower case, leaves no upper-case letter, keeps whitespace and punctuation classes, and changes every other character not at all |
| Text.Lower | al_song_lyrics.py:159 | `str.lower` lower-cases each character in place: same length, character `i` of the result is character `i` of the input lower-cased, so no upper-case ASCII letter is left and whitespace and punctuation stay where they were |
| Text.Join | al_song_lyrics.py:160 | `sep.join(parts)` (a definition without contract of its own): the parts with one separator between neighbours; what it promises is stated by `Text.SplitJoin`, `Text.JoinSplit`, `Text.JoinWellSpaced` and `Text.JoinChars` |
| Text.Split | al_song_lyrics.py:171 | `str.split(sep)` yields at least one field, and no field contains the separator |
| Text.JoinSplit | al_song_lyrics.py:171 | joining the fields of `str.split(sep)` with the separator gives back the original string, so splitting loses no text |
| Text.SplitJoin | al_song_lyrics.py:186 | splitting a join of separator-free parts on the separator gives back exactly those parts |
| Text.Words | al_song_lyrics.py:156 | every token of `str.split()` is non-empty and holds no whitespace |
| Text.WordsSplitAtSpace | al_song_lyrics.py:156 | any whitespace character (space, newline, tab, ...) separates tokens: the tokens of `a + [c] + b` are those of `a` followed by those of `b`, so runs of whitespace and line breaks produce no empty token |
| Text.WordsOfWord | al_song_lyrics.py:156 | a non-empty run without whitespace is exactly one token; with `WordsSplitAtSpace` and `WordsEmpty` this fixes the tokens of every text as its maximal non-whitespace runs, in order |
| Text.WordsJoin | al_song_lyrics.py:156-160 | whitespace-splitting a single-space join of tokens gives back the tokens |
| Text.WordsEmpty | al_song_lyrics.py:156 | `str.split()` yields no token exactly when every character is whitespace |
| Text.WordsNoPunctuation | al_song_lyrics.py:151-156 | the tokens of punctuation-free text are punctuation-free |
| Text.JoinWellSpaced | al_song_lyrics.py:160 | a single-space join of tokens has no leading, trailing or doubled space and starts with the first token's first character |
| Text.JoinChars | al_song_lyrics.py:160 | every character of a join is the separator or comes from one of the parts |
| SongLookup.ParseInt | al_song_lyrics.py:101-104 | `int()` succeeds exactly on a non-empty string of ASCII digits, and the number it gives, written back with as many digits, is that string |
| SongLookup.DigitsOfValue | al_song_lyrics.py:101-104 | writing back the number a digit string reads as, with as many digits, gives the string back |
| SongLookup.ReleaseYear | al_song_lyrics.py:100-107 | no date gives the default year 2000; otherwise the year is read from the first four characters of a longer date or from the whole of a shorter one, succeeds exactly when those characters are all digits and there is at least one, and is the number they write |
| SongLookup.ParseRelease | al_song_lyrics.py:99-107 | a release is read exactly when it has a title and a readable year, and gives that title with that year |
| SongLookup.DigitsValueOfDigits | al_song_lyrics.py:101-104 | `int()` of the zero-padded decimal rendering of `n` is `n` |
| SongLookup.YearOfDate | al_song_lyrics.py:100-104 | a date made of four digits, optionally followed by more text, yields the year those digits write |
| SongLookup.YearBound | al_song_lyrics.py:100-107 | a release with no date gets year 2000; a year read from a date lies in 0..9999 |
| SongLookup.YearExamples | al_song_lyrics.py:100-107 | "1994-03-21" yields 1994, and a missing date yields 2000 |
| SongLookup.ParsedPrefix | al_song_lyrics.py:96-107 | the releases read before the first one whose title or year cannot be read, each read correctly; the next release, if any, is that failing one |
| SongLookup.ContainsRemix | al_song_lyrics.py:109 | `"remix" in title.lower()` (a definition without contract of its own); what it means is stated by `SongLookup.RemixSpellings` and `SongLookup.RemixInAnyCase` |
| SongLookup.RemixInAnyCase | al_song_lyrics.py:109 | a title that contains any letter-case spelling of "remix" ("Remix", "REMIX", ...) counts as a remix |
| SongLookup.RemixSpellings | al_song_lyrics.py:109 | a title is a remix exactly when five consecutive characters of it spell "remix" in some letter case |
| SongLookup.Insert | al_song_lyrics.py:109-110 | the guarded assignment either leaves the dictionary alone or appends the item; a remix title or a title already present leaves it alone; a non-remix title is present afterwards; distinct titles stay distinct |
| SongLookup.Dedup | al_song_lyrics.py:109-110 | the dictionary has no title containing "remix" in any case, takes every entry from its input, and has distinct titles |
| SongLookup.SongsForArtist | al_song_lyrics.py:80-119 | the release loop returns exactly the dictionary `SongsFor` defines for the response, including on early exit |
| SongLookup.DedupKeepsFirst | al_song_lyrics.py:109-110 | a non-remix title keeps the entry of its first occurrence, with that occurrence's year |
| SongLookup.DuplicateIgnored | al_song_lyrics.py:109-110 | a later release with a title already seen changes nothing |
| SongLookup.DedupFirstSeenOrder | al_song_lyrics.py:109-110 | dictionary keys appear in the order their titles first appear in the releases |
| SongLookup.SongsFor | al_song_lyrics.py:80-119 | what `get_songs_for_artist` returns for a response (a definition without contract of its own): the dictionary of the readable releases before the first unreadable one, or nothing for a failed request or a response without releases; its properties are stated by the `SongLookup` lemmas in this table and it is what `SongLookup.SongsForArtist` is proved to compute |
| SongLookup.NoReleasesNoSongs | al_song_lyrics.py:96-117 | a failed request or a response without "releases" gives an empty dictionary |
| SongLookup.SongsWellFormed | al_song_lyrics.py:109 | for every response the dictionary has distinct titles, none containing "remix" in any case |
| SongLookup.FailureKeepsEarlier | al_song_lyrics.py:96-107 | when release `j` is the first whose title or date cannot be read, the result is exactly the dictionary of the releases before `j`, whether or not `j` is a remix or duplicate |
| SongLookup.FirstReleaseWins | al_song_lyrics.py:96-110 | a non-remix title first seen at a readable release `j` is in the result with release `j`'s year |
| Lyrics.StripPunctuation | al_song_lyrics.py:151-155 | the text without ASCII punctuation is no longer than the input, holds no punctuation, and holds a character exactly when the input holds it and it is not punctuation |
| Lyrics.StripPunctuationAppend | al_song_lyrics.py:151-155 | stripping a concatenation strips each part and keeps their order; with the one-character case this fixes the result as the non-punctuation characters of the input, in order and with their multiplicity |
| Lyrics.LowerAll | al_song_lyrics.py:159 | the comprehension keeps the number of tokens, and token `k` of the result is token `k` of the input lower-cased: same length, no upper-case ASCII letter |
| Lyrics.Clean | al_song_lyrics.py:150-162 | what `get_lyrics_for_song` returns for a fetched text (a definition without contract of its own); its meaning is stated by `CleanShape`, `CleanTokens`, `CleanEmpty` and `CleanIsJoinOfTokens`, and `CleanLyrics` is proved to compute it |
| Lyrics.CleanLyrics | al_song_lyrics.py:150-162 | the character loop, split, lower-casing and join compute exactly `Clean` of the fetched text, and `""` for `""` |
| Lyrics.CleanedTokens | al_song_lyrics.py:156-159 | the cleaned tokens are the whitespace tokens of the punctuation-free text, each lower-cased, in order and as many; each is non-empty, without whitespace, punctuation or upper-case ASCII |
| Lyrics.CleanIsJoinOfTokens | al_song_lyrics.py:156-160 | cleaned lyrics are the single-space join of the lower-cased tokens of the punctuation-free text |
| Lyrics.CleanShape | al_song_lyrics.py:150-160 | cleaned lyrics hold no ASCII punctuation or upper-case letter, no whitespace but single spaces, and no leading, trailing or doubled space |
| Lyrics.CleanTokens | al_song_lyrics.py:156-160 | splitting non-empty cleaned lyrics on " " or on whitespace gives the cleaning's tokens; their number equals `number_of_words` and is at least 1 |
| Lyrics.CleanEmpty | al_song_lyrics.py:150-160 | cleaned lyrics are "" exactly when the fetched text is empty or holds only punctuation and whitespace |
| Results.Unique | al_song_lyrics.py:217 | `unique()` holds each artist of the table exactly once and nothing else |
| Results.UniqueFirstSeenOrder | al_song_lyrics.py:217 | artists come out in the order of their first row |
| Results.WordTotal | al_song_lyrics.py:216-220 | the sum of the word counts of one artist's rows (a definition without contract of its own), from which the mean is computed |
| Results.Summary | al_song_lyrics.py:216-226 | the summary table (a definition without contract of its own): what `Results.SummaryCoversRows` characterises and `Results.Summarize` is proved to compute |
| Results.Summarize | al_song_lyrics.py:216-226 | the loop appends one summary entry per distinct artist, in order, with that artist's song count and word total |
| Results.SummaryCoversRows | al_song_lyrics.py:216-226 | one entry per distinct artist in first-seen order; every entry counts at least one song, and the counts add up to the number of rows |
| Results.Listing | al_song_lyrics.py:271 | the column selection, row by row (a definition without contract of its own); `Aggregation.SongTable.ShowSongs` states what is promised about its sorted form |
| Results.InsertByYearPermutes | al_song_lyrics.py:271 | inserting a song adds exactly that song to the multiset of songs |
| Results.InsertByYearSorted | al_song_lyrics.py:271 | inserting into a year-ordered listing keeps it year-ordered |
| Results.SortByYear | al_song_lyrics.py:271 | the sorted listing is a permutation of the rows with non-decreasing release years |
| Aggregation.GetLyricsForSong | al_song_lyrics.py:121-162 | the lyrics function applied to every row (a definition without contract of its own): the cleaned fetched text; what the rows then hold is stated by `Aggregation.TableRows` |
| Aggregation.ArtistRows | al_song_lyrics.py:175-176 | one row per dictionary item, in dictionary order, with that item's title and year and the artist's name |
| Aggregation.SegmentRows | al_song_lyrics.py:173-176 | an empty segment adds no row; a name adds one row per song of its dictionary, each carrying that name |
| Aggregation.NewRows | al_song_lyrics.py:171-176 | every row appended for an artist list carries a non-empty segment of that list as its artist |
| Aggregation.ApplyLyrics | al_song_lyrics.py:179 | `apply` keeps the rows and changes only the lyrics column, which becomes the lyrics function's value for the row's artist and title |
| Aggregation.DropEmpty | al_song_lyrics.py:181-184 | dropping the "" rows keeps exactly the rows whose lyrics are not "" and no others, and never adds rows; their order is fixed by `Aggregation.DropEmptySnoc`, which keeps or drops the last row and leaves the rest as before |
| Aggregation.CountWords | al_song_lyrics.py:186 | the word-count column is filled for every row and nothing else changes; every count is at least 1, since splitting on " " yields at least one field; the value is the number of " "-fields of the row's lyrics (`Aggregation.CountWordsKept`), which `Aggregation.TableRows` equates with the whitespace-token count |
| Aggregation.WithLyrics | al_song_lyrics.py:179-186 | the rows kept after the lyrics steps are never more than the rows before them |
| Aggregation.PandasStepsMatch | al_song_lyrics.py:179-186 | `apply` of the lyrics function, dropping rows with "" lyrics and counting words yield exactly the reference table `WithLyrics` |
| Aggregation.WithLyricsMembers | al_song_lyrics.py:179-184 | a song keeps a row exactly when its cleaned lyrics are not "", and the row kept is that song's completed row |
| Aggregation.TableRows | al_song_lyrics.py:179-186 | every kept row holds its song's cleaned lyrics, never "", and a word count at least 1, equal to the whitespace-token count of the punctuation-free fetched text |
| Aggregation.WithLyricsAppend | al_song_lyrics.py:178-186 | the lyrics steps treat rows independently: on a concatenation they give the concatenation of the results, order preserved |
| Aggregation.WithLyricsIdempotent | al_song_lyrics.py:179 | running the lyrics steps again over their own result changes nothing |
| Aggregation.RefetchHarmless | al_song_lyrics.py:178-179 | refetching already processed rows together with new ones gives the same table as one pass over all rows |
| Aggregation.NewRowsAppend | al_song_lyrics.py:171-176 | artist segments contribute their rows in input order; a repeated name contributes its songs again |
| Aggregation.NoArtistNoRows | al_song_lyrics.py:172-173 | an artist list whose segments are all empty contributes no rows |
| Aggregation.LoadStepNext | al_song_lyrics.py:178-186 | for a non-empty name after earlier ones, the grown table equals one lyrics pass over all rows appended so far |
| Aggregation.LoadStepFirst | al_song_lyrics.py:172-186 | for the first non-empty name, the table equals one lyrics pass over the starting rows and that artist's rows |
| Aggregation.LoadStepSkip | al_song_lyrics.py:173 | an empty segment adds no rows and does not count as an artist |
| Aggregation.LoadStep | al_song_lyrics.py:172-186 | one turn of the artist loop keeps the loop's invariant: one lyrics pass over every row appended so far, or the starting table while no artist has been added |
| Aggregation.SongTable.constructor | al_song_lyrics.py:23 | the song table starts empty |
| Aggregation.SongTable.Clear | al_song_lyrics.py:214 | dropping every index leaves the table empty |
| Aggregation.SongTable.AddArtist | al_song_lyrics.py:174-186 | the table becomes one lyrics pass over its old rows followed by the artist's dictionary rows |
| Aggregation.SongTable.LoadArtists | al_song_lyrics.py:164-186 | with some non-empty segment, the table becomes one lyrics pass over the old rows followed by every segment's rows in order; with none it is unchanged |
| Aggregation.SongTable.Submit | al_song_lyrics.py:208-226 | a non-empty input clears and refills the table and returns its per-artist summary; an empty input changes nothing and returns no summary |
| Aggregation.SongTable.ShowSongs | al_song_lyrics.py:266-272 | the listing holds the artist, title, year and word count of every row, as a permutation, with non-decreasing years |

## Left out

- The Dash layout, the status-text callback and the figure (al_song_lyrics.py:25-77, 191-199, 228-257) are user interface and are not modelled.
- The HTTP requests, `raise_for_status`, JSON decoding and URL building (al_song_lyrics.py:87, 92-94, 129, 135-137) are I/O. Their outcome is a parameter: a `LookupResponse` per artist, and a lyrics text per (artist, title) that is `""` on any failure.
- The lyrics and discography services are modelled as deterministic functions. A service that answers differently when asked again is not modelled.
- `print` calls have no effect on the data and are left out.
- Results.Summarize: reports the song count and word total of each artist instead of the mean, sample variance and standard deviation rounded to one decimal (al_song_lyrics.py:218-220), because those are floating-point values. NaN for a single-song variance is left out for the same reason.
- Aggregation.SongTable.Submit: returns an empty summary where the source returns the empty string for an empty input. The column list and the figure it also returns are not modelled.
- Random colour assignment with `np.random.randint` (al_song_lyrics.py:235-239) is nondeterministic presentation and is left out.
- Pandas internals (index labels, `concat`, `apply`, column dtypes) are not modelled. The table is a sequence of rows. Rows not yet fetched carry lyrics `""` and word count 0 in place of pandas NaN; both are overwritten before they are read.
- Aggregation.SongTable.AddArtist: two failure paths of the source are not modelled, because the lyrics service is modelled as a total function to strings and the table steps as functions on sequences. (1) If the table has no rows when the lyrics column is recomputed (al_song_lyrics.py:179), for example when the first non-empty artist's lookup fails or finds only remixes, pandas `apply` on an empty frame may call the lyrics function on an empty row and assign a multi-column result to the "lyrics" column; the ValueError that follows is not caught, and the exception ends the whole artist loop and the submit callback. The model instead treats the lyrics pass over an empty table as giving an empty table, and `LoadArtists` goes on with the remaining segments and adds their rows. The model's table and summary are then those of the later segments, and empty only when none of them has songs. (2) A "lyrics" field that is not a string (a JSON null) makes `len()` at al_song_lyrics.py:150 raise outside the `try`; the model's lyrics text is always a string.
- Aggregation.SongTable.ShowSongs: states no order among songs with the same year, because pandas' default sort is not stable.
- Text: `str.lower`, `str.split()` and `string.punctuation` are modelled on ASCII only; Unicode case mapping and Unicode whitespace are left out.
- SongLookup.ReleaseYear: `int()` is modelled on ASCII digit strings only. Its tolerance of a sign, surrounding whitespace and underscores, and of non-ASCII digits, is left out. So is a title or date that is not a string in the JSON.
- The `KeyError`/`ValueError` path is modelled as an early return of the items gathered so far. Python's exception machinery itself is not modelled.
