/** The song table (the global SONGS_DF) and the operations that fill and
    read it: get_songs_and_lyrics_for_artists, the submit callback and the
    show-songs callback. The two web services are parameters: a discography
    lookup per artist name and a lyrics text per (artist, title). */
module Aggregation {
  import opened Collections
  import opened Text
  import opened SongLookup
  import opened Lyrics
  import opened Records
  import opened Results

  /** What the discography service answers for an artist name. */
  type Lookup = string -> LookupResponse

  /** The raw lyrics text the lyrics service gives for (artist, title); ""
      when the request failed or the answer had no "lyrics" field. */
  type LyricsSource = (string, string) -> string

  /** The cleaned lyrics of a song, keyed like the lyrics service by
      (artist, title). */
  type SongLyrics = (string, string) -> string

  /** get_lyrics_for_song (lines 121-162): the fetched text, cleaned. */
  function GetLyricsForSong(fetch: LyricsSource): SongLyrics
  {
    (artist: string, title: string) => Clean(fetch(artist, title))
  }

  /** Lines 175-176: the rows built from one artist's song dictionary. The
      lyrics and word-count columns are not filled yet; "" and 0 stand in. */
  function ArtistRows(artist: string, songs: seq<Entry>): (rows: seq<Row>)
    ensures |rows| == |songs|
    ensures forall k :: 0 <= k < |rows| ==>
      rows[k].artist == artist && rows[k].title == songs[k].title && rows[k].year == songs[k].year
  {
    seq(|songs|, k requires 0 <= k < |songs| => Row(songs[k].title, songs[k].year, artist, "", 0))
  }

  /** The song dictionary of each artist name. */
  type Discography = string -> seq<Entry>

  /** get_songs_for_artist over the discography service (lines 80-119). */
  function SongDictionaries(lookup: Lookup): Discography
  {
    (artist: string) => SongsFor(lookup(artist))
  }

  /** The rows appended, in order, for the comma-separated segments of the
      artist list; empty segments are skipped (line 173). */
  function NewRows(segments: seq<string>, songsOf: Discography): (rows: seq<Row>)
    ensures forall k :: 0 <= k < |rows| ==> |rows[k].artist| > 0 && rows[k].artist in segments
  {
    if |segments| == 0 then []
    else
      var artist := segments[|segments| - 1];
      NewRows(segments[..|segments| - 1], songsOf) + SegmentRows(artist, songsOf)
  }

  /** Line 173: an empty segment adds nothing; a name adds its songs. */
  function SegmentRows(artist: string, songsOf: Discography): (rows: seq<Row>)
    ensures |rows| == (if |artist| > 0 then |songsOf(artist)| else 0)
    ensures forall k :: 0 <= k < |rows| ==> rows[k].artist == artist
  {
    if |artist| > 0 then ArtistRows(artist, songsOf(artist)) else []
  }

  predicate AnyArtist(segments: seq<string>) {
    exists k :: 0 <= k < |segments| && |segments[k]| > 0
  }

  /** Line 179: the lyrics column recomputed for every row. */
  function ApplyLyrics(rows: seq<Row>, lyricsOf: SongLyrics): (out: seq<Row>)
    ensures |out| == |rows|
    ensures forall k :: 0 <= k < |rows| ==>
      out[k].lyrics == lyricsOf(rows[k].artist, rows[k].title) && out[k].(lyrics := rows[k].lyrics) == rows[k]
  {
    seq(|rows|, k requires 0 <= k < |rows| =>
      rows[k].(lyrics := lyricsOf(rows[k].artist, rows[k].title)))
  }

  /** Lines 181-184: rows whose lyrics are "" are dropped, order kept. */
  function DropEmpty(rows: seq<Row>): (out: seq<Row>)
    ensures |out| <= |rows|
    ensures forall r :: r in out <==> r in rows && r.lyrics != ""
  {
    if |rows| == 0 then []
    else
      var last := rows[|rows| - 1];
      DropEmpty(rows[..|rows| - 1]) + (if last.lyrics == "" then [] else [last])
  }

  /** Line 186: the number of fields of the lyrics split on single spaces. */
  function CountWords(rows: seq<Row>): (out: seq<Row>)
    ensures |out| == |rows|
    ensures forall k :: 0 <= k < |rows| ==> out[k].words >= 1 && out[k].(words := rows[k].words) == rows[k]
  {
    seq(|rows|, k requires 0 <= k < |rows| => rows[k].(words := |Split(rows[k].lyrics, ' ')|))
  }

  /** A song keeps its row exactly when its cleaned lyrics are not "". */
  predicate HasLyrics(r: Row, lyricsOf: SongLyrics) {
    lyricsOf(r.artist, r.title) != ""
  }

  /** The row of a song with its lyrics and word count filled in. */
  function Completed(r: Row, lyricsOf: SongLyrics): Row
  {
    var lyrics := lyricsOf(r.artist, r.title);
    r.(lyrics := lyrics, words := |Split(lyrics, ' ')|)
  }

  /** Reference definition of the table after the lyrics steps: the rows of
      the songs that have lyrics, in order, each completed. */
  function WithLyrics(rows: seq<Row>, lyricsOf: SongLyrics): (out: seq<Row>)
    ensures |out| <= |rows|
  {
    if |rows| == 0 then []
    else
      var last := rows[|rows| - 1];
      WithLyrics(rows[..|rows| - 1], lyricsOf) + (if HasLyrics(last, lyricsOf) then [Completed(last, lyricsOf)] else [])
  }

  lemma {:induction false} ApplyLyricsAppend(rows: seq<Row>, r: Row, lyricsOf: SongLyrics)
    ensures ApplyLyrics(rows + [r], lyricsOf) ==
      ApplyLyrics(rows, lyricsOf) + [r.(lyrics := lyricsOf(r.artist, r.title))]
  {
  }

  lemma {:induction false} CountWordsAppend(a: seq<Row>, b: seq<Row>)
    ensures CountWords(a + b) == CountWords(a) + CountWords(b)
  {
  }

  lemma {:induction false} DropEmptySnoc(rows: seq<Row>, r: Row)
    ensures DropEmpty(rows + [r]) == DropEmpty(rows) + (if r.lyrics == "" then [] else [r])
  {
    assert (rows + [r])[..|rows|] == rows;
  }

  /** The word count of the fetched last row, when it is kept. */
  lemma {:induction false} CountWordsKept(last: Row, lyricsOf: SongLyrics)
    ensures CountWords(if HasLyrics(last, lyricsOf) then [last.(lyrics := lyricsOf(last.artist, last.title))] else [])
      == (if HasLyrics(last, lyricsOf) then [Completed(last, lyricsOf)] else [])
  {
  }

  lemma {:induction false} PandasStepsSnoc(init: seq<Row>, last: Row, lyricsOf: SongLyrics)
    ensures CountWords(DropEmpty(ApplyLyrics(init + [last], lyricsOf))) ==
      CountWords(DropEmpty(ApplyLyrics(init, lyricsOf))) + (if HasLyrics(last, lyricsOf) then [Completed(last, lyricsOf)] else [])
  {
    var fetched := last.(lyrics := lyricsOf(last.artist, last.title));
    var kept := if HasLyrics(last, lyricsOf) then [fetched] else [];
    var applied := ApplyLyrics(init, lyricsOf);
    ApplyLyricsAppend(init, last, lyricsOf);
    DropEmptySnoc(applied, fetched);
    CountWordsAppend(DropEmpty(applied), kept);
    CountWordsKept(last, lyricsOf);
  }

  lemma {:induction false} PandasStepsLast(rows: seq<Row>, lyricsOf: SongLyrics)
    requires |rows| > 0
    ensures CountWords(DropEmpty(ApplyLyrics(rows, lyricsOf))) ==
      CountWords(DropEmpty(ApplyLyrics(rows[..|rows| - 1], lyricsOf)))
      + (if HasLyrics(rows[|rows| - 1], lyricsOf) then [Completed(rows[|rows| - 1], lyricsOf)] else [])
  {
    PandasStepsSnoc(rows[..|rows| - 1], rows[|rows| - 1], lyricsOf);
    DropLastSnoc(rows);
  }

  /** The three pandas steps of lines 179-186 compute the reference table. */
  lemma {:induction false} PandasStepsMatch(rows: seq<Row>, lyricsOf: SongLyrics)
    ensures CountWords(DropEmpty(ApplyLyrics(rows, lyricsOf))) == WithLyrics(rows, lyricsOf)
    decreases |rows|
  {
    if |rows| > 0 {
      PandasStepsMatch(rows[..|rows| - 1], lyricsOf);
      PandasStepsLast(rows, lyricsOf);
    }
  }

  lemma {:induction false} WithLyricsAppend(a: seq<Row>, b: seq<Row>, lyricsOf: SongLyrics)
    ensures WithLyrics(a + b, lyricsOf) == WithLyrics(a, lyricsOf) + WithLyrics(b, lyricsOf)
    decreases |b|
  {
    if |b| == 0 {
      assert a + b == a;
    } else {
      var init := b[..|b| - 1];
      var last := b[|b| - 1];
      var kept := if HasLyrics(last, lyricsOf) then [Completed(last, lyricsOf)] else [];
      WithLyricsAppend(a, init, lyricsOf);
      var ab := a + b;
      assert ab[..|ab| - 1] == a + init;
      assert ab[|ab| - 1] == last;
      assert WithLyrics(ab, lyricsOf) == WithLyrics(a + init, lyricsOf) + kept;
      assert WithLyrics(b, lyricsOf) == WithLyrics(init, lyricsOf) + kept;
    }
  }

  /** Fetching and cleaning again the lyrics of rows that already went
      through the lyrics steps changes nothing. */
  lemma {:induction false} WithLyricsIdempotent(rows: seq<Row>, lyricsOf: SongLyrics)
    ensures WithLyrics(WithLyrics(rows, lyricsOf), lyricsOf) == WithLyrics(rows, lyricsOf)
    decreases |rows|
  {
    if |rows| > 0 {
      var init := rows[..|rows| - 1];
      var last := rows[|rows| - 1];
      var kept := if HasLyrics(last, lyricsOf) then [Completed(last, lyricsOf)] else [];
      WithLyricsIdempotent(init, lyricsOf);
      WithLyricsAppend(WithLyrics(init, lyricsOf), kept, lyricsOf);
      if HasLyrics(last, lyricsOf) {
        var c := Completed(last, lyricsOf);
        assert [c][..0] == [];
        assert WithLyrics(kept, lyricsOf) == [c];
      }
    }
  }

  /** Line 179 runs over the whole table after every artist, so the rows of
      earlier artists are fetched again; the result is the same as one pass
      over all rows. */
  lemma {:induction false} RefetchHarmless(earlier: seq<Row>, added: seq<Row>, lyricsOf: SongLyrics)
    ensures WithLyrics(WithLyrics(earlier, lyricsOf) + added, lyricsOf) == WithLyrics(earlier + added, lyricsOf)
  {
    WithLyricsAppend(WithLyrics(earlier, lyricsOf), added, lyricsOf);
    WithLyricsIdempotent(earlier, lyricsOf);
    WithLyricsAppend(earlier, added, lyricsOf);
  }

  /** A song has a row after the lyrics steps exactly when its lyrics clean
      to non-empty text, and the row kept is its completed row. */
  lemma {:induction false} WithLyricsMembers(rows: seq<Row>, lyricsOf: SongLyrics)
    ensures forall k :: 0 <= k < |rows| && HasLyrics(rows[k], lyricsOf) ==>
      Completed(rows[k], lyricsOf) in WithLyrics(rows, lyricsOf)
    ensures forall r :: r in WithLyrics(rows, lyricsOf) ==>
      exists k :: 0 <= k < |rows| && HasLyrics(rows[k], lyricsOf) && r == Completed(rows[k], lyricsOf)
    decreases |rows|
  {
    if |rows| > 0 {
      var init := rows[..|rows| - 1];
      var last := rows[|rows| - 1];
      WithLyricsMembers(init, lyricsOf);
      forall r | r in WithLyrics(rows, lyricsOf)
        ensures exists k :: 0 <= k < |rows| && HasLyrics(rows[k], lyricsOf) && r == Completed(rows[k], lyricsOf)
      {
        if r in WithLyrics(init, lyricsOf) {
          var k :| 0 <= k < |init| && HasLyrics(init[k], lyricsOf) && r == Completed(init[k], lyricsOf);
          assert rows[k] == init[k];
        } else {
          assert r == Completed(rows[|rows| - 1], lyricsOf);
        }
      }
      forall k | 0 <= k < |rows| && HasLyrics(rows[k], lyricsOf)
        ensures Completed(rows[k], lyricsOf) in WithLyrics(rows, lyricsOf)
      {
        if k < |init| {
          assert rows[k] == init[k];
        }
      }
    }
  }

  /** Every row of the table holds the cleaned lyrics of its song, never
      "", and counts at least one word: the number of whitespace-separated
      tokens of the fetched text once its punctuation is removed. */
  lemma {:induction false} TableRows(rows: seq<Row>, fetch: LyricsSource)
    ensures forall r :: r in WithLyrics(rows, GetLyricsForSong(fetch)) ==>
      r.lyrics == Clean(fetch(r.artist, r.title)) && r.lyrics != "" &&
      r.words == |Split(r.lyrics, ' ')| &&
      r.words >= 1 &&
      r.words == |Words(StripPunctuation(fetch(r.artist, r.title)))| &&
      r.words == |Words(r.lyrics)|
  {
    WithLyricsMembers(rows, GetLyricsForSong(fetch));
    forall r | r in WithLyrics(rows, GetLyricsForSong(fetch))
      ensures r.lyrics == Clean(fetch(r.artist, r.title)) && r.lyrics != ""
      ensures r.words == |Split(r.lyrics, ' ')|
      ensures r.words >= 1
      ensures r.words == |Words(StripPunctuation(fetch(r.artist, r.title)))|
      ensures r.words == |Words(r.lyrics)|
    {
      var k :| 0 <= k < |rows| && HasLyrics(rows[k], GetLyricsForSong(fetch)) && r == Completed(rows[k], GetLyricsForSong(fetch));
      CleanTokens(fetch(r.artist, r.title));
    }
  }

  lemma {:induction false} NewRowsSnoc(segments: seq<string>, artist: string, songsOf: Discography)
    ensures NewRows(segments + [artist], songsOf) == NewRows(segments, songsOf) + SegmentRows(artist, songsOf)
  {
    assert (segments + [artist])[..|segments|] == segments;
  }

  lemma {:induction false} AnyArtistSnoc(segments: seq<string>, artist: string)
    ensures AnyArtist(segments + [artist]) <==> AnyArtist(segments) || |artist| > 0
  {
    var extended := segments + [artist];
    assert extended[|segments|] == artist;
    if AnyArtist(extended) && |artist| == 0 {
      var k :| 0 <= k < |extended| && |extended[k]| > 0;
      assert extended[k] == segments[k];
    }
    if AnyArtist(segments) {
      var k :| 0 <= k < |segments| && |segments[k]| > 0;
      assert extended[k] == segments[k];
    }
  }

  /** Segments are processed in input order: the rows for two lists one
      after the other are the rows for the first followed by those for the
      second, so a repeated name has its songs appended again. */
  lemma {:induction false} NewRowsAppend(a: seq<string>, b: seq<string>, songsOf: Discography)
    ensures NewRows(a + b, songsOf) == NewRows(a, songsOf) + NewRows(b, songsOf)
    decreases |b|
  {
    if |b| == 0 {
      assert a + b == a;
    } else {
      var init := b[..|b| - 1];
      var artist := b[|b| - 1];
      DropLastSnoc(b);
      AppendAssociative(a, init, [artist]);
      NewRowsSnoc(a + init, artist, songsOf);
      NewRowsSnoc(init, artist, songsOf);
      NewRowsAppend(a, init, songsOf);
      AppendAssociative(NewRows(a, songsOf), NewRows(init, songsOf), SegmentRows(artist, songsOf));
    }
  }

  /** An artist list with no non-empty segment adds no rows. */
  lemma {:induction false} NoArtistNoRows(segments: seq<string>, songsOf: Discography)
    requires !AnyArtist(segments)
    ensures NewRows(segments, songsOf) == []
    decreases |segments|
  {
    if |segments| > 0 {
      var init := segments[..|segments| - 1];
      var artist := segments[|segments| - 1];
      assert segments == init + [artist];
      AnyArtistSnoc(init, artist);
      NoArtistNoRows(init, songsOf);
    }
  }

  /** One turn of the artist loop of lines 172-186 for a non-empty name,
      once earlier names have been added: the lyrics pass over the grown
      table equals one pass over every row added so far. */
  lemma {:induction false} LoadStepNext(start: seq<Row>, prefix: seq<string>, artist: string,
                                        songsOf: Discography, lyricsOf: SongLyrics)
    ensures WithLyrics(WithLyrics(start + NewRows(prefix, songsOf), lyricsOf) + SegmentRows(artist, songsOf), lyricsOf) ==
      WithLyrics(start + NewRows(prefix + [artist], songsOf), lyricsOf)
  {
    var added := SegmentRows(artist, songsOf);
    RefetchHarmless(start + NewRows(prefix, songsOf), added, lyricsOf);
    TableSnoc(start, prefix, artist, songsOf);
  }

  lemma {:induction false} TableSnoc(start: seq<Row>, prefix: seq<string>, artist: string, songsOf: Discography)
    ensures start + NewRows(prefix, songsOf) + SegmentRows(artist, songsOf) == start + NewRows(prefix + [artist], songsOf)
  {
    NewRowsSnoc(prefix, artist, songsOf);
    AppendAssociative(start, NewRows(prefix, songsOf), SegmentRows(artist, songsOf));
  }

  /** The same turn for the first non-empty name: the table before it is
      the starting table. */
  lemma {:induction false} LoadStepFirst(start: seq<Row>, prefix: seq<string>, artist: string,
                                         songsOf: Discography, lyricsOf: SongLyrics)
    requires !AnyArtist(prefix)
    ensures WithLyrics(start + SegmentRows(artist, songsOf), lyricsOf) ==
      WithLyrics(start + NewRows(prefix + [artist], songsOf), lyricsOf)
  {
    NewRowsSnoc(prefix, artist, songsOf);
    NoArtistNoRows(prefix, songsOf);
    assert NewRows(prefix + [artist], songsOf) == SegmentRows(artist, songsOf);
  }

  /** An empty segment leaves the rows to add unchanged. */
  lemma {:induction false} LoadStepSkip(prefix: seq<string>, artist: string, songsOf: Discography)
    requires |artist| == 0
    ensures NewRows(prefix + [artist], songsOf) == NewRows(prefix, songsOf)
    ensures AnyArtist(prefix + [artist]) <==> AnyArtist(prefix)
  {
    NewRowsSnoc(prefix, artist, songsOf);
    AnyArtistSnoc(prefix, artist);
    assert NewRows(prefix, songsOf) + [] == NewRows(prefix, songsOf);
  }

  /** One turn of the artist loop of lines 172-186: whatever the segment,
      the table stays one pass of the lyrics steps over every row added so
      far, or the starting table while no artist has been added. */
  lemma {:induction false} LoadStep(start: seq<Row>, prefix: seq<string>, artist: string,
                                    songsOf: Discography, lyricsOf: SongLyrics,
                                    current: seq<Row>, next: seq<Row>)
    requires AnyArtist(prefix) ==> current == WithLyrics(start + NewRows(prefix, songsOf), lyricsOf)
    requires !AnyArtist(prefix) ==> current == start
    requires |artist| > 0 ==> next == WithLyrics(current + SegmentRows(artist, songsOf), lyricsOf)
    requires |artist| == 0 ==> next == current
    ensures AnyArtist(prefix + [artist]) ==> next == WithLyrics(start + NewRows(prefix + [artist], songsOf), lyricsOf)
    ensures !AnyArtist(prefix + [artist]) ==> next == start
  {
    AnyArtistSnoc(prefix, artist);
    if |artist| > 0 {
      if AnyArtist(prefix) {
        LoadStepNext(start, prefix, artist, songsOf, lyricsOf);
      } else {
        LoadStepFirst(start, prefix, artist, songsOf, lyricsOf);
      }
    } else {
      LoadStepSkip(prefix, artist, songsOf);
    }
  }

  /** The discography the lookup service gives for one artist. */
  lemma {:induction false} DiscographyOfLookup(artist: string, lookup: Lookup)
    requires |artist| > 0
    ensures SegmentRows(artist, SongDictionaries(lookup)) == ArtistRows(artist, SongsFor(lookup(artist)))
  {
    assert SongDictionaries(lookup)(artist) == SongsFor(lookup(artist));
  }

  /** The global song table. */
  class SongTable {
    var rows: seq<Row>

    constructor ()
      ensures rows == []
    {
      rows := [];
    }

    /** Line 214: every row is dropped. */
    method Clear()
      modifies this
      ensures rows == []
    {
      rows := [];
    }

    /** Lines 174-186, one non-empty artist segment: its songs are appended,
        then the lyrics column is recomputed for the whole table, rows without
        lyrics are dropped and the words are counted. */
    method AddArtist(artist: string, lookup: Lookup, fetch: LyricsSource)
      modifies this
      ensures rows == WithLyrics(old(rows) + ArtistRows(artist, SongsFor(lookup(artist))), GetLyricsForSong(fetch))
    {
      var songDict := SongsForArtist(lookup(artist));
      var thisArtist := ArtistRows(artist, songDict);
      var table := rows + thisArtist;
      PandasStepsMatch(table, GetLyricsForSong(fetch));
      rows := CountWords(DropEmpty(ApplyLyrics(table, GetLyricsForSong(fetch))));
    }

    /** get_songs_and_lyrics_for_artists (lines 164-186): the artist list is
        split on commas and every non-empty segment is added in turn. If
        there is none, the table is left as it was. */
    method LoadArtists(artistList: string, lookup: Lookup, fetch: LyricsSource)
      modifies this
      ensures AnyArtist(Split(artistList, ',')) ==>
        rows == WithLyrics(old(rows) + NewRows(Split(artistList, ','), SongDictionaries(lookup)), GetLyricsForSong(fetch))
      ensures !AnyArtist(Split(artistList, ',')) ==> rows == old(rows)
    {
      var segments := Split(artistList, ',');
      ghost var songLyrics := GetLyricsForSong(fetch);
      ghost var songsOf := SongDictionaries(lookup);
      ghost var start := rows;
      ghost var prefix: seq<string> := [];
      var i := 0;
      while i < |segments|
        invariant 0 <= i <= |segments|
        invariant prefix == segments[..i]
        invariant AnyArtist(prefix) ==> rows == WithLyrics(start + NewRows(prefix, songsOf), songLyrics)
        invariant !AnyArtist(prefix) ==> rows == start
      {
        var artist := segments[i];
        ghost var current := rows;
        if |artist| > 0 {
          AddArtist(artist, lookup, fetch);
          DiscographyOfLookup(artist, lookup);
        }
        LoadStep(start, prefix, artist, songsOf, songLyrics, current, rows);
        TakeSnoc(segments, i);
        prefix := prefix + [artist];
        i := i + 1;
      }
      assert prefix == segments;
    }

    /** The submit callback (lines 208-226): for a non-empty artist list the
        table is cleared and refilled, and the per-artist summary of the new
        table is returned; for an empty one nothing changes and the summary
        is empty. */
    method Submit(artists: string, lookup: Lookup, fetch: LyricsSource) returns (meanTableData: seq<ArtistSummary>)
      modifies this
      ensures |artists| > 0 ==> rows == WithLyrics(NewRows(Split(artists, ','), SongDictionaries(lookup)), GetLyricsForSong(fetch))
      ensures |artists| > 0 ==> meanTableData == Summary(rows)
      ensures |artists| == 0 ==> rows == old(rows) && meanTableData == []
    {
      meanTableData := [];
      if |artists| > 0 {
        Clear();
        LoadArtists(artists, lookup, fetch);
        if !AnyArtist(Split(artists, ',')) {
          NoArtistNoRows(Split(artists, ','), SongDictionaries(lookup));
          assert WithLyrics([], GetLyricsForSong(fetch)) == [];
        } else {
          assert [] + NewRows(Split(artists, ','), SongDictionaries(lookup)) == NewRows(Split(artists, ','), SongDictionaries(lookup));
        }
        meanTableData := Summarize(rows);
      }
    }

    /** The show-songs callback (lines 266-272): the listing columns of every
        row, ordered so that release years never decrease. */
    method ShowSongs() returns (songTableData: seq<ListedSong>)
      ensures SortedByYear(songTableData)
      ensures multiset(songTableData) == multiset(Listing(rows))
    {
      songTableData := SortByYear(Listing(rows));
    }
  }
}
