/** Shaping the song table for display: the per-artist summary built in the
    submit callback (lines 216-226) and the song listing sorted by release
    year (line 271). */
module Results {
  import opened Collections
  import opened Records

  function Artists(rows: seq<Row>): seq<string>
  {
    seq(|rows|, k requires 0 <= k < |rows| => rows[k].artist)
  }

  /** Series.unique(): the distinct values in order of first appearance. */
  function Unique(xs: seq<string>): (u: seq<string>)
    ensures forall x :: x in u <==> x in xs
    ensures Distinct(u)
  {
    if |xs| == 0 then []
    else
      var init := xs[..|xs| - 1];
      var x := xs[|xs| - 1];
      var u := Unique(init);
      assert xs == init + [x];
      if x in u then u else u + [x]
  }

  /** The sum of "Number of words" over the rows of one artist. */
  function WordTotal(rows: seq<Row>, artist: string): nat
  {
    if |rows| == 0 then 0
    else
      var last := rows[|rows| - 1];
      WordTotal(rows[..|rows| - 1], artist) + (if last.artist == artist then last.words else 0)
  }

  /** The summary table: one entry per distinct artist of the rows, in order
      of first appearance, with the artist's song count and word total. */
  function Summary(rows: seq<Row>): seq<ArtistSummary>
  {
    var u := Unique(Artists(rows));
    seq(|u|, k requires 0 <= k < |u| =>
      ArtistSummary(u[k], CountOf(Artists(rows), u[k]), WordTotal(rows, u[k])))
  }

  /** The loop of lines 217-226 that appends one entry per artist. */
  method Summarize(rows: seq<Row>) returns (meanTableData: seq<ArtistSummary>)
    ensures meanTableData == Summary(rows)
  {
    var artists := Unique(Artists(rows));
    meanTableData := [];
    var i := 0;
    while i < |artists|
      invariant 0 <= i <= |artists|
      invariant meanTableData == Summary(rows)[..i]
    {
      var artist := artists[i];
      var entry := ArtistSummary(artist, CountOf(Artists(rows), artist), WordTotal(rows, artist));
      assert Summary(rows)[..i + 1] == Summary(rows)[..i] + [entry];
      meanTableData := meanTableData + [entry];
      i := i + 1;
    }
    assert Summary(rows)[..i] == Summary(rows);
  }

  /** Distinct values come out in the order of their first appearance. */
  lemma {:induction false} UniqueFirstSeenOrder(xs: seq<string>)
    ensures forall a, b :: 0 <= a < b < |Unique(xs)| ==>
      FirstIndex(xs, Unique(xs)[a]) < FirstIndex(xs, Unique(xs)[b])
    decreases |xs|
  {
    if |xs| > 0 {
      var init := xs[..|xs| - 1];
      var x := xs[|xs| - 1];
      assert xs == init + [x];
      UniqueFirstSeenOrder(init);
      var u0 := Unique(init);
      var u := Unique(xs);
      forall k | 0 <= k < |u0| ensures FirstIndex(xs, u0[k]) == FirstIndex(init, u0[k]) {
        FirstIndexAppend(init, x, u0[k]);
      }
      if x !in u0 {
        assert u == u0 + [x];
        FirstIndexUnique(xs, x, |init|);
        forall a | 0 <= a < |u0| ensures FirstIndex(xs, u[a]) < FirstIndex(xs, u[|u0|]) {
          assert u[a] == u0[a];
        }
      }
    }
  }

  /** Sum of song counts that `artists` gets from `xs`. */
  function CountsOver<T(==)>(artists: seq<T>, xs: seq<T>): nat
  {
    if |artists| == 0 then 0
    else CountsOver(artists[..|artists| - 1], xs) + CountOf(xs, artists[|artists| - 1])
  }

  lemma {:induction false} CountsOverAppend<T>(artists: seq<T>, xs: seq<T>, y: T)
    ensures CountsOver(artists, xs + [y]) == CountsOver(artists, xs) + CountOf(artists, y)
    decreases |artists|
  {
    if |artists| > 0 {
      var init := artists[..|artists| - 1];
      CountsOverAppend(init, xs, y);
      CountOfAppend(xs, y, artists[|artists| - 1]);
    }
  }

  lemma {:induction false} CountsOverAll<T>(artists: seq<T>, xs: seq<T>)
    requires Distinct(artists)
    requires forall x :: x in xs ==> x in artists
    ensures CountsOver(artists, xs) == |xs|
    decreases |xs|
  {
    if |xs| == 0 {
      CountsOverNone(artists);
    } else {
      var init := xs[..|xs| - 1];
      var y := xs[|xs| - 1];
      assert xs == init + [y];
      CountsOverAll(artists, init);
      CountsOverAppend(artists, init, y);
      CountOfDistinct(artists, y);
    }
  }

  lemma {:induction false} CountsOverNone<T>(artists: seq<T>)
    ensures CountsOver(artists, []) == 0
    decreases |artists|
  {
    if |artists| > 0 {
      CountsOverNone(artists[..|artists| - 1]);
    }
  }

  function SongsListed(table: seq<ArtistSummary>): nat
  {
    if |table| == 0 then 0 else SongsListed(table[..|table| - 1]) + table[|table| - 1].songs
  }

  lemma {:induction false} SongsListedCounts(rows: seq<Row>, n: nat)
    requires n <= |Summary(rows)|
    ensures SongsListed(Summary(rows)[..n]) == CountsOver(Unique(Artists(rows))[..n], Artists(rows))
    decreases n
  {
    if n > 0 {
      SongsListedCounts(rows, n - 1);
      assert Summary(rows)[..n][..n - 1] == Summary(rows)[..n - 1];
      assert Unique(Artists(rows))[..n][..n - 1] == Unique(Artists(rows))[..n - 1];
    }
  }

  /** The summary has one entry per distinct artist of the table, in order of
      first appearance; every entry counts at least one song, and together
      the entries count every row exactly once. */
  lemma {:induction false} SummaryCoversRows(rows: seq<Row>)
    ensures |Summary(rows)| == |Unique(Artists(rows))|
    ensures forall k :: 0 <= k < |Summary(rows)| ==>
      Summary(rows)[k].artist == Unique(Artists(rows))[k] && Summary(rows)[k].songs >= 1
    ensures SongsListed(Summary(rows)) == |rows|
  {
    var u := Unique(Artists(rows));
    SongsListedCounts(rows, |u|);
    assert Summary(rows)[..|u|] == Summary(rows);
    assert u[..|u|] == u;
    CountsOverAll(u, Artists(rows));
  }

  /** The column selection of line 271, row by row. */
  function Listing(rows: seq<Row>): seq<ListedSong>
  {
    seq(|rows|, k requires 0 <= k < |rows| =>
      ListedSong(rows[k].artist, rows[k].title, rows[k].year, rows[k].words))
  }

  predicate SortedByYear(rows: seq<ListedSong>) {
    forall i, j :: 0 <= i < j < |rows| ==> rows[i].year <= rows[j].year
  }

  function InsertByYear(r: ListedSong, sorted: seq<ListedSong>): seq<ListedSong>
  {
    if |sorted| == 0 then [r]
    else if r.year <= sorted[0].year then [r] + sorted
    else [sorted[0]] + InsertByYear(r, sorted[1..])
  }

  lemma {:induction false} InsertByYearPermutes(r: ListedSong, sorted: seq<ListedSong>)
    ensures multiset(InsertByYear(r, sorted)) == multiset(sorted) + multiset{r}
    decreases |sorted|
  {
    if |sorted| > 0 && r.year > sorted[0].year {
      var first := sorted[0];
      var tail := sorted[1..];
      InsertByYearPermutes(r, tail);
      assert sorted == [first] + tail;
      assert multiset(sorted) == multiset{first} + multiset(tail);
      assert multiset([first] + InsertByYear(r, tail)) == multiset{first} + multiset(InsertByYear(r, tail));
    }
  }

  lemma {:induction false} InsertByYearBound(r: ListedSong, sorted: seq<ListedSong>, lo: int)
    requires lo <= r.year
    requires forall k :: 0 <= k < |sorted| ==> lo <= sorted[k].year
    ensures forall k :: 0 <= k < |InsertByYear(r, sorted)| ==> lo <= InsertByYear(r, sorted)[k].year
    decreases |sorted|
  {
    if |sorted| > 0 && r.year > sorted[0].year {
      InsertByYearBound(r, sorted[1..], lo);
    }
  }

  lemma {:induction false} InsertByYearSorted(r: ListedSong, sorted: seq<ListedSong>)
    requires SortedByYear(sorted)
    ensures SortedByYear(InsertByYear(r, sorted))
    decreases |sorted|
  {
    if |sorted| > 0 && r.year > sorted[0].year {
      var first := sorted[0];
      var tail := sorted[1..];
      InsertByYearSorted(r, tail);
      InsertByYearBound(r, tail, first.year);
    }
  }

  /** sort_values(by=['Song release year']) (line 271): the rows reordered so
      that release years never decrease. */
  function SortByYear(rows: seq<ListedSong>): (sorted: seq<ListedSong>)
    ensures SortedByYear(sorted)
    ensures multiset(sorted) == multiset(rows)
  {
    if |rows| == 0 then []
    else
      assert rows == [rows[0]] + rows[1..];
      InsertByYearSorted(rows[0], SortByYear(rows[1..]));
      InsertByYearPermutes(rows[0], SortByYear(rows[1..]));
      InsertByYear(rows[0], SortByYear(rows[1..]))
  }
}
