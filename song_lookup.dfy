/** Song lookup for one artist (get_songs_for_artist): the release records of
    a metadata search response become an ordered title -> release year
    dictionary, with remixes skipped and the first release of each title
    kept. The HTTP request is not modelled: the decoded response is an input. */
module SongLookup {
  import opened Collections
  import opened Text

  /** One release record of the response. `None` stands for a missing key:
      a release without "title" or without "date". */
  datatype Release = Release(title: Option<string>, date: Option<string>)

  /** The decoded search response. A failed request (transport error, error
      status, undecodable body) and a body without "releases" are told apart
      only for the reader: both give an empty dictionary. */
  datatype LookupResponse = RequestFailed | NoReleases | Releases(releases: seq<Release>)

  /** One dictionary item: song title and release year. The dictionary itself
      is a sequence of items in insertion order with distinct titles. */
  datatype Entry = Entry(title: string, year: int)

  /** The year given to a release that lists no date. */
  const DefaultYear := 2000

  predicate IsDigit(c: char) {
    '0' <= c <= '9'
  }

  predicate AllDigits(s: string) {
    forall i :: 0 <= i < |s| ==> IsDigit(s[i])
  }

  function Pow10(n: nat): (p: nat)
    ensures p >= 1
  {
    if n == 0 then 1 else 10 * Pow10(n - 1)
  }

  function DigitValue(c: char): (d: nat)
    requires IsDigit(c)
    ensures d < 10
  {
    c as int - '0' as int
  }

  function DigitChar(d: nat): (c: char)
    requires d < 10
    ensures IsDigit(c) && DigitValue(c) == d
  {
    ('0' as int + d) as char
  }

  /** The number written by a string of decimal digits. */
  function DigitsValue(s: string): (n: nat)
    requires AllDigits(s)
    ensures n < Pow10(|s|)
  {
    if |s| == 0 then 0 else 10 * DigitsValue(s[..|s| - 1]) + DigitValue(s[|s| - 1])
  }

  /** The last `width` decimal digits of `n`, with leading zeros. */
  function Digits(n: nat, width: nat): (s: string)
    ensures |s| == width && AllDigits(s)
  {
    if width == 0 then "" else Digits(n / 10, width - 1) + [DigitChar(n % 10)]
  }

  /** int(s) on a string of ASCII digits; `None` when int() raises (the empty
      string, or any character that is not a digit). */
  function ParseInt(s: string): (n: Option<int>)
    ensures n.Some? <==> |s| > 0 && AllDigits(s)
    ensures n.Some? ==> 0 <= n.value < Pow10(|s|) && Digits(n.value, |s|) == s
  {
    if |s| > 0 && AllDigits(s) then
      DigitsOfValue(s);
      Some(DigitsValue(s))
    else None
  }

  /** Writing back the number a digit string reads as, with as many digits,
      gives the string back. */
  lemma {:induction false} DigitsOfValue(s: string)
    requires AllDigits(s)
    ensures Digits(DigitsValue(s), |s|) == s
    decreases |s|
  {
    if |s| > 0 {
      var init := s[..|s| - 1];
      var c := s[|s| - 1];
      var v := DigitsValue(init);
      var n := DigitsValue(s);
      assert n == 10 * v + DigitValue(c);
      assert n / 10 == v && n % 10 == DigitValue(c);
      DigitsOfValue(init);
      assert DigitChar(DigitValue(c)) == c;
      assert s == init + [c];
    }
  }

  /** The year of a release (lines 100-107): a date longer than four
      characters gives its first four, a shorter one is read whole, and a
      release with no date gets the default year. `None` when int() raises. */
  function ReleaseYear(date: Option<string>): (year: Option<int>)
    ensures date.None? ==> year == Some(DefaultYear)
    ensures date.Some? ==>
      var text := if |date.value| > 4 then date.value[..4] else date.value;
      && (year.Some? <==> |text| > 0 && AllDigits(text))
      && (year.Some? ==> 0 <= year.value < Pow10(|text|) && Digits(year.value, |text|) == text)
  {
    match date
    case None => Some(DefaultYear)
    case Some(d) => if |d| > 4 then ParseInt(d[..4]) else ParseInt(d)
  }

  /** Reading the title and the year of one release (lines 99-107); `None`
      when either raises, which ends the whole loop. */
  function ParseRelease(r: Release): (e: Option<Entry>)
    ensures e.Some? <==> r.title.Some? && ReleaseYear(r.date).Some?
    ensures e.Some? ==> e.value.title == r.title.value && Some(e.value.year) == ReleaseYear(r.date)
  {
    match r.title
    case None => None
    case Some(t) =>
      match ReleaseYear(r.date)
      case None => None
      case Some(y) => Some(Entry(t, y))
  }

  /** The parsed releases up to, not including, the first one that fails. */
  function ParsedPrefix(rs: seq<Release>): (es: seq<Entry>)
    ensures |es| <= |rs|
    ensures forall j :: 0 <= j < |es| ==> ParseRelease(rs[j]) == Some(es[j])
    ensures |es| < |rs| ==> ParseRelease(rs[|es|]).None?
  {
    if |rs| == 0 then []
    else match ParseRelease(rs[0])
      case None => []
      case Some(e) => [e] + ParsedPrefix(rs[1..])
  }

  function Titles(d: seq<Entry>): seq<string>
  {
    seq(|d|, k requires 0 <= k < |d| => d[k].title)
  }

  /** "remix" in title.lower() */
  predicate ContainsRemix(title: string) {
    Contains(Lower(title), "remix")
  }

  /** A title holding any letter-case spelling of "remix" ("Remix",
      "REMIX", "ReMiX", ...) is a remix. */
  lemma {:induction false} RemixInAnyCase(t: string, v: string)
    requires Lower(v) == "remix" && Contains(t, v)
    ensures ContainsRemix(t)
  {
    var i :| 0 <= i <= |t| && v <= t[i..];
    var lt := Lower(t);
    assert |v| == 5;
    forall k | 0 <= k < 5 ensures lt[i + k] == "remix"[k] {
      assert t[i..][k] == v[k];
      assert Lower(v)[k] == LowerChar(v[k]);
    }
    assert "remix" <= lt[i..];
  }

  /** The five characters of `t` from index `i` spell "remix" in some
      letter case. */
  predicate RemixAt(t: string, i: int) {
    0 <= i && i + 5 <= |t| && Lower(t[i..i + 5]) == "remix"
  }

  /** A title is a remix exactly when five consecutive characters of it
      spell "remix" in some letter case. */
  lemma {:induction false} RemixSpellings(t: string)
    ensures ContainsRemix(t) <==> exists i :: RemixAt(t, i)
  {
    if ContainsRemix(t) {
      var lt := Lower(t);
      var i :| 0 <= i <= |lt| && "remix" <= lt[i..];
      var v := t[i..i + 5];
      forall k | 0 <= k < 5 ensures Lower(v)[k] == "remix"[k] {
        assert lt[i..][k] == "remix"[k];
      }
      assert Lower(v) == "remix";
      assert RemixAt(t, i);
    }
    if exists i :: RemixAt(t, i) {
      var i :| RemixAt(t, i);
      assert t[i..i + 5] <= t[i..];
      RemixInAnyCase(t, t[i..i + 5]);
    }
  }

  /** The guarded dictionary insertion of lines 109-110. */
  function Insert(d: seq<Entry>, e: Entry): (r: seq<Entry>)
    ensures r == d || r == d + [e]
    ensures ContainsRemix(e.title) ==> r == d
    ensures !ContainsRemix(e.title) ==> e.title in Titles(r)
    ensures e.title in Titles(d) ==> r == d
    ensures Distinct(Titles(d)) ==> Distinct(Titles(r))
  {
    assert Titles(d + [e]) == Titles(d) + [e.title];
    if e.title !in Titles(d) && !ContainsRemix(e.title) then d + [e] else d
  }

  /** The dictionary built from parsed releases, inserted one by one. */
  function Dedup(es: seq<Entry>): (d: seq<Entry>)
    ensures forall k :: 0 <= k < |d| ==> !ContainsRemix(d[k].title)
    ensures forall k :: 0 <= k < |d| ==> d[k] in es && d[k].title in Titles(es)
    ensures Distinct(Titles(d))
  {
    if |es| == 0 then []
    else
      var init := es[..|es| - 1];
      var e := es[|es| - 1];
      var d0 := Dedup(init);
      assert Titles(es) == Titles(init) + [e.title];
      assert Titles(d0 + [e]) == Titles(d0) + [e.title];
      Insert(d0, e)
  }

  lemma {:induction false} DedupSnoc(es: seq<Entry>, e: Entry)
    ensures Dedup(es + [e]) == Insert(Dedup(es), e)
  {
    assert (es + [e])[..|es|] == es;
  }

  lemma {:induction false} ParsedStep(rs: seq<Release>, i: nat)
    requires i < |rs| && i <= |ParsedPrefix(rs)|
    requires ParseRelease(rs[i]).Some?
    ensures i < |ParsedPrefix(rs)| && ParsedPrefix(rs)[i] == ParseRelease(rs[i]).value
    ensures Dedup(ParsedPrefix(rs)[..i + 1]) == Insert(Dedup(ParsedPrefix(rs)[..i]), ParseRelease(rs[i]).value)
  {
    var parsed := ParsedPrefix(rs);
    TakeSnoc(parsed, i);
    DedupSnoc(parsed[..i], parsed[i]);
  }

  /** What get_songs_for_artist returns for a response. */
  function SongsFor(response: LookupResponse): seq<Entry>
  {
    match response
    case Releases(rs) => Dedup(ParsedPrefix(rs))
    case _ => []
  }

  /** The loop of lines 96-110, with the except clauses of lines 114-117:
      a release whose title or year cannot be read ends the loop and the
      items inserted so far are returned. */
  method SongsForArtist(response: LookupResponse) returns (songDict: seq<Entry>)
    ensures songDict == SongsFor(response)
  {
    songDict := [];
    if response.Releases? {
      var releases := response.releases;
      ghost var parsed := ParsedPrefix(releases);
      var i := 0;
      while i < |releases|
        invariant i <= |parsed|
        invariant songDict == Dedup(parsed[..i])
      {
        var release := releases[i];
        if release.title.None? {
          assert parsed[..i] == parsed;
          return;
        }
        var songTitle := release.title.value;
        var songDate := ReleaseYear(release.date);
        if songDate.None? {
          assert parsed[..i] == parsed;
          return;
        }
        ParsedStep(releases, i);
        if songTitle !in Titles(songDict) && !ContainsRemix(songTitle) {
          songDict := songDict + [Entry(songTitle, songDate.value)];
        }
        i := i + 1;
      }
      assert parsed[..i] == parsed;
    }
  }

  // ----- Year extraction -----

  lemma {:induction false} DigitsValueOfDigits(n: nat, width: nat)
    requires n < Pow10(width)
    ensures DigitsValue(Digits(n, width)) == n
    decreases width
  {
    if width > 0 {
      var s := Digits(n, width);
      assert s[..width - 1] == Digits(n / 10, width - 1);
      assert Pow10(width) == 10 * Pow10(width - 1);
      assert n / 10 < Pow10(width - 1);
      DigitsValueOfDigits(n / 10, width - 1);
    }
  }

  /** A date that starts with a year written in four digits yields that year,
      whatever follows it ("1994-03-21", "1994-03", "1994"). */
  lemma {:induction false} YearOfDate(year: nat, rest: string)
    requires year < 10000
    ensures ReleaseYear(Some(Digits(year, 4) + rest)) == Some(year)
  {
    var d := Digits(year, 4) + rest;
    assert d[..4] == Digits(year, 4);
    assert |rest| == 0 ==> d == Digits(year, 4);
    DigitsValueOfDigits(year, 4);
  }

  lemma {:induction false} Pow10Monotone(m: nat, n: nat)
    requires m <= n
    ensures Pow10(m) <= Pow10(n)
    decreases n
  {
    if m < n {
      Pow10Monotone(m, n - 1);
    }
  }

  /** Every year read from a date has at most four digits, and a release
      without a date gets the default year. */
  lemma {:induction false} YearBound(date: Option<string>)
    ensures date.None? ==> ReleaseYear(date) == Some(DefaultYear)
    ensures date.Some? && ReleaseYear(date).Some? ==> 0 <= ReleaseYear(date).value < 10000
  {
    if date.Some? {
      var d := date.value;
      var text := if |d| > 4 then d[..4] else d;
      Pow10Monotone(|text|, 4);
    }
  }

  /** The two worked examples: a full date and a missing one. */
  lemma {:induction false} YearExamples()
    ensures ReleaseYear(Some("1994-03-21")) == Some(1994)
    ensures ReleaseYear(None) == Some(2000)
  {
    assert Digits(1994, 4) == "1994";
    assert "1994-03-21" == Digits(1994, 4) + "-03-21";
    YearOfDate(1994, "-03-21");
  }

  // ----- Dictionary building -----

  lemma {:induction false} TitlesAppend(d: seq<Entry>, e: Entry)
    ensures Titles(d + [e]) == Titles(d) + [e.title]
  {
  }

  lemma {:induction false} InTitles(d: seq<Entry>, e: Entry)
    requires e in d
    ensures e.title in Titles(d)
  {
    var k :| 0 <= k < |d| && d[k] == e;
    assert Titles(d)[k] == e.title;
  }

  /** The first release of a title that is not a remix is the one kept. */
  lemma {:induction false} DedupKeepsFirst(es: seq<Entry>, t: string)
    requires t in Titles(es) && !ContainsRemix(t)
    ensures es[FirstIndex(Titles(es), t)] in Dedup(es)
    ensures t in Titles(Dedup(es))
    decreases |es|
  {
    var init := es[..|es| - 1];
    var e := es[|es| - 1];
    var j := FirstIndex(Titles(es), t);
    assert es == init + [e];
    TitlesAppend(init, e);
    var d0 := Dedup(init);
    assert forall i :: 0 <= i < |init| ==> Titles(init)[i] == Titles(es)[i];
    if j < |init| {
      assert Titles(init)[j] == t;
      FirstIndexUnique(Titles(init), t, j);
      DedupKeepsFirst(init, t);
      assert es[j] == init[j];
    } else {
      assert e.title == t;
      assert t !in Titles(init);
      assert t !in Titles(d0) by {
        forall k | 0 <= k < |d0| ensures d0[k].title != t {
          assert d0[k].title in Titles(init);
        }
      }
      assert Dedup(es) == d0 + [e];
    }
    InTitles(Dedup(es), es[j]);
  }

  /** A later release with a title already seen changes nothing. */
  lemma {:induction false} DuplicateIgnored(es: seq<Entry>, e: Entry)
    requires e.title in Titles(es)
    ensures Dedup(es + [e]) == Dedup(es)
  {
    assert (es + [e])[..|es|] == es;
    if !ContainsRemix(e.title) {
      DedupKeepsFirst(es, e.title);
    }
  }

  /** Dictionary keys are in the order in which their titles first appear. */
  lemma {:induction false} DedupFirstSeenOrder(es: seq<Entry>)
    ensures forall a, b :: 0 <= a < b < |Dedup(es)| ==>
      FirstIndex(Titles(es), Dedup(es)[a].title) < FirstIndex(Titles(es), Dedup(es)[b].title)
    decreases |es|
  {
    if |es| > 0 {
      var init := es[..|es| - 1];
      var e := es[|es| - 1];
      assert es == init + [e];
      TitlesAppend(init, e);
      DedupFirstSeenOrder(init);
      var d0 := Dedup(init);
      var d := Dedup(es);
      forall k | 0 <= k < |d0|
        ensures FirstIndex(Titles(es), d0[k].title) == FirstIndex(Titles(init), d0[k].title)
      {
        FirstIndexAppend(Titles(init), e.title, d0[k].title);
      }
      if d != d0 {
        assert d == d0 + [e];
        assert e.title !in Titles(init) by {
          if e.title in Titles(init) {
            DedupKeepsFirst(init, e.title);
          }
        }
        FirstIndexUnique(Titles(es), e.title, |init|);
        forall a | 0 <= a < |d0|
          ensures FirstIndex(Titles(es), d[a].title) < FirstIndex(Titles(es), d[|d0|].title)
        {
          assert d[a] == d0[a];
        }
      }
    }
  }

  // ----- Statements about whole responses -----

  /** A response without releases, or a failed request, gives no songs. */
  lemma {:induction false} NoReleasesNoSongs(response: LookupResponse)
    requires !response.Releases?
    ensures SongsFor(response) == []
  {
  }

  /** Every returned song is free of "remix" in any letter case, and no
      title is returned twice. */
  lemma {:induction false} SongsWellFormed(response: LookupResponse)
    ensures forall k :: 0 <= k < |SongsFor(response)| ==> !ContainsRemix(SongsFor(response)[k].title)
    ensures Distinct(Titles(SongsFor(response)))
  {
  }

  /** A release that fails to parse ends the lookup: the result is exactly
      what the releases before it produced, whatever comes after. This holds
      also when the failing release would have been skipped as a remix or a
      duplicate, since the year is read before that check. */
  lemma {:induction false} FailureKeepsEarlier(rs: seq<Release>, j: nat)
    requires j < |rs| && ParseRelease(rs[j]).None?
    requires forall i :: 0 <= i < j ==> ParseRelease(rs[i]).Some?
    ensures |ParsedPrefix(rs[..j])| == j
    ensures SongsFor(Releases(rs)) == SongsFor(Releases(rs[..j]))
  {
    var ps := ParsedPrefix(rs);
    var qs := ParsedPrefix(rs[..j]);
    assert |ps| == j;
    assert forall i :: 0 <= i < j ==> rs[..j][i] == rs[i];
    assert |qs| == j;
    forall i | 0 <= i < j ensures ps[i] == qs[i] {
      assert rs[..j][i] == rs[i];
    }
    assert ps == qs;
  }

  /** The first readable release of a non-remix title decides its year, and
      the title is in the result. */
  lemma {:induction false} FirstReleaseWins(rs: seq<Release>, j: nat, t: string)
    requires j < |ParsedPrefix(rs)|
    requires rs[j].title == Some(t) && !ContainsRemix(t)
    requires forall i :: 0 <= i < j ==> rs[i].title != Some(t)
    ensures Entry(t, ReleaseYear(rs[j].date).value) in SongsFor(Releases(rs))
  {
    var es := ParsedPrefix(rs);
    assert ParseRelease(rs[j]) == Some(es[j]);
    assert Titles(es)[j] == t;
    forall i | 0 <= i < j ensures Titles(es)[i] != t {
      assert ParseRelease(rs[i]) == Some(es[i]);
    }
    FirstIndexUnique(Titles(es), t, j);
    DedupKeepsFirst(es, t);
  }
}
