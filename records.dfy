/** The kinds of record the pipeline produces. */
module Records {

  /** One row of the song table: the columns "Song title", "Song release
      year" and "Artist" filled from the lookup, then "lyrics" (the cleaned
      text) and "Number of words". */
  datatype Row = Row(title: string, year: int, artist: string, lyrics: string, words: nat)

  /** One row of the song listing: the columns "Artist", "Song title",
      "Song release year" and "Number of words" of the song table. */
  datatype ListedSong = ListedSong(artist: string, title: string, year: int, words: nat)

  /** One row of the per-artist table. The source reports the mean, variance
      and standard deviation of the word counts in floating point; the model
      keeps the integers they are computed from: the number of songs and the
      sum of their word counts. */
  datatype ArtistSummary = ArtistSummary(artist: string, songs: nat, totalWords: nat)
}
