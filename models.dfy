/**
 * The record shapes of the catalog: the song as the repository stores and
 * returns it (internal/domain/models/music.go), its group, and the values
 * that are bound to the positional parameters of a query.
 */
module Models {

  /**
   * A release date (Go `time.Time`). Dates are opaque instants; the only
   * one the core distinguishes is the zero instant, which plays the part of
   * "no date given".
   */
  datatype Date = Date(instant: int) {
    predicate IsZero() { instant == 0 }
  }

  /** A performing group: the `groups` row a song is linked to. */
  datatype Group = Group(id: int, name: string)

  /** `models.Music`, fields in declaration order: Id, Song, Group, Text, Link, ReleaseDate. */
  datatype Music = Music(id: int, song: string, group: Group, text: string, link: string, releaseDate: Date)

  /**
   * `domain.Music` of the two older revisions: the group is a name and
   * the release date is text.
   */
  datatype FlatMusic = FlatMusic(id: int, song: string, group: string, text: string, link: string, releaseDate: string)

  /** One row of the `music` table without its key: song, text_song, link, release_date. */
  datatype SongRow = SongRow(song: string, text: string, link: string, releaseDate: Date)

  /** A value bound to a positional parameter `$k` of a statement. */
  datatype Value = Str(s: string) | Time(d: Date) | Int(n: int)

  /** The stored columns of a song record. */
  function RowOfMusic(m: Music): SongRow
  {
    SongRow(m.song, m.text, m.link, m.releaseDate)
  }
}
