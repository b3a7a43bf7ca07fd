/**
 * The name shown for a track (`get_track_metadata`): the title tag for the
 * three formats the player reads tags from, and the file's base name
 * otherwise, whenever the tag is missing, and whenever reading fails.
 */
module TrackInfo {
  import opened Paths

  /** The lower-cased extensions whose tags are read (MP3, FLAC, Ogg Vorbis). */
  const TaggedFormats: seq<string> := [".mp3", ".flac", ".ogg"]

  /**
   * What the tag library reports for a file. The libraries themselves are
   * outside the model; this is their observable outcome.
   *   Unreadable:     the parser raised (corrupt or missing file).
   *   Untitled:       the tags have no 'title' entry.
   *   Titled(titles): the 'title' entry, a list that may be empty.
   */
  datatype TagRead = Unreadable | Untitled | Titled(titles: seq<string>)

  /** The name `get_track_metadata(file)` returns, given what the tag reader would report. */
  function TrackName(file: string, tags: TagRead): (name: string)
    ensures Lower(Ext(file)) !in TaggedFormats ==> name == Basename(file)
    ensures !tags.Titled? ==> name == Basename(file)
    ensures name != Basename(file) ==> tags.Titled? && |tags.titles| > 0 && name == tags.titles[0]
  {
    var ext := Lower(Ext(file));
    if ext in TaggedFormats then
      match tags
      case Titled(titles) =>
        // `get('title', [basename])[0]` on an empty title list raises, and the handler returns the base name
        if |titles| > 0 then titles[0] else Basename(file)
      case _ => Basename(file)
    else
      Basename(file)
  }

  /** For a tagged format with a non-empty title list, the first title is shown. */
  lemma TitleShown(file: string, titles: seq<string>)
    requires Lower(Ext(file)) in TaggedFormats && |titles| > 0
    ensures TrackName(file, Titled(titles)) == titles[0]
  {
  }

  /** Every format whose tags are read is also one the player accepts. */
  lemma TaggedAreSupported(file: string)
    requires Lower(Ext(file)) in TaggedFormats
    ensures IsSupported(file)
  {
  }
}
