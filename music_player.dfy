/**
 * The playlist and playback-flag part of the player window, as an object
 * whose methods update its fields in place. Each method is proved to change
 * the fields exactly as the matching function of module Playback says.
 *
 * The mixer, the tag reader and the random generator are not modelled; what
 * the fields depend on from them comes in as parameters:
 *   starts       whether the mixer loads and starts the file without raising;
 *   mixerIdle    whether the mixer reports no position (`get_pos() == -1`);
 *   mp3Readable  whether an '.mp3' file can be parsed for its length;
 * and the random draw of shuffle is a nondeterministic choice in range.
 */
module MusicPlayer {
  import opened Paths
  import Playback

  /** A warning dialog shown while adding files. */
  datatype Warning =
    | UnsupportedFormat(path: string)  // the extension test failed: nothing appended
    | FileError(path: string)          // the file was appended, then reading its length raised

  /** The warning, if any, adding the one file `f` shows. */
  function WarningFor(f: string, mp3Readable: string -> bool): (w: seq<Warning>)
    ensures |w| <= 1
  {
    var ext := Lower(Ext(f));
    if ext !in SupportedFormats then [UnsupportedFormat(f)]
    else if ext == ".mp3" && !mp3Readable(f) then [FileError(f)]
    else []
  }

  /** The warnings adding `files` shows, in order. */
  function AddWarnings(files: seq<string>, mp3Readable: string -> bool): seq<Warning>
  {
    if |files| == 0 then [] else WarningFor(files[0], mp3Readable) + AddWarnings(files[1..], mp3Readable)
  }

  /** One more file adds at most its own warning, at the end. */
  lemma {:induction false} AddWarningsSnoc(files: seq<string>, f: string, mp3Readable: string -> bool)
    ensures AddWarnings(files + [f], mp3Readable) == AddWarnings(files, mp3Readable) + WarningFor(f, mp3Readable)
  {
    if |files| > 0 {
      assert (files + [f])[1..] == files[1..] + [f];
      AddWarningsSnoc(files[1..], f, mp3Readable);
    } else {
      assert files + [f] == [f];
      assert [f][1..] == [];
    }
  }

  /** The warnings of one more prefix of `files`: the next file's warning, if any, comes last. */
  lemma AddWarningsPrefixStep(files: seq<string>, i: int, mp3Readable: string -> bool)
    requires 0 <= i < |files|
    ensures AddWarnings(files[..i + 1], mp3Readable) == AddWarnings(files[..i], mp3Readable) + WarningFor(files[i], mp3Readable)
  {
    assert files[..i + 1] == files[..i] + [files[i]];
    AddWarningsSnoc(files[..i], files[i], mp3Readable);
  }

  /**
   * Every file reported as unsupported was rejected, and every file reported
   * with a file error was nevertheless appended: the append comes before the
   * step that can raise.
   */
  lemma {:induction false} WarningsAgreeWithPlaylist(files: seq<string>, mp3Readable: string -> bool, w: Warning)
    requires w in AddWarnings(files, mp3Readable)
    ensures w.UnsupportedFormat? ==> w.path in files && !IsSupported(w.path)
    ensures w.FileError? ==> w.path in Supported(files) && !mp3Readable(w.path)
  {
    if |files| > 0 {
      var f := files[0];
      if w in WarningFor(f, mp3Readable) {
        FilterMembership(files, IsSupported, f);
      } else {
        WarningsAgreeWithPlaylist(files[1..], mp3Readable, w);
        FilterMembership(files[1..], IsSupported, w.path);
        FilterMembership(files, IsSupported, w.path);
      }
    }
  }

  /** The dialog `load_playlist` ends with, once a file was chosen. */
  datatype LoadOutcome =
    | Loaded                  // every length was read: the success dialog
    | ReadError               // opening or parsing the file raised: nothing was replaced
    | LengthError(path: string)  // the list was replaced, then reading this MP3's length raised

  /** The track whose length `load_playlist` cannot read: an '.mp3' by its suffix that does not parse. */
  predicate LengthUnreadable(track: string, mp3Readable: string -> bool)
  {
    HasMp3Suffix(track) && !mp3Readable(track)
  }

  /** The outcome of the length loop of `load_playlist`: it stops at the first unreadable track. */
  function LengthCheck(tracks: seq<string>, mp3Readable: string -> bool): (o: LoadOutcome)
    ensures o != ReadError
  {
    if |tracks| == 0 then Loaded
    else if LengthUnreadable(tracks[0], mp3Readable) then LengthError(tracks[0])
    else LengthCheck(tracks[1..], mp3Readable)
  }

  /** The outcome of `load_playlist` on a chosen file; `readOk` says whether reading and parsing it succeeded. */
  function LoadResult(parsed: seq<string>, readOk: bool, mp3Readable: string -> bool): LoadOutcome
  {
    if readOk then LengthCheck(parsed, mp3Readable) else ReadError
  }

  /**
   * The load succeeds exactly when every track is readable; otherwise the
   * error names the first unreadable track.
   */
  lemma {:induction false} LengthCheckSpec(tracks: seq<string>, mp3Readable: string -> bool)
    ensures LengthCheck(tracks, mp3Readable) == Loaded <==>
      forall i :: 0 <= i < |tracks| ==> !LengthUnreadable(tracks[i], mp3Readable)
    ensures LengthCheck(tracks, mp3Readable).LengthError? ==>
      exists i :: 0 <= i < |tracks| && tracks[i] == LengthCheck(tracks, mp3Readable).path
        && LengthUnreadable(tracks[i], mp3Readable)
        && forall j :: 0 <= j < i ==> !LengthUnreadable(tracks[j], mp3Readable)
  {
    if |tracks| > 0 && !LengthUnreadable(tracks[0], mp3Readable) {
      var rest := tracks[1..];
      LengthCheckSpec(rest, mp3Readable);
      assert forall i :: 1 <= i < |tracks| ==> tracks[i] == rest[i - 1];
      if LengthCheck(rest, mp3Readable).LengthError? {
        var k :| 0 <= k < |rest| && rest[k] == LengthCheck(rest, mp3Readable).path
          && LengthUnreadable(rest[k], mp3Readable)
          && forall j :: 0 <= j < k ==> !LengthUnreadable(rest[j], mp3Readable);
        assert tracks[k + 1] == rest[k];
      }
    }
  }

  class RetroMusicPlayer {
    var playlist: seq<string>
    var currentTrackIndex: nat
    var isPlaying: bool
    var isShuffled: bool
    var isRepeated: bool

    /** The fields as a Playback.Player value. */
    ghost function State(): Playback.Player
      reads this
    {
      Playback.Player(playlist, currentTrackIndex, isPlaying, isShuffled, isRepeated)
    }

    constructor ()
      ensures State() == Playback.Initial
    {
      playlist := [];
      currentTrackIndex := 0;
      isPlaying := false;
      isShuffled := false;
      isRepeated := false;
    }

    /**
     * The body of the add loop for one file: an accepted file is appended,
     * then its length is read, which raises for an unreadable '.mp3'; the
     * handler shows a warning but the entry stays. A rejected file only
     * shows a warning.
     */
    method AddFile(file: string, mp3Readable: string -> bool) returns (warning: seq<Warning>)
      modifies this
      ensures playlist == old(playlist) + (if IsSupported(file) then [file] else [])
      ensures currentTrackIndex == old(currentTrackIndex) && isPlaying == old(isPlaying)
      ensures isShuffled == old(isShuffled) && isRepeated == old(isRepeated)
      ensures warning == WarningFor(file, mp3Readable)
    {
      var fileExt := Lower(Ext(file));
      warning := [];
      if fileExt in SupportedFormats {
        playlist := playlist + [file];
        if fileExt == ".mp3" && !mp3Readable(file) {
          warning := [FileError(file)];
        }
      } else {
        warning := [UnsupportedFormat(file)];
      }
    }

    /**
     * `add_tracks` over the files the dialog returned; the returned warnings
     * are the dialogs shown, in order.
     */
    method AddTracks(files: seq<string>, mp3Readable: string -> bool) returns (warnings: seq<Warning>)
      modifies this
      ensures State() == Playback.AddFiles(old(State()), files)
      ensures warnings == AddWarnings(files, mp3Readable)
    {
      warnings := [];
      var i := 0;
      while i < |files|
        invariant 0 <= i <= |files|
        invariant playlist == old(playlist) + Supported(files[..i])
        invariant warnings == AddWarnings(files[..i], mp3Readable)
        invariant currentTrackIndex == old(currentTrackIndex) && isPlaying == old(isPlaying)
        invariant isShuffled == old(isShuffled) && isRepeated == old(isRepeated)
      {
        var warning := AddFile(files[i], mp3Readable);
        warnings := warnings + warning;
        FilterPrefixStep(files, i, IsSupported);
        AddWarningsPrefixStep(files, i, mp3Readable);
        i := i + 1;
      }
      assert files[..|files|] == files;
    }

    /** `dropEvent`: the dropped local files go through the same loop as `add_tracks`. */
    method DropEvent(urls: seq<string>, mp3Readable: string -> bool) returns (warnings: seq<Warning>)
      modifies this
      ensures State() == Playback.AddFiles(old(State()), urls)
      ensures warnings == AddWarnings(urls, mp3Readable)
    {
      warnings := AddTracks(urls, mp3Readable);
    }

    /** `play_track`. */
    method PlayTrack(starts: bool) returns (outcome: Playback.PlayOutcome)
      modifies this
      ensures outcome == Playback.PlayResult(old(State()), starts)
      ensures State() == Playback.Play(old(State()), starts)
    {
      if |playlist| > 0 {
        if currentTrackIndex >= |playlist| {
          return Playback.IndexError;
        }
        if !starts {
          return Playback.PlaybackError;
        }
        isPlaying := true;
        return Playback.Started;
      }
      return Playback.NoTracks;
    }

    /** `play_selected_track`: the clicked row becomes the cursor and is played. */
    method PlaySelectedTrack(row: nat, starts: bool) returns (outcome: Playback.PlayOutcome)
      modifies this
      ensures outcome == Playback.PlayResult(old(State()).(index := row), starts)
      ensures State() == Playback.Select(old(State()), row, starts)
    {
      currentTrackIndex := row;
      outcome := PlayTrack(starts);
    }

    /** `toggle_play`. */
    method TogglePlay()
      modifies this
      ensures State() == Playback.TogglePlay(old(State()))
    {
      isPlaying := !isPlaying;
    }

    /** `toggle_shuffle`. */
    method ToggleShuffle()
      modifies this
      ensures State() == Playback.ToggleShuffle(old(State()))
    {
      isShuffled := !isShuffled;
    }

    /** `toggle_repeat`. */
    method ToggleRepeat()
      modifies this
      ensures State() == Playback.ToggleRepeat(old(State()))
    {
      isRepeated := !isRepeated;
    }

    /** `next_track`; `draw` is the index the random draw returned under shuffle. */
    method NextTrack(mixerIdle: bool, starts: bool) returns (ghost draw: nat)
      modifies this
      ensures |old(playlist)| > 0 && old(isShuffled) ==> Playback.IsDraw(old(State()), draw)
      ensures State() == Playback.Next(old(State()), draw, mixerIdle, starts)
    {
      draw := 0;
      if |playlist| > 0 {
        if isShuffled {
          var k :| 0 <= k < |playlist|;
          draw := k;
          currentTrackIndex := k;
        } else {
          currentTrackIndex := Playback.FloorMod(currentTrackIndex + 1, |playlist|);
        }
        if !isRepeated && currentTrackIndex == 0 && mixerIdle {
          TogglePlay();
        } else {
          var _ := PlayTrack(starts);
        }
      }
    }

    /** `prev_track`; `draw` is the index the random draw returned under shuffle. */
    method PrevTrack(starts: bool) returns (ghost draw: nat)
      modifies this
      ensures |old(playlist)| > 0 && old(isShuffled) ==> Playback.IsDraw(old(State()), draw)
      ensures State() == Playback.Prev(old(State()), draw, starts)
    {
      draw := 0;
      if |playlist| > 0 {
        if isShuffled {
          var k :| 0 <= k < |playlist|;
          draw := k;
          currentTrackIndex := k;
        } else {
          currentTrackIndex := Playback.FloorMod(currentTrackIndex - 1, |playlist|);
        }
        var _ := PlayTrack(starts);
      }
    }

    /**
     * `load_playlist` once a file was chosen; `parsed` is the list read from
     * it and `readOk` says whether opening and parsing it succeeded. The list
     * is replaced before the loop that reads each MP3's length, so a length
     * that cannot be read shows the error dialog with the new list in place.
     */
    method LoadPlaylist(parsed: seq<string>, readOk: bool, mp3Readable: string -> bool) returns (outcome: LoadOutcome)
      modifies this
      ensures outcome == LoadResult(parsed, readOk, mp3Readable)
      ensures State() == if readOk then Playback.Load(old(State()), parsed) else old(State())
    {
      if !readOk {
        return ReadError;
      }
      playlist := parsed;
      assert parsed[0..] == parsed;
      var i := 0;
      while i < |parsed|
        invariant 0 <= i <= |parsed|
        invariant LengthCheck(parsed[i..], mp3Readable) == LengthCheck(parsed, mp3Readable)
        invariant State() == Playback.Load(old(State()), parsed)
      {
        if LengthUnreadable(parsed[i], mp3Readable) {
          return LengthError(parsed[i]);
        }
        assert parsed[i..][1..] == parsed[i + 1..];
        i := i + 1;
      }
      return Loaded;
    }
  }
}
