/**
 * The playlist navigation state of the player as a value, and the effect of
 * each operation on it. The class in module MusicPlayer is proved to change
 * its fields exactly as these functions say; the lemmas here state what the
 * operations guarantee.
 */
module Playback {
  import opened Paths

  /** Playlist of track paths, cursor, and the three flags. */
  datatype Player = Player(
    playlist: seq<string>,
    index: nat,
    playing: bool,
    shuffled: bool,
    repeated: bool)

  /** The state a new window starts in. */
  const Initial: Player := Player([], 0, false, false, false)

  /**
   * What `play_track` does:
   *   NoTracks:      the playlist is empty, nothing happens;
   *   IndexError:    the cursor is past the end; the lookup raises outside the handler;
   *   PlaybackError: the mixer failed to load or start the file; the handler reports it;
   *   Started:       the track plays.
   */
  datatype PlayOutcome = NoTracks | IndexError | PlaybackError | Started

  /** Python's `a % n` for a positive divisor: floored, so never negative. */
  function FloorMod(a: int, n: int): (r: int)
    requires n > 0
    ensures 0 <= r < n
    ensures a == (a / n) * n + r
  {
    a % n
  }

  /** FloorMod wraps the step past either end of the list. */
  lemma FloorModWraps(n: int)
    requires n > 0
    ensures FloorMod(n, n) == 0
    ensures FloorMod(-1, n) == n - 1
  {
  }

  /** FloorMod leaves a value already in range alone. */
  lemma FloorModInRange(a: int, n: int)
    requires 0 <= a < n
    ensures FloorMod(a, n) == a
  {
  }

  /** The cursor designates a track. */
  predicate CursorInRange(s: Player)
  {
    s.index < |s.playlist|
  }

  /**
   * The weaker condition every operation but loading a playlist keeps: the
   * cursor designates a track, or it is 0 (as it starts out).
   */
  predicate CursorOk(s: Player)
  {
    CursorInRange(s) || s.index == 0
  }

  /** The outcome of `play_track`; `starts` says whether the mixer loads and plays the file. */
  function PlayResult(s: Player, starts: bool): PlayOutcome
  {
    if |s.playlist| == 0 then NoTracks
    else if !CursorInRange(s) then IndexError
    else if !starts then PlaybackError
    else Started
  }

  /** The state after `play_track`: only a successful start changes it. */
  function Play(s: Player, starts: bool): Player
  {
    if PlayResult(s, starts) == Started then s.(playing := true) else s
  }

  /** `toggle_play`, `toggle_shuffle`, `toggle_repeat`. */
  function TogglePlay(s: Player): Player { s.(playing := !s.playing) }
  function ToggleShuffle(s: Player): Player { s.(shuffled := !s.shuffled) }
  function ToggleRepeat(s: Player): Player { s.(repeated := !s.repeated) }

  /** `draw` is a value `random.randint(0, len(playlist) - 1)` can return. */
  predicate IsDraw(s: Player, draw: int)
  {
    0 <= draw < |s.playlist|
  }

  /** The cursor step of `next_track`: a random draw under shuffle, else one forward with wrap-around. */
  function Advance(s: Player, draw: nat): Player
    requires |s.playlist| > 0
    requires s.shuffled ==> IsDraw(s, draw)
  {
    s.(index := if s.shuffled then draw else FloorMod(s.index + 1, |s.playlist|))
  }

  /** The cursor step of `prev_track`: a random draw under shuffle, else one back with wrap-around. */
  function Retreat(s: Player, draw: nat): Player
    requires |s.playlist| > 0
    requires s.shuffled ==> IsDraw(s, draw)
  {
    s.(index := if s.shuffled then draw else FloorMod(s.index - 1, |s.playlist|))
  }

  /**
   * The end-of-list test of `next_track`, taken after the step: repeat is
   * off, the cursor came back to 0 and the mixer reports no position
   * (`get_pos() == -1`, passed in as `mixerIdle`).
   */
  predicate StopsAtEnd(s: Player, mixerIdle: bool)
  {
    !s.repeated && s.index == 0 && mixerIdle
  }

  /** `next_track`: step the cursor, then either toggle play (end of list) or play the track. */
  function Next(s: Player, draw: nat, mixerIdle: bool, starts: bool): Player
    requires |s.playlist| > 0 && s.shuffled ==> IsDraw(s, draw)
  {
    if |s.playlist| == 0 then s
    else
      var t := Advance(s, draw);
      if StopsAtEnd(t, mixerIdle) then TogglePlay(t) else Play(t, starts)
  }

  /** `prev_track`: step the cursor back, then play the track. */
  function Prev(s: Player, draw: nat, starts: bool): Player
    requires |s.playlist| > 0 && s.shuffled ==> IsDraw(s, draw)
  {
    if |s.playlist| == 0 then s else Play(Retreat(s, draw), starts)
  }

  /** `play_selected_track`: the cursor is set to the clicked row, then the track plays. */
  function Select(s: Player, row: nat, starts: bool): Player
  {
    Play(s.(index := row), starts)
  }

  /** `add_tracks` and `dropEvent`: the accepted files are appended in order; nothing else changes. */
  function AddFiles(s: Player, files: seq<string>): Player
  {
    s.(playlist := s.playlist + Supported(files))
  }

  /** `load_playlist` on a file that parses: the list is replaced and the cursor is kept. */
  function Load(s: Player, tracks: seq<string>): Player
  {
    s.(playlist := tracks)
  }

  // ----- play_track -----

  /** A track starts exactly when there is one under the cursor and the mixer accepts it. */
  lemma PlayStartsIff(s: Player, starts: bool)
    ensures PlayResult(s, starts) == Started <==> CursorInRange(s) && starts
    ensures Play(s, starts).playing <==> s.playing || (CursorInRange(s) && starts)
    ensures Play(s, starts).(playing := s.playing) == s
  {
  }

  /** Under a cursor that is OK, `play_track` never raises IndexError. */
  lemma PlayNeverRaises(s: Player, starts: bool)
    requires CursorOk(s)
    ensures PlayResult(s, starts) != IndexError
  {
  }

  // ----- next_track and prev_track -----

  /** On an empty playlist, next, previous and play change nothing. */
  lemma EmptyIsNoOp(s: Player, draw: nat, mixerIdle: bool, starts: bool)
    requires |s.playlist| == 0
    ensures Next(s, draw, mixerIdle, starts) == s
    ensures Prev(s, draw, starts) == s
    ensures Play(s, starts) == s && PlayResult(s, starts) == NoTracks
  {
  }

  /**
   * Without shuffle, `next_track` moves the cursor to `(i + 1) mod n`, which
   * lies in range even when the old cursor did not; the last track wraps to 0.
   */
  lemma NextSequential(s: Player, draw: nat, mixerIdle: bool, starts: bool)
    requires |s.playlist| > 0 && !s.shuffled
    ensures Next(s, draw, mixerIdle, starts).index == FloorMod(s.index + 1, |s.playlist|)
    ensures CursorInRange(Next(s, draw, mixerIdle, starts))
    ensures s.index + 1 < |s.playlist| ==> Next(s, draw, mixerIdle, starts).index == s.index + 1
    ensures s.index == |s.playlist| - 1 ==> Next(s, draw, mixerIdle, starts).index == 0
  {
    if s.index + 1 < |s.playlist| {
      FloorModInRange(s.index + 1, |s.playlist|);
    }
    FloorModWraps(|s.playlist|);
  }

  /**
   * Without shuffle, `prev_track` moves the cursor to Python's `(i - 1) mod n`:
   * one back, and from the first track to the last.
   */
  lemma PrevSequential(s: Player, draw: nat, starts: bool)
    requires |s.playlist| > 0 && !s.shuffled
    ensures Prev(s, draw, starts).index == FloorMod(s.index - 1, |s.playlist|)
    ensures CursorInRange(Prev(s, draw, starts))
    ensures 0 < s.index <= |s.playlist| ==> Prev(s, draw, starts).index == s.index - 1
    ensures s.index == 0 ==> Prev(s, draw, starts).index == |s.playlist| - 1
  {
    if 0 < s.index <= |s.playlist| {
      FloorModInRange(s.index - 1, |s.playlist|);
    }
    FloorModWraps(|s.playlist|);
  }

  /**
   * Under shuffle, next and previous land on whatever index was drawn, the
   * current one included: nothing but the range is promised.
   */
  lemma ShuffleLandsOnDraw(s: Player, draw: nat, mixerIdle: bool, starts: bool)
    requires |s.playlist| > 0 && s.shuffled && IsDraw(s, draw)
    ensures Next(s, draw, mixerIdle, starts).index == draw
    ensures Prev(s, draw, starts).index == draw
    ensures CursorInRange(s) ==> Next(s, s.index, mixerIdle, starts).index == s.index
  {
  }

  /** The track `next_track` and `prev_track` play is always under the cursor: they never raise IndexError. */
  lemma StepsNeverRaise(s: Player, draw: nat, starts: bool)
    requires |s.playlist| > 0 && (s.shuffled ==> IsDraw(s, draw))
    ensures PlayResult(Advance(s, draw), starts) != IndexError
    ensures PlayResult(Retreat(s, draw), starts) != IndexError
  {
  }

  /**
   * End of list: with repeat off, a cursor that came back to 0 and an idle
   * mixer, `next_track` toggles play instead of playing; otherwise it plays
   * the new track.
   */
  lemma NextEndOfList(s: Player, draw: nat, mixerIdle: bool, starts: bool)
    requires |s.playlist| > 0 && (s.shuffled ==> IsDraw(s, draw))
    ensures StopsAtEnd(Advance(s, draw), mixerIdle) ==>
      Next(s, draw, mixerIdle, starts) == TogglePlay(Advance(s, draw))
    ensures !StopsAtEnd(Advance(s, draw), mixerIdle) ==>
      Next(s, draw, mixerIdle, starts) == Play(Advance(s, draw), starts)
  {
  }

  /**
   * From the last track, with repeat and shuffle off and the mixer finished,
   * `next_track` stops a playing player at track 0; with repeat on it plays track 0.
   */
  lemma {:induction false} NextFromLastTrack(s: Player, mixerIdle: bool, starts: bool)
    requires |s.playlist| > 0 && !s.shuffled && s.index == |s.playlist| - 1
    ensures !s.repeated && mixerIdle && s.playing ==>
      Next(s, 0, mixerIdle, starts) == s.(index := 0, playing := false)
    ensures s.repeated ==>
      Next(s, 0, mixerIdle, starts) == s.(index := 0, playing := s.playing || starts)
  {
    NextSequential(s, 0, mixerIdle, starts);
  }

  /**
   * The end-of-list branch flips the flag rather than clearing it: a player
   * that is not playing, on a one-track list with repeat off and an idle
   * mixer, is marked as playing by `next_track` although nothing was started.
   */
  lemma NextFromIdleMarksPlaying(track: string, starts: bool)
    ensures Next(Player([track], 0, false, false, false), 0, true, starts).playing
  {
    FloorModWraps(1);
  }

  // ----- play_selected_track -----

  /**
   * Selecting a row moves the cursor there and plays that track: a row of
   * the playlist never raises IndexError, a row past its end would.
   */
  lemma SelectPlaysRow(s: Player, row: nat, starts: bool)
    ensures Select(s, row, starts).index == row
    ensures Select(s, row, starts).playlist == s.playlist
    ensures row < |s.playlist| ==> PlayResult(s.(index := row), starts) != IndexError
    ensures row < |s.playlist| && starts ==> Select(s, row, starts).playing
    ensures |s.playlist| <= row ==> Select(s, row, starts) == s.(index := row)
  {
  }

  // ----- toggles -----

  /** Each toggle negates its one flag and leaves the rest of the state alone; twice is the identity. */
  lemma TogglesFlipOneFlag(s: Player)
    ensures TogglePlay(s) == s.(playing := !s.playing) && TogglePlay(TogglePlay(s)) == s
    ensures ToggleShuffle(s) == s.(shuffled := !s.shuffled) && ToggleShuffle(ToggleShuffle(s)) == s
    ensures ToggleRepeat(s) == s.(repeated := !s.repeated) && ToggleRepeat(ToggleRepeat(s)) == s
  {
  }

  // ----- adding and loading -----

  /**
   * Adding files keeps the old entries as a prefix, appends exactly the
   * accepted files in order, and leaves cursor and flags unchanged.
   */
  lemma AddFilesAppendsAccepted(s: Player, files: seq<string>, f: string)
    ensures AddFiles(s, files).playlist[..|s.playlist|] == s.playlist
    ensures AddFiles(s, files).(playlist := s.playlist) == s
    ensures f in AddFiles(s, files).playlist <==> f in s.playlist || (f in files && IsSupported(f))
    ensures !IsSupported(f) ==> AddFiles(s, [f]) == s
  {
    FilterMembership(files, IsSupported, f);
    if !IsSupported(f) {
      assert Supported([f]) == Supported([f][1..]) == [];
    }
  }

  /** Adding two batches is adding them together. */
  lemma AddFilesTwice(s: Player, a: seq<string>, b: seq<string>)
    ensures AddFiles(AddFiles(s, a), b) == AddFiles(s, a + b)
  {
    FilterAppend(a, b, IsSupported);
    assert (s.playlist + Supported(a)) + Supported(b) == s.playlist + (Supported(a) + Supported(b));
  }

  /**
   * Loading a playlist keeps the cursor, so it can leave it past the end of
   * the new list, where `play_track` would raise IndexError. No caller does
   * that: next, previous and a selected row all set the cursor first.
   */
  lemma LoadBreaksCursor()
    ensures var s := Player(["/m/a.mp3", "/m/b.mp3"], 1, true, false, false);
      CursorInRange(s) && !CursorOk(Load(s, ["/m/c.mp3"]))
      && PlayResult(Load(s, ["/m/c.mp3"]), true) == IndexError
  {
  }

  /**
   * Every operation except loading keeps CursorOk; next and previous on a
   * non-empty list even restore the stronger CursorInRange. Selecting keeps
   * it for a row of the list widget, which never has more rows than the
   * playlist has entries.
   */
  lemma OperationsKeepCursorOk(s: Player, draw: nat, row: nat, mixerIdle: bool, starts: bool, files: seq<string>)
    requires CursorOk(s)
    requires |s.playlist| > 0 && s.shuffled ==> IsDraw(s, draw)
    ensures CursorOk(Play(s, starts))
    ensures CursorOk(Next(s, draw, mixerIdle, starts))
    ensures CursorOk(Prev(s, draw, starts))
    ensures row < |s.playlist| ==> CursorOk(Select(s, row, starts))
    ensures CursorOk(TogglePlay(s)) && CursorOk(ToggleShuffle(s)) && CursorOk(ToggleRepeat(s))
    ensures CursorOk(AddFiles(s, files))
  {
  }

  /** Next and previous bring any cursor back in range, even one a load left past the end. */
  lemma StepsRestoreCursor(s: Player, draw: nat, mixerIdle: bool, starts: bool)
    requires |s.playlist| > 0 && (s.shuffled ==> IsDraw(s, draw))
    ensures CursorInRange(Next(s, draw, mixerIdle, starts))
    ensures CursorInRange(Prev(s, draw, starts))
  {
  }

  /** The initial state is CursorOk. */
  lemma InitialCursorOk()
    ensures CursorOk(Initial) && !CursorInRange(Initial)
  {
  }
}
