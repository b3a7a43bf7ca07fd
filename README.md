# Retro music player: playlist navigation model

The player is a desktop window (`RetroMusicPlayer`) that keeps an ordered
playlist of file paths, a cursor (`current_track_index`) and three flags
(`is_playing`, `is_shuffled`, `is_repeated`). Files are added through a file
dialog or by drag and drop and are kept only when their lower-cased
extension is one of nine supported formats. Next and previous move the
cursor with wrap-around, or to a random track under shuffle, and then play
that track. When next brings the cursor back to the first track with
repeat off while the mixer reports no position (`get_pos() == -1`), it
toggles the play flag instead of playing.

This project models that state machine in Dafny:

- `paths.dfy`, module `Paths`: Python's `os.path.splitext` and
  `os.path.basename` on POSIX paths, `str.lower`, the constant
  `SUPPORTED_FORMATS`, the acceptance test and the order-keeping filter
  the add loop applies (`Supported` is `Filter` with that test).
- `track_info.dfy`, module `TrackInfo`: the display name from
  `get_track_metadata`: the first title tag for `.mp3`, `.flac` and `.ogg`,
  and the base name otherwise, when the tag is missing and when reading fails.
- `playback.dfy`, module `Playback`: the state as a value (`Player`), one
  function per operation, and the lemmas stating what the operations
  guarantee.
- `music_player.dfy`, module `MusicPlayer`: the class `RetroMusicPlayer`
  with the source's five fields, updated in place by methods that mirror the
  source's methods. Each method is proved to change the fields exactly as
  the matching `Playback` function says. The add loop also returns the
  warning dialogs it would show.

Collaborators outside the model come in as parameters:

- `starts` says whether the mixer loads and starts a file without raising.
- `mixerIdle` says whether `mixer.music.get_pos()` returns -1.
- `mp3Readable` says whether an `.mp3` file parses for its length.
- `TagRead` is what the tag reader reports.
- `readOk` and `parsed` are the outcome of reading a saved playlist.
- The shuffle draw `random.randint(0, n - 1)` is a nondeterministic choice
  in `[0, n)`. The ghost out-parameter `draw` of `NextTrack` and `PrevTrack`
  names the value drawn.

The cursor is a `nat`. Every assignment to it in the source yields a
non-negative value, so Python's negative indexing never arises.

The usual invariant "the cursor is below the playlist's length" is not
kept. Loading a saved playlist replaces the list and keeps the cursor, so
the cursor can end up past the end (`LoadBreaksCursor`). `play_track` looks
the track up outside its exception handler, so a lookup with that cursor
would raise `IndexError`; the model makes this an outcome of `PlayTrack`
rather than a precondition. No caller in the program reaches it: next and
previous put the cursor in range before playing (`StepsRestoreCursor`,
`StepsNeverRaise`), and a double-click sets it to a row of the list widget,
which never has more rows than the playlist has entries (`SelectPlaysRow`).
The weaker `CursorOk` (in range, or 0) holds at start and is kept by every
operation except loading, selection included for such a row
(`OperationsKeepCursorOk`). Under it, `play_track` never raises
(`PlayNeverRaises`).

Behaviour of the code worth noting:

- Under shuffle, `next_track` may draw the current index again (`ShuffleLandsOnDraw`).
- `prev_track` draws at random under shuffle too.
- The end-of-list branch is taken only inside `next_track`, when the cursor
  returns to 0 with repeat off and the mixer reports no position; nothing
  runs when a track ends by itself.
- That branch *toggles* `is_playing`, so an idle player becomes marked as
  playing (`NextFromIdleMarksPlaying`).
- Loading keeps every path, whatever its extension, and does not reset the
  cursor. It replaces the list before reading the MP3 lengths, so a length
  that cannot be read shows the load error with the new list already in
  place (`LoadPlaylist`).
- Loading decides which tracks are MP3s by the lower-cased suffix ".mp3",
  adding by the extension `splitext` finds. Every added MP3 passes the
  suffix test (`Mp3ExtensionHasMp3Suffix`), but a dot file such as
  "/m/.mp3" passes it without being accepted by the add loop
  (`DotFileHasMp3Suffix`).

## Model

| member | source | states |
|---|---|---|
| `Paths.SplitExtSpec` | retro_music_player.py:293 | root and extension concatenate back to the path; the extension is empty or starts with the one dot it contains and holds no separator |
| `Paths.Lower` | retro_music_player.py:293 | lower-casing keeps the length |
| `Paths.LowerAt` | retro_music_player.py:293 | each character of the result is the lowered character at the same place |
| `Paths.Basename` | retro_music_player.py:319 | the base name is the part of the path after its last separator: a suffix without any separator, preceded by a separator when shorter than the path |
| `Paths.ExtOfFile` | retro_music_player.py:293 | a file `dir/name.ext` whose name has a non-dot character has exactly `.ext` as its extension, whatever the directory |
| `Paths.DotFileHasNoExt` | retro_music_player.py:293-294 | a file named only by its extension, such as `dir/.mp3`, has no extension and is rejected |
| `Paths.SupportedIffExtension` | retro_music_player.py:293-294 | such a file is accepted if and only if its lower-cased extension is one of the nine supported formats, so case does not matter |
| `Paths.Filter` | retro_music_player.py:292-296 | the kept files are never more than the chosen files |
| `Paths.FilterAppend` | retro_music_player.py:292-296 | filtering two batches one after the other is filtering them together: input order is kept |
| `Paths.FilterPrefixStep` | retro_music_player.py:292-296 | one more file is appended at the end exactly when it passes the test |
| `Paths.FilterMembership` | retro_music_player.py:292-296 | a path is kept if and only if it was chosen and passes the test |
| `Paths.Mp3ExtensionHasMp3Suffix` | retro_music_player.py:426 | a path whose extension lowers to ".mp3", and so is treated as an MP3 when added, passes the `lower().endswith('.mp3')` test of loading |
| `Paths.DotFileHasMp3Suffix` | retro_music_player.py:426 | "/m/.mp3" passes the suffix test of loading but has no extension, so adding rejects it |
| `TrackInfo.TrackName` | retro_music_player.py:307-322 | the name is the base name for any extension other than `.mp3`/`.flac`/`.ogg`, and whenever tags are unreadable or untitled; any other name is the first title tag |
| `TrackInfo.TitleShown` | retro_music_player.py:310-318 | for a tagged format with a non-empty title list the first title is shown |
| `TrackInfo.TaggedAreSupported` | retro_music_player.py:309-318 | every format whose tags are read is also an accepted format |
| `Playback.FloorMod` | retro_music_player.py:396 | Python's `%` with a positive divisor lies in `[0, n)` and satisfies the floored division identity |
| `Playback.FloorModWraps` | retro_music_player.py:385-396 | `n mod n` is 0 and `-1 mod n` is `n - 1`: next wraps from the last track to the first, previous from the first to the last |
| `Playback.FloorModInRange` | retro_music_player.py:385-396 | a value already in `[0, n)` is left unchanged |
| `Playback.PlayStartsIff` | retro_music_player.py:345-356 | a track starts if and only if the cursor is in range and the mixer accepts the file; `is_playing` becomes true exactly then, and nothing else changes |
| `Playback.PlayNeverRaises` | retro_music_player.py:346-347 | under CursorOk the track lookup does not raise |
| `Playback.EmptyIsNoOp` | retro_music_player.py:345-397 | on an empty playlist next, previous and play change no state at all |
| `Playback.NextSequential` | retro_music_player.py:384-385 | without shuffle next sets the cursor to `(i + 1) mod n`, in range even from an out-of-range cursor; one forward inside the list, 0 from the last track |
| `Playback.PrevSequential` | retro_music_player.py:395-396 | without shuffle previous sets the cursor to Python's `(i - 1) mod n`: one back, and the last track from the first |
| `Playback.ShuffleLandsOnDraw` | retro_music_player.py:382-394 | under shuffle next and previous land on the drawn index, which may be the current one |
| `Playback.StepsNeverRaise` | retro_music_player.py:380-397 | the track next and previous play is always under the cursor, so the lookup never raises |
| `Playback.NextEndOfList` | retro_music_player.py:386-389 | with repeat off, the new cursor 0 and an idle mixer, next toggles play; otherwise it plays the new track |
| `Playback.NextFromLastTrack` | retro_music_player.py:384-389 | from the last track, repeat off and the mixer idle, next stops a playing player at track 0; with repeat on it plays track 0 |
| `Playback.NextFromIdleMarksPlaying` | retro_music_player.py:364-389 | on a one-track list that is not playing, next at end of list marks the player as playing without starting anything |
| `Playback.TogglesFlipOneFlag` | retro_music_player.py:364-405 | each toggle negates exactly its own flag, leaves the rest of the state alone, and applied twice restores the state |
| `Playback.AddFilesAppendsAccepted` | retro_music_player.py:292-296 | adding keeps the old entries as a prefix and the cursor and flags unchanged; a path ends up in the list if and only if it was there or is an accepted chosen file; a rejected file leaves the state untouched |
| `Playback.AddFilesTwice` | retro_music_player.py:287-305 | adding two batches in turn is adding them together |
| `Playback.SelectPlaysRow` | retro_music_player.py:341-347 | the clicked row becomes the cursor over the same list; a row of the playlist never raises IndexError and starts when the mixer accepts it; a row past the end changes nothing else |
| `Playback.LoadBreaksCursor` | retro_music_player.py:417-422 | loading a shorter list keeps the cursor, which can then lie past the end, where a lookup in `play_track` would raise IndexError |
| `Playback.OperationsKeepCursorOk` | retro_music_player.py:341-405 | play, next, previous, the toggles, adding files and selecting a row of the playlist keep CursorOk |
| `Playback.StepsRestoreCursor` | retro_music_player.py:380-397 | on a non-empty list next and previous put any cursor back in range |
| `Playback.InitialCursorOk` | retro_music_player.py:38-42 | the initial state (empty list, cursor 0) satisfies CursorOk, though no track is under the cursor |
| `MusicPlayer.WarningFor` | retro_music_player.py:293-305 | each file shows at most one warning |
| `MusicPlayer.AddWarningsSnoc` | retro_music_player.py:292-305 | one more file adds at most its own warning, at the end |
| `MusicPlayer.AddWarningsPrefixStep` | retro_music_player.py:292-305 | the warnings for one more file are the earlier ones followed by that file's own |
| `MusicPlayer.WarningsAgreeWithPlaylist` | retro_music_player.py:292-305 | a file reported unsupported was chosen and rejected; a file reported with a file error was appended anyway, because the append comes before the step that raises |
| `MusicPlayer.LengthCheckSpec` | retro_music_player.py:423-431 | a load reports success if and only if no track is an unreadable MP3; otherwise the error names the first such track |
| `MusicPlayer.RetroMusicPlayer.constructor` | retro_music_player.py:38-42 | the player starts with an empty list, cursor 0 and all flags false |
| `MusicPlayer.RetroMusicPlayer.AddFile` | retro_music_player.py:293-305 | one file is appended exactly when accepted; the warning is unsupported-format for a rejected file and a file error for an unreadable `.mp3`; nothing else changes |
| `MusicPlayer.RetroMusicPlayer.AddTracks` | retro_music_player.py:287-305 | the loop appends exactly the accepted files in order, changes nothing else, and shows the warnings of `AddWarnings` |
| `MusicPlayer.RetroMusicPlayer.DropEvent` | retro_music_player.py:235-250 | dropped files are added exactly as chosen ones |
| `MusicPlayer.RetroMusicPlayer.PlayTrack` | retro_music_player.py:345-362 | the outcome is NoTracks, IndexError, PlaybackError or Started as PlayResult says; only Started changes the state, setting `is_playing` |
| `MusicPlayer.RetroMusicPlayer.PlaySelectedTrack` | retro_music_player.py:341-343 | the clicked row becomes the cursor and is played |
| `MusicPlayer.RetroMusicPlayer.TogglePlay` | retro_music_player.py:364-378 | `is_playing` is negated, nothing else changes |
| `MusicPlayer.RetroMusicPlayer.ToggleShuffle` | retro_music_player.py:399-401 | `is_shuffled` is negated, nothing else changes |
| `MusicPlayer.RetroMusicPlayer.ToggleRepeat` | retro_music_player.py:403-405 | `is_repeated` is negated, nothing else changes |
| `MusicPlayer.RetroMusicPlayer.NextTrack` | retro_music_player.py:380-389 | the fields change as `Playback.Next` with the drawn index, which lies in range under shuffle |
| `MusicPlayer.RetroMusicPlayer.PrevTrack` | retro_music_player.py:391-397 | the fields change as `Playback.Prev` with the drawn index, which lies in range under shuffle |
| `MusicPlayer.RetroMusicPlayer.LoadPlaylist` | retro_music_player.py:417-431 | a file that fails to open or parse changes nothing; a parsed one replaces the list and keeps the cursor and flags, and the loop over its tracks then ends in the success dialog or in the error for the first unreadable MP3, with the new list kept |

## Left out

- The Qt user interface is not modelled: widgets, layouts, themes, dialogs,
  message boxes, shortcuts and the list widget. Warning dialogs appear only as
  the `Warning` values `AddTracks` returns.
- Because the list widget is left out, the model does not show that widget
  rows and playlist positions diverge. An `.mp3` whose length cannot be read
  is appended to the playlist but gets no widget row, so a later
  double-click selects by a row number that no longer matches.
- The pygame mixer (load, play, pause, unpause, fadeout, volume, seek) is a
  foreign library. Only its effect on the fields is kept, through `starts`
  and `mixerIdle`. `crossfade_duration` only feeds `fadeout`.
- The mutagen tag and album-art readers are third-party parsers. Only the
  base-name fallback is kept, through `TagRead`. `update_album_art` changes
  no modelled state.
- `update_progress` and `seek_to_position` are left out: their arithmetic
  is floating point and depends on mixer timing.
- The equalizer and visualizer are random placeholders, and `adjust_equalizer`
  only prints, so they are left out.
- `save_playlist` and the file handling of `load_playlist` are JSON file I/O
  and are left out. A loaded file that parses to something other than a
  list of strings is also left out. `LoadPlaylist` takes the parsed list, or
  a failure, and an oracle for which MP3 lengths can be read.
- Logging and the Qt timers are left out.
- `Paths.Lower`: lowers the ASCII letters only and leaves every other
  character unchanged; Python's `str.lower` follows Unicode.
- `Paths.SplitExt`: follows the POSIX rules (separator `/`). The Windows
  rules, with `\` and drive letters, are not modelled.
- `MusicPlayer.RetroMusicPlayer.NextTrack`: the shuffle draw is uniform in
  the source; the model promises only that it lies in `[0, n)`.
- `MusicPlayer.RetroMusicPlayer.PrevTrack`: the same holds for its shuffle draw.
