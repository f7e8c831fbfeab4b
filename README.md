# Sonika music player: playback state machine in Dafny

Sonika is a browser audio player. A single class, `MusicPlayer` in
`static/script.js`, fetches the list of track names from the server, shows it
as a clickable playlist and drives one `<audio>` element through play, pause,
loop, next and previous, keeping a progress bar and an `M:SS` elapsed-time
display in step. This project models that class's playback state machine and
its `formatTime` helper, and proves what each handler does.

Modules:

- `TimeFormat` (`time_format.dfy`): `formatTime` over NaN and whole seconds,
  with the decimal and `padStart` helpers it relies on, and a parser of the
  `M:SS` text that serves as its inverse.
- `Navigation` (`navigation.dfy`): the wrap-around index arithmetic of
  `playNext`/`playPrev`, with JavaScript's truncating `%`.
- `Playback` (`playback.dfy`): the player's state as a value (`PlayerState`:
  the player's fields, the audio element's `src`/`loop`/`paused` and its play
  requests, and the display), one transition function per handler, the
  invariant `Inv`, and `Apply`/`Run` for sequences of user and element events.
- `PlaybackProperties` (`playback_properties.dfy`): the lemmas about those
  transitions, among them the session invariant: whenever the list is
  non-empty, `0 <= currentTrackIndex < |tracks|`.
- `Player` (`music_player.dfy`): the class `MusicPlayer` itself, whose methods
  update its fields in place (the two `forEach` loops become `while` loops) and
  are proved to perform exactly the matching `Playback` transition while
  keeping the invariant.
- `Scenarios` (`scenarios.dfy`): a client session of the class.
- `Wrappers` (`wrappers.dfy`): `Option`.

Modelling choices:

- The response's `songs` array is `tracks: seq<string>`. A response without
  `songs`, and a failed fetch (which leaves `this.tracks` as `[]`), behave in
  every modelled handler exactly like an empty list, so all three are `[]`.
- `encodeURIComponent` is the class constant `encode` (a parameter `enc` of the
  transition functions): any function from names to path segments.
- `audio.play()` is a request: `PlayTrack` counts it (`playRequests`,
  `pendingPlays`), and `PlaySucceeded`/`PlayFailed` are the later settlement of
  one pending request. As the HTML `play()` method does for a request it
  admits, the request itself clears the element's `paused` attribute at once;
  only success sets `isPlaying`. So a second click on the play button before
  the first request settles finds the element unpaused and pauses it
  (`DoubleClickPauses`).
- `audio.load()` leaves the element paused, as the HTML media element's load
  algorithm does; `audio.pause()` sets `paused`.
- The page's initial progress value and time text come from markup that is not
  part of this model; they are taken as 0 and "0:00".

Behaviour of the code worth knowing, reproduced by the model:

- `loadTrack` rejects an empty name as well as an index out of range. Because
  `playNext`/`playPrev` move the index before calling it, "next" onto an empty
  name changes the index and requests play while the element keeps the old
  source and the old row stays highlighted (`EmptyNameKeepsOldHighlight`). A
  click on a row whose name is empty does the same (`RowClickSelects`).
- `loadTrack` never sets `currentTrackIndex`; the row click, `playNext` and
  `playPrev` set it first.
- When the list arrives empty, `initialize` does not call `buildPlaylist`, so
  the "No tracks available" row is never shown at start-up; `buildPlaylist`
  itself still has that branch, and the model keeps it.
- The success callback of `playTrack` does not check which request it
  belongs to. In the page, `load()` and `pause()` reject every pending
  request, so a late success can only follow a move onto an empty name, where
  the old source is still loaded. The model does not apply those rejections:
  it lets any pending request succeed later (see "## Left out").

## Model

| member | source | states |
|---|---|---|
| `TimeFormat.Decimal` | static/script.js:298-300 | the decimal text of a number is never empty, has no leading zero, and is one character long exactly for numbers below 10 |
| `TimeFormat.DecimalRoundTrip` | static/script.js:298-300 | the decimal text parses back to the number it renders |
| `TimeFormat.PadStart` | static/script.js:299 | `padStart` yields exactly the width, or the original length when that is already longer |
| `TimeFormat.PadStartShape` | static/script.js:299 | padding keeps the original string at the end and puts only fill characters before it |
| `TimeFormat.SecondsField` | static/script.js:299 | the padded seconds within a minute are always exactly two digits: tens, then units |
| `TimeFormat.FormatTime` | static/script.js:295-301 | every display, NaN included, is at least four characters and ends in a colon and two digits whose first is at most 5 (seconds below 60) |
| `TimeFormat.FormatTimeFields` | static/script.js:295-301 | for whole seconds the text is the decimal minutes, a colon, and the two digits of the seconds within the minute (always 00..59) |
| `TimeFormat.FormatTimeRoundTrip` | static/script.js:295-301 | reading an `M:SS` display back yields the seconds it was made from, so minutes and seconds together determine the time |
| `TimeFormat.NotANumberLooksLikeZero` | static/script.js:296 | NaN renders "0:00", the same text as zero seconds |
| `TimeFormat.FormatTimeExamples` | static/script.js:295-301 | 5 s gives "0:05", 65 s gives "1:05", 3600 s gives "60:00" |
| `Navigation.JsRemainder` | static/script.js:255 | JavaScript's `%`: magnitude below the divisor, sign of the dividend, equal to the mathematical remainder for non-negative dividends and to `a + n * trunc(-a / n)` for negative ones |
| `Navigation.NextIndex` | static/script.js:255 | on a valid index "next" moves one on and from the last track to the first |
| `Navigation.PrevIndex` | static/script.js:264 | on a valid index "previous" moves one back and from the first track to the last |
| `Navigation.NegativeIndexEscapes` | static/script.js:264 | from a negative index the truncating `%` leaves the list's range, so the invariant's lower bound is needed |
| `Navigation.NextPrevInverse` | static/script.js:252-267 | next after previous, and previous after next, restore any valid index |
| `Navigation.NextCycle` | static/script.js:252-258 | pressing "next" as many times as there are tracks returns to the starting index |
| `Playback.Highlight` | static/script.js:283-291 | exactly the row at `index` is active; every row keeps its kind and text |
| `Playback.Inv` | static/script.js:252-267 | under the invariant the index is never negative, so on a non-empty list the truncating `%` of "next" and "previous" always lands inside the list |
| `Playback.BuildPlaylist` | static/script.js:142-173 | building the playlist keeps the list and the invariant and yields one row per track, or a single row for an empty list (contents in `PlaylistProjection`) |
| `Playback.LoadTrack` | static/script.js:176-198 | loading never changes the list or the index and keeps the invariant (effects in `LoadTrackLoads`, `LoadTrackRejects`) |
| `Playback.PlayTrack` | static/script.js:201-204 | a play request leaves the element unpaused with a request pending, and keeps the list and the invariant |
| `Playback.PlaySucceeded` | static/script.js:205-210 | success removes exactly one pending request and keeps the list and the invariant (effects in `SuccessStartsPlaying`) |
| `Playback.PlayFailed` | static/script.js:211-213 | a rejection removes exactly one pending request and keeps the list and the invariant |
| `Playback.TogglePlay` | static/script.js:217-227 | the play button always flips the element's paused attribute and keeps the list and the invariant (branches in `TogglePlayOutcomes`) |
| `Playback.ToggleLoop` | static/script.js:230-234 | toggling always flips `isLooping` and keeps the list and the invariant |
| `Playback.PlayNext` | static/script.js:252-258 | "next" keeps the list and the invariant, so the index stays inside a non-empty list (effects in `PlayNextAdvances`) |
| `Playback.PlayPrev` | static/script.js:261-267 | "previous" keeps the list and the invariant (effects in `PlayPrevRetreats`) |
| `Playback.HandleTrackEnded` | static/script.js:270-280 | the end of a track keeps the list and the invariant (effects in `TrackEndedWhileLooping`, `TrackEndedAdvances`) |
| `Playback.SelectRow` | static/script.js:165-169 | a click on a row of the list keeps the list and the invariant (effects in `RowClickSelects`) |
| `Playback.Initialize` | static/script.js:86-96 | storing the fetched list while none is stored keeps the invariant, and the list is the fetched one (effects in `InitializeLoadsFirstTrack`) |
| `Playback.Apply` | static/script.js:103-117 | every user or element event keeps the invariant and leaves the list alone |
| `Playback.Run` | static/script.js:103-117 | any sequence of events keeps the invariant and the list, by induction on the events |
| `PlaybackProperties.SessionKeepsIndexInRange` | static/script.js:22-26 | in any session (events, then the list arriving, then events) the index lies in `[0, n)` whenever the list is non-empty, and the element loops exactly when the player does |
| `PlaybackProperties.LoadTrackRejects` | static/script.js:177-180 | with no truthy name at the index (out of range or "") loading changes nothing |
| `PlaybackProperties.LoadTrackLoads` | static/script.js:182-197 | a successful load sets `src` to "/tunes/" plus the encoded name, stops playing, resets progress to 0 and the time to the zero display, makes exactly that row active, and changes nothing else of the player's state |
| `PlaybackProperties.PlayNextAdvances` | static/script.js:252-258 | "next" on a non-empty list moves to `(i+1) mod n`, from `n-1` to 0, requests play once (unpausing the element), and loads the new track (progress 0, time "0:00") unless its name is "" (then source, rows, playing flag, progress and time stay) |
| `PlaybackProperties.PlayPrevRetreats` | static/script.js:261-267 | "previous" moves to `(i-1+n) mod n`, from 0 to `n-1`, requests play once (unpausing the element), and loads the new track (progress 0, time "0:00") unless its name is "" (then source, rows, playing flag, progress and time stay) |
| `PlaybackProperties.PrevNextRestoreIndex` | static/script.js:252-267 | "next" after "previous" (and the reverse) returns to the same track index |
| `PlaybackProperties.EmptyListIsInert` | static/script.js:253 | on an empty list "next", "previous" and the end of a track change no index and request no play |
| `PlaybackProperties.NextClicksIndex` | static/script.js:252-258 | `k` "next" clicks move the index exactly `k` wrap-around steps |
| `PlaybackProperties.NextAroundTheList` | static/script.js:252-258 | one "next" click per track returns to the track one started from |
| `PlaybackProperties.TrackEndedWhileLooping` | static/script.js:271 | while looping the end of a track changes nothing |
| `PlaybackProperties.TrackEndedAdvances` | static/script.js:270-280 | otherwise it clears `isPlaying` and then behaves exactly as "next": wrap-around advance and one play request |
| `PlaybackProperties.TrackEndedWrapsOnThree` | static/script.js:270-280 | on three tracks the end of track 2 moves to track 0 and requests play |
| `PlaybackProperties.ToggleLoopInvolution` | static/script.js:230-234 | toggling negates `isLooping` and sets the element's `loop` to the new value; toggling twice restores the state |
| `PlaybackProperties.TogglePlayOutcomes` | static/script.js:217-227 | on a paused element the button only requests play; otherwise it pauses and clears `isPlaying` without a request |
| `PlaybackProperties.DoubleClickPauses` | static/script.js:217-227 | two clicks on the play button of a paused element before any settlement issue one request and leave the element paused and not playing |
| `PlaybackProperties.OnlySuccessStartsPlaying` | static/script.js:204-206 | no event other than a successful play request turns `isPlaying` on |
| `PlaybackProperties.SuccessStartsPlaying` | static/script.js:204-213 | a successful request leaves the player playing and the element unpaused; a rejected one leaves `isPlaying` as it was |
| `PlaybackProperties.PlaylistProjection` | static/script.js:142-173 | the playlist has one row per track in order with exactly the current one active, or just the notice row for an empty list |
| `PlaybackProperties.InitializeLoadsFirstTrack` | static/script.js:86-96 | a non-empty list makes track 0 current, builds its rows with row 0 alone active and loads it without playing; an empty list changes nothing |
| `PlaybackProperties.RowClickSelects` | static/script.js:165-169 | clicking any row selects that track and requests play once; a truthy name is loaded (time "0:00", progress 0, that row alone active), an empty one leaves source, rows and display as they were |
| `PlaybackProperties.ThreeTrackSession` | static/script.js:86-96 | with ["a","b","c"], start-up leaves track 0 current with its row active among three; clicking row 2 selects it, shows "0:00" and issues one play request |
| `PlaybackProperties.EmptyNameKeepsOldHighlight` | static/script.js:176-180 | with ["a",""], "next" makes track 1 current and requests play while `src` and the active row stay on track 0 |
| `Player.MusicPlayer.constructor` | static/script.js:22-26 | a new player has no tracks, index 0, is neither playing nor looping, and satisfies the invariant |
| `Player.MusicPlayer.Initialize` | static/script.js:86-96 | stores the fetched list and performs the start-up rule, keeping the invariant |
| `Player.MusicPlayer.BuildPlaylist` | static/script.js:142-173 | the loop leaves the rows equal to the playlist projection of the list and the current index |
| `Player.MusicPlayer.LoadTrack` | static/script.js:176-198 | performs `loadTrack` in place, including its guard, keeping the invariant |
| `Player.MusicPlayer.PlayTrack` | static/script.js:201-204 | records one more (pending) play request and unpauses the element, nothing else |
| `Player.MusicPlayer.PlaySucceeded` | static/script.js:205-210 | settles one pending request: `isPlaying` on, element unpaused |
| `Player.MusicPlayer.PlayFailed` | static/script.js:211-213 | settles one pending request and changes nothing else |
| `Player.MusicPlayer.TogglePlay` | static/script.js:217-227 | performs `togglePlay` on the element's own paused attribute |
| `Player.MusicPlayer.ToggleLoop` | static/script.js:230-234 | performs `toggleLoop`, keeping `loop` and the button equal to `isLooping` |
| `Player.MusicPlayer.PlayNext` | static/script.js:252-258 | performs `playNext` with JavaScript's `%`, keeping the index in range |
| `Player.MusicPlayer.PlayPrev` | static/script.js:261-267 | performs `playPrev` with JavaScript's `%`, keeping the index in range |
| `Player.MusicPlayer.HandleTrackEnded` | static/script.js:270-280 | performs `handleTrackEnded` |
| `Player.MusicPlayer.SelectRow` | static/script.js:165-169 | performs the row click: set the index, load, request play |
| `Player.MusicPlayer.HighlightActiveTrack` | static/script.js:283-291 | the loop over the rows leaves exactly row `index` active and every other field as it was |
| `Player.MusicPlayer.Handle` | static/script.js:103-117 | dispatches each user or element event to its handler, performing `Playback.Apply` and never changing the list |

## Left out

- DOM lookup, `validateDomElements` and the start-up error banner: they only check that page elements exist.
- Icon `display` toggling and the visualizer bars' animation state: presentation only.
- `loadTracks` (`fetch('/tunes')` and JSON decoding): the fetched list is the argument of `Initialize`; a failed fetch arrives as `[]`.
- `updateProgress`, `setProgress` and the `loadedmetadata` duration display: they compute on the element's floating-point `currentTime` and `duration`.
- `formatTime` on fractional, negative or infinite seconds (the floating-point behaviour of `Math.floor` and `%`), and on whole seconds of 2^53 and above, where a double no longer holds every whole number and `time / 60` can round up to the next minute (67553994410557496 s shows minute 1125899906842625, the model 1125899906842624); the exponent notation `toString` uses from 10^21 minutes lies beyond that.
- The internals of `encodeURIComponent`: it is an arbitrary function supplied to the player.
- Console logging of errors and warnings.
- The event loop: which pending play request a settlement belongs to, and the HTML rule that `load()` and `pause()` reject pending play promises, are not modelled; any pending request may settle either way at any later time, so the model admits runs the page cannot show, such as two clicks on the play button followed by a success that leaves the element playing.
- PlayTrack: every request is taken as admitted by the element, which clears `paused` at once; a request the browser refuses outright (autoplay policy, `NotAllowedError`) leaves the element paused, and `PlayFailed` does not restore `paused`, so in that case `togglePlay`'s next click is modelled as a pause where the browser would request again.
- Changes the platform makes to the element on its own (its `paused` attribute at the natural end of a track, user interruptions): `paused` changes only through the modelled handlers.
- `src/main.rs`: the actix-web server, whose `/tunes` listing is directory I/O and whose other routes serve files.
