/**
 * The playback state machine of `MusicPlayer` (static/script.js) as values:
 * one record for the player's state, the audio element's fields and the
 * display, and one function per handler giving the state after it runs.
 * The class in module Player executes these transitions in place; the lemmas
 * here state what each handler promises.
 */
module Playback {
  import opened Navigation

  /** The path under which the server serves each track file. */
  const TUNES_PREFIX := "/tunes/"

  /** The single row shown when there are no tracks. */
  const EMPTY_NOTICE := "No tracks available"

  /** The elapsed-time text after a track is loaded. */
  const ZERO_TIME := "0:00"

  /** A playlist row: a track (`playlist-item`) or the empty-list notice (`playlist-item empty`). */
  datatype RowKind = TrackItem | EmptyNotice

  /** A `<li>` of the playlist: its kind, its text and its `active` class. */
  datatype Row = Row(kind: RowKind, text: string, active: bool)

  datatype PlayerState = PlayerState(
    // the player's own fields
    tracks: seq<string>,
    currentTrackIndex: int,
    isPlaying: bool,
    isLooping: bool,
    // the audio element: its source, loop and paused attributes, and the
    // play requests issued to it (all of them, and those not yet settled)
    src: string,
    loop: bool,
    paused: bool,
    playRequests: nat,
    pendingPlays: nat,
    // the display: progress bar value, elapsed-time text, playlist rows and
    // the loop button's `active` class
    progress: int,
    timeText: string,
    rows: seq<Row>,
    loopButtonActive: bool)

  /**
   * The state right after the constructor, before the track list has arrived:
   * no tracks, index 0, neither playing nor looping, a paused element without
   * a source. The page's initial progress and time text are taken as 0 and "0:00".
   */
  function Initial(): PlayerState {
    PlayerState([], 0, false, false, "", false, true, 0, 0, 0, ZERO_TIME, [], false)
  }

  /**
   * The player's invariant: on a non-empty list the index is a valid track;
   * before any track exists it is still 0; the element's loop attribute and the
   * loop button both mirror `isLooping`; no more requests are pending than were issued.
   */
  predicate Inv(s: PlayerState)
    ensures Inv(s) ==> 0 <= s.currentTrackIndex
    ensures Inv(s) && |s.tracks| > 0 ==>
      && 0 <= NextIndex(s.currentTrackIndex, |s.tracks|) < |s.tracks|
      && 0 <= PrevIndex(s.currentTrackIndex, |s.tracks|) < |s.tracks|
  {
    && (|s.tracks| > 0 ==> 0 <= s.currentTrackIndex < |s.tracks|)
    && (s.tracks == [] ==> s.currentTrackIndex == 0)
    && s.loop == s.isLooping
    && s.loopButtonActive == s.isLooping
    && s.pendingPlays <= s.playRequests
  }

  /** The guard of `loadTrack`: a truthy name stands at `index` (not missing, not ""). */
  predicate Loadable(tracks: seq<string>, index: int) {
    0 <= index < |tracks| && tracks[index] != ""
  }

  /** `highlightActiveTrack(index)`: the row at `index` gets `active`, every other row loses it. */
  function Highlight(rows: seq<Row>, index: int): (r: seq<Row>)
    ensures |r| == |rows|
    ensures forall j :: 0 <= j < |r| ==> r[j].kind == rows[j].kind && r[j].text == rows[j].text
    ensures forall j :: 0 <= j < |r| ==> (r[j].active <==> j == index)
  {
    seq(|rows|, j requires 0 <= j < |rows| => rows[j].(active := j == index))
  }

  /** The rows `buildPlaylist` creates for a non-empty list. */
  function TrackRows(tracks: seq<string>, current: int): seq<Row> {
    seq(|tracks|, j requires 0 <= j < |tracks| => Row(TrackItem, tracks[j], j == current))
  }

  /** `buildPlaylist()`: the notice row for an empty list, one row per track otherwise. */
  function PlaylistRows(tracks: seq<string>, current: int): seq<Row> {
    if |tracks| == 0 then [Row(EmptyNotice, EMPTY_NOTICE, false)] else TrackRows(tracks, current)
  }

  function BuildPlaylist(s: PlayerState): (r: PlayerState)
    ensures r.tracks == s.tracks && (Inv(s) ==> Inv(r))
    ensures |r.rows| == if |s.tracks| == 0 then 1 else |s.tracks|
  {
    s.(rows := PlaylistRows(s.tracks, s.currentTrackIndex))
  }

  /**
   * `loadTrack(index)`: when a truthy name stands at `index`, point the element
   * at its address and reload it, stop playing, highlight its row and reset the
   * progress display; otherwise change nothing.
   */
  function LoadTrack(enc: string -> string, s: PlayerState, index: int): (r: PlayerState)
    ensures r.tracks == s.tracks && r.currentTrackIndex == s.currentTrackIndex
    ensures Inv(s) ==> Inv(r)
  {
    if !Loadable(s.tracks, index) then s
    else s.(src := TUNES_PREFIX + enc(s.tracks[index]), paused := true, isPlaying := false,
            rows := Highlight(s.rows, index), progress := 0, timeText := ZERO_TIME)
  }

  /**
   * `playTrack()`: one more request to the element to play; its outcome comes
   * later. As the HTML `play()` method does for a request it admits, the
   * element stops being paused at once, before the request settles.
   */
  function PlayTrack(s: PlayerState): (r: PlayerState)
    ensures r.tracks == s.tracks && (Inv(s) ==> Inv(r))
    ensures !r.paused && r.pendingPlays > 0
  {
    s.(playRequests := s.playRequests + 1, pendingPlays := s.pendingPlays + 1, paused := false)
  }

  /** A pending play request succeeds: the element plays and the player marks itself playing. */
  function PlaySucceeded(s: PlayerState): (r: PlayerState)
    requires s.pendingPlays > 0
    ensures r.tracks == s.tracks && (Inv(s) ==> Inv(r))
    ensures r.pendingPlays == s.pendingPlays - 1
  {
    s.(pendingPlays := s.pendingPlays - 1, paused := false, isPlaying := true)
  }

  /** A pending play request is rejected: it is logged and nothing else changes. */
  function PlayFailed(s: PlayerState): (r: PlayerState)
    requires s.pendingPlays > 0
    ensures r.tracks == s.tracks && (Inv(s) ==> Inv(r))
    ensures r.pendingPlays == s.pendingPlays - 1
  {
    s.(pendingPlays := s.pendingPlays - 1)
  }

  /** `togglePlay()`: ask to play a paused element, otherwise pause it. */
  function TogglePlay(s: PlayerState): (r: PlayerState)
    ensures r.tracks == s.tracks && (Inv(s) ==> Inv(r))
    ensures r.paused != s.paused
  {
    if s.paused then PlayTrack(s) else s.(paused := true, isPlaying := false)
  }

  /** `toggleLoop()`. */
  function ToggleLoop(s: PlayerState): (r: PlayerState)
    ensures r.tracks == s.tracks && (Inv(s) ==> Inv(r))
    ensures r.isLooping != s.isLooping
  {
    s.(isLooping := !s.isLooping, loop := !s.isLooping, loopButtonActive := !s.isLooping)
  }

  /** `playNext()`: on a non-empty list, advance the index with wrap-around, load it and ask to play. */
  function PlayNext(enc: string -> string, s: PlayerState): (r: PlayerState)
    ensures r.tracks == s.tracks && (Inv(s) ==> Inv(r))
  {
    if |s.tracks| == 0 then s
    else
      var i := NextIndex(s.currentTrackIndex, |s.tracks|);
      PlayTrack(LoadTrack(enc, s.(currentTrackIndex := i), i))
  }

  /** `playPrev()`: as PlayNext, one track back. */
  function PlayPrev(enc: string -> string, s: PlayerState): (r: PlayerState)
    ensures r.tracks == s.tracks && (Inv(s) ==> Inv(r))
  {
    if |s.tracks| == 0 then s
    else
      var i := PrevIndex(s.currentTrackIndex, |s.tracks|);
      PlayTrack(LoadTrack(enc, s.(currentTrackIndex := i), i))
  }

  /** `handleTrackEnded()`: nothing while looping; otherwise stop and play the next track. */
  function HandleTrackEnded(enc: string -> string, s: PlayerState): (r: PlayerState)
    ensures r.tracks == s.tracks && (Inv(s) ==> Inv(r))
  {
    if s.isLooping then s else PlayNext(enc, s.(isPlaying := false))
  }

  /** A click on playlist row `index`: select it, load it, ask to play. */
  function SelectRow(enc: string -> string, s: PlayerState, index: int): (r: PlayerState)
    ensures r.tracks == s.tracks
    ensures Inv(s) && 0 <= index < |s.tracks| ==> Inv(r)
  {
    PlayTrack(LoadTrack(enc, s.(currentTrackIndex := index), index))
  }

  /**
   * The rest of `initialize()` once the track list has arrived: store it and,
   * only when it is non-empty, build the playlist and load track 0.
   */
  function Initialize(enc: string -> string, s: PlayerState, loaded: seq<string>): (r: PlayerState)
    ensures r.tracks == loaded
    ensures Inv(s) && s.tracks == [] ==> Inv(r)
  {
    var s1 := s.(tracks := loaded);
    if |loaded| > 0 then LoadTrack(enc, BuildPlaylist(s1), 0) else s1
  }

  /** What can happen to a running player: a click, a row click, or an event of the element. */
  datatype Event =
    | PlayClicked
    | LoopClicked
    | PrevClicked
    | NextClicked
    | RowClicked(row: int)
    | TrackEnded
    | PlayResolved
    | PlayRejected

  /**
   * The handler each event runs. A row can be clicked only when it was built
   * for a track, and a play request can settle only while one is pending; any
   * other event of those kinds cannot occur and leaves the state as it is.
   */
  function Apply(enc: string -> string, s: PlayerState, e: Event): (r: PlayerState)
    ensures r.tracks == s.tracks && (Inv(s) ==> Inv(r))
  {
    match e
    case PlayClicked => TogglePlay(s)
    case LoopClicked => ToggleLoop(s)
    case PrevClicked => PlayPrev(enc, s)
    case NextClicked => PlayNext(enc, s)
    case RowClicked(i) => if 0 <= i < |s.tracks| then SelectRow(enc, s, i) else s
    case TrackEnded => HandleTrackEnded(enc, s)
    case PlayResolved => if s.pendingPlays > 0 then PlaySucceeded(s) else s
    case PlayRejected => if s.pendingPlays > 0 then PlayFailed(s) else s
  }

  /** The state after a sequence of events, in order. */
  function Run(enc: string -> string, s: PlayerState, events: seq<Event>): (r: PlayerState)
    ensures r.tracks == s.tracks && (Inv(s) ==> Inv(r))
    decreases |events|
  {
    if events == [] then s else Run(enc, Apply(enc, s, events[0]), events[1..])
  }
}
