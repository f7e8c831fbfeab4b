/**
 * `MusicPlayer` (static/script.js) as a class whose handlers update its fields
 * in place. The audio element and the display are reduced to plain fields of
 * the player; every method is proved to perform the matching Playback
 * transition and to keep the Playback invariant.
 */
module Player {
  import opened Navigation
  import opened Playback

  class MusicPlayer {
    /** `encodeURIComponent`, which turns a track name into a path segment. */
    const encode: string -> string

    // player state
    var tracks: seq<string>
    var currentTrackIndex: int
    var isPlaying: bool
    var isLooping: bool

    // the audio element
    var src: string
    var loop: bool
    var paused: bool
    var playRequests: nat
    var pendingPlays: nat

    // the display
    var progress: int
    var timeText: string
    var rows: seq<Row>
    var loopButtonActive: bool

    /** The player's fields as a Playback state. */
    ghost function State(): PlayerState
      reads this
    {
      PlayerState(tracks, currentTrackIndex, isPlaying, isLooping,
                  src, loop, paused, playRequests, pendingPlays,
                  progress, timeText, rows, loopButtonActive)
    }

    ghost predicate Valid()
      reads this
    {
      Inv(State())
    }

    /** The player as the constructor leaves it, before the track list has been fetched. */
    constructor (encode: string -> string)
      ensures Valid() && State() == Initial() && this.encode == encode
    {
      this.encode := encode;
      tracks, currentTrackIndex, isPlaying, isLooping := [], 0, false, false;
      src, loop, paused, playRequests, pendingPlays := "", false, true, 0, 0;
      progress, timeText, rows, loopButtonActive := 0, ZERO_TIME, [], false;
    }

    /**
     * The part of `initialize()` after `await this.loadTracks()`: the fetched
     * list is stored and, only when it is non-empty, the playlist is built and
     * track 0 loaded.
     */
    method Initialize(loaded: seq<string>)
      requires Valid() && tracks == []
      modifies this
      ensures Valid() && State() == Playback.Initialize(encode, old(State()), loaded)
    {
      tracks := loaded;
      if |tracks| > 0 {
        BuildPlaylist();
        LoadTrack(0);
      }
    }

    /** `buildPlaylist()`: replace the rows by one per track, or by the empty-list notice. */
    method BuildPlaylist()
      modifies this
      ensures State() == Playback.BuildPlaylist(old(State()))
    {
      rows := [];
      if |tracks| == 0 {
        rows := rows + [Row(EmptyNotice, EMPTY_NOTICE, false)];
        return;
      }
      var index := 0;
      while index < |tracks|
        invariant 0 <= index <= |tracks|
        invariant rows == TrackRows(tracks, currentTrackIndex)[..index]
        invariant State() == old(State()).(rows := rows)
      {
        rows := rows + [Row(TrackItem, tracks[index], index == currentTrackIndex)];
        index := index + 1;
      }
    }

    /** `loadTrack(index)`. */
    method LoadTrack(index: int)
      requires Valid()
      modifies this
      ensures Valid() && State() == Playback.LoadTrack(encode, old(State()), index)
    {
      if !(0 <= index < |tracks|) || tracks[index] == "" {
        return;
      }
      var track := tracks[index];
      src := TUNES_PREFIX + encode(track);
      paused := true;  // audio.load() leaves the element paused
      isPlaying := false;
      HighlightActiveTrack(index);
      progress := 0;
      timeText := ZERO_TIME;
    }

    /**
     * `playTrack()`: issue a play request, which unpauses the element at once;
     * PlaySucceeded or PlayFailed settles it later.
     */
    method PlayTrack()
      requires Valid()
      modifies this
      ensures Valid() && State() == Playback.PlayTrack(old(State()))
    {
      playRequests := playRequests + 1;
      pendingPlays := pendingPlays + 1;
      paused := false;
    }

    /** The fulfilment of a pending `audio.play()` promise. */
    method PlaySucceeded()
      requires Valid() && pendingPlays > 0
      modifies this
      ensures Valid() && State() == Playback.PlaySucceeded(old(State()))
    {
      pendingPlays := pendingPlays - 1;
      paused := false;
      isPlaying := true;
    }

    /** The rejection of a pending `audio.play()` promise: only logged. */
    method PlayFailed()
      requires Valid() && pendingPlays > 0
      modifies this
      ensures Valid() && State() == Playback.PlayFailed(old(State()))
    {
      pendingPlays := pendingPlays - 1;
    }

    /** `togglePlay()`. */
    method TogglePlay()
      requires Valid()
      modifies this
      ensures Valid() && State() == Playback.TogglePlay(old(State()))
    {
      if paused {
        PlayTrack();
      } else {
        paused := true;  // audio.pause()
        isPlaying := false;
      }
    }

    /** `toggleLoop()`. */
    method ToggleLoop()
      requires Valid()
      modifies this
      ensures Valid() && State() == Playback.ToggleLoop(old(State()))
    {
      isLooping := !isLooping;
      loop := isLooping;
      loopButtonActive := isLooping;
    }

    /** `playNext()`. */
    method PlayNext()
      requires Valid()
      modifies this
      ensures Valid() && State() == Playback.PlayNext(encode, old(State()))
    {
      if |tracks| == 0 {
        return;
      }
      currentTrackIndex := JsRemainder(currentTrackIndex + 1, |tracks|);
      LoadTrack(currentTrackIndex);
      PlayTrack();
    }

    /** `playPrev()`. */
    method PlayPrev()
      requires Valid()
      modifies this
      ensures Valid() && State() == Playback.PlayPrev(encode, old(State()))
    {
      if |tracks| == 0 {
        return;
      }
      currentTrackIndex := JsRemainder(currentTrackIndex - 1 + |tracks|, |tracks|);
      LoadTrack(currentTrackIndex);
      PlayTrack();
    }

    /** `handleTrackEnded()`. */
    method HandleTrackEnded()
      requires Valid()
      modifies this
      ensures Valid() && State() == Playback.HandleTrackEnded(encode, old(State()))
    {
      if isLooping {
        return;
      }
      isPlaying := false;
      PlayNext();
    }

    /** The click listener of playlist row `index`, which exists for each track. */
    method SelectRow(index: int)
      requires Valid() && 0 <= index < |tracks|
      modifies this
      ensures Valid() && State() == Playback.SelectRow(encode, old(State()), index)
    {
      currentTrackIndex := index;
      LoadTrack(index);
      PlayTrack();
    }

    /** `highlightActiveTrack(index)`: set or clear `active` on each row in turn. */
    method HighlightActiveTrack(index: int)
      modifies this
      ensures State() == old(State()).(rows := Highlight(old(rows), index))
    {
      var i := 0;
      while i < |rows|
        invariant 0 <= i <= |rows| == |old(rows)|
        invariant forall j :: 0 <= j < i ==> rows[j] == old(rows)[j].(active := j == index)
        invariant forall j :: i <= j < |rows| ==> rows[j] == old(rows)[j]
        invariant State() == old(State()).(rows := rows)
      {
        rows := rows[i := rows[i].(active := i == index)];
        i := i + 1;
      }
    }

    /**
     * The handler for an event of the player, as one dispatch; it performs
     * exactly Playback.Apply and never changes the track list.
     */
    method Handle(e: Event)
      requires Valid()
      modifies this
      ensures Valid() && State() == Apply(encode, old(State()), e) && tracks == old(tracks)
    {
      match e
      case PlayClicked => TogglePlay();
      case LoopClicked => ToggleLoop();
      case PrevClicked => PlayPrev();
      case NextClicked => PlayNext();
      case RowClicked(i) =>
        if 0 <= i < |tracks| {
          SelectRow(i);
        }
      case TrackEnded => HandleTrackEnded();
      case PlayResolved =>
        if pendingPlays > 0 {
          PlaySucceeded();
        }
      case PlayRejected =>
        if pendingPlays > 0 {
          PlayFailed();
        }
    }
  }
}
