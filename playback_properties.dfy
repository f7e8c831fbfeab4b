/** What the handlers of `MusicPlayer` promise, stated over the Playback transitions. */
module PlaybackProperties {
  import opened TimeFormat
  import opened Navigation
  import opened Playback

  // ----- The index invariant -----

  /**
   * The main invariant of a whole session: whatever the user does before the
   * list arrives, whatever list arrives, and whatever happens afterwards, the
   * index stays within a non-empty list and the element loops exactly when
   * the player does.
   */
  lemma SessionKeepsIndexInRange(
    enc: string -> string, before: seq<Event>, loaded: seq<string>, after: seq<Event>)
    ensures var s := Run(enc, Initialize(enc, Run(enc, Initial(), before), loaded), after);
      && s.tracks == loaded
      && (|loaded| > 0 ==> 0 <= s.currentTrackIndex < |loaded|)
      && s.loop == s.isLooping
  {
  }

  // ----- loadTrack -----

  /** With no truthy name at `index` (out of range, or ""), loading changes nothing. */
  lemma LoadTrackRejects(enc: string -> string, s: PlayerState, index: int)
    requires !(0 <= index < |s.tracks|) || s.tracks[index] == ""
    ensures LoadTrack(enc, s, index) == s
  {
  }

  /**
   * A successful load points the element at `/tunes/` plus the encoded name,
   * stops playing, resets the progress display to zero, marks exactly row
   * `index` active, and leaves the list, the index, the loop setting and the
   * play requests as they were.
   */
  lemma LoadTrackLoads(enc: string -> string, s: PlayerState, index: int)
    requires 0 <= index < |s.tracks| && s.tracks[index] != ""
    ensures var r := LoadTrack(enc, s, index);
      && r.src == TUNES_PREFIX + enc(s.tracks[index])
      && !r.isPlaying && r.paused
      && r.progress == 0 && r.timeText == FormatTime(Seconds(0))
      && |r.rows| == |s.rows|
      && (forall j :: 0 <= j < |r.rows| ==> (r.rows[j].active <==> j == index))
      && (forall j :: 0 <= j < |r.rows| ==> r.rows[j].text == s.rows[j].text)
      && r.tracks == s.tracks && r.currentTrackIndex == s.currentTrackIndex
      && r.isLooping == s.isLooping && r.loop == s.loop
      && r.playRequests == s.playRequests && r.pendingPlays == s.pendingPlays
  {
    NotANumberLooksLikeZero();
  }

  // ----- playNext, playPrev -----

  /**
   * "Next" on a non-empty list moves to the following track, from the last to
   * the first, and asks to play once. The new track is loaded when its name is
   * truthy; when it is "" the index still moves and play is still requested,
   * but the source, the rows and the playing flag stay as they were.
   */
  lemma PlayNextAdvances(enc: string -> string, s: PlayerState)
    requires Inv(s) && |s.tracks| > 0
    ensures var r := PlayNext(enc, s);
      var i, n := s.currentTrackIndex, |s.tracks|;
      && !r.paused
      && r.currentTrackIndex == (if i == n - 1 then 0 else i + 1)
      && r.playRequests == s.playRequests + 1 && r.pendingPlays == s.pendingPlays + 1
      && (s.tracks[r.currentTrackIndex] != "" ==>
            r.src == TUNES_PREFIX + enc(s.tracks[r.currentTrackIndex]) && !r.isPlaying
            && r.rows == Highlight(s.rows, r.currentTrackIndex)
            && r.progress == 0 && r.timeText == ZERO_TIME)
      && (s.tracks[r.currentTrackIndex] == "" ==>
            r.src == s.src && r.rows == s.rows && r.isPlaying == s.isPlaying
            && r.progress == s.progress && r.timeText == s.timeText)
  {
  }

  /** "Previous" mirrors "next": from the first track it goes to the last. */
  lemma PlayPrevRetreats(enc: string -> string, s: PlayerState)
    requires Inv(s) && |s.tracks| > 0
    ensures var r := PlayPrev(enc, s);
      var i, n := s.currentTrackIndex, |s.tracks|;
      && !r.paused
      && r.currentTrackIndex == (if i == 0 then n - 1 else i - 1)
      && r.playRequests == s.playRequests + 1 && r.pendingPlays == s.pendingPlays + 1
      && (s.tracks[r.currentTrackIndex] != "" ==>
            r.src == TUNES_PREFIX + enc(s.tracks[r.currentTrackIndex]) && !r.isPlaying
            && r.rows == Highlight(s.rows, r.currentTrackIndex)
            && r.progress == 0 && r.timeText == ZERO_TIME)
      && (s.tracks[r.currentTrackIndex] == "" ==>
            r.src == s.src && r.rows == s.rows && r.isPlaying == s.isPlaying
            && r.progress == s.progress && r.timeText == s.timeText)
  {
  }

  /** "Previous" then "next" (or the other way round) returns to the same track. */
  lemma PrevNextRestoreIndex(enc: string -> string, s: PlayerState)
    requires Inv(s) && |s.tracks| > 0
    ensures PlayNext(enc, PlayPrev(enc, s)).currentTrackIndex == s.currentTrackIndex
    ensures PlayPrev(enc, PlayNext(enc, s)).currentTrackIndex == s.currentTrackIndex
  {
    NextPrevInverse(s.currentTrackIndex, |s.tracks|);
  }

  /** On an empty list the navigation handlers and the end-of-track handler change nothing. */
  lemma EmptyListIsInert(enc: string -> string, s: PlayerState)
    requires s.tracks == []
    ensures PlayNext(enc, s) == s && PlayPrev(enc, s) == s
    ensures HandleTrackEnded(enc, s).currentTrackIndex == s.currentTrackIndex
    ensures HandleTrackEnded(enc, s).playRequests == s.playRequests
  {
  }

  /** `k` "next" clicks. */
  function NextClicks(k: nat): (events: seq<Event>)
    ensures |events| == k && forall j :: 0 <= j < k ==> events[j] == NextClicked
  {
    seq(k, _ => NextClicked)
  }

  /** Each "next" click moves the index exactly as Navigation.NextTimes counts. */
  lemma {:induction false} NextClicksIndex(enc: string -> string, s: PlayerState, k: nat)
    requires Inv(s) && |s.tracks| > 0
    ensures Run(enc, s, NextClicks(k)).currentTrackIndex
         == NextTimes(s.currentTrackIndex, |s.tracks|, k)
    decreases k
  {
    if k > 0 {
      var s1 := Apply(enc, s, NextClicked);
      assert NextClicks(k)[1..] == NextClicks(k - 1);
      NextClicksIndex(enc, s1, k - 1);
    }
  }

  /** Clicking "next" once per track comes back to the track one started from. */
  lemma NextAroundTheList(enc: string -> string, s: PlayerState)
    requires Inv(s) && |s.tracks| > 0
    ensures Run(enc, s, NextClicks(|s.tracks|)).currentTrackIndex == s.currentTrackIndex
  {
    NextClicksIndex(enc, s, |s.tracks|);
    NextCycle(s.currentTrackIndex, |s.tracks|);
  }

  // ----- handleTrackEnded -----

  /** While looping, the end of a track changes nothing (the element repeats it). */
  lemma TrackEndedWhileLooping(enc: string -> string, s: PlayerState)
    requires s.isLooping
    ensures HandleTrackEnded(enc, s) == s
  {
  }

  /**
   * Otherwise the end of a track stops playing and then does exactly what
   * "next" does: the index advances with wrap-around and play is requested.
   */
  lemma TrackEndedAdvances(enc: string -> string, s: PlayerState)
    requires Inv(s) && !s.isLooping && |s.tracks| > 0
    ensures var r := HandleTrackEnded(enc, s);
      && r == PlayNext(enc, s.(isPlaying := false))
      && r.currentTrackIndex == NextIndex(s.currentTrackIndex, |s.tracks|)
      && r.playRequests == s.playRequests + 1
      && !r.isPlaying
  {
  }

  /** On a three-track list the end of the last track moves to the first. */
  lemma TrackEndedWrapsOnThree(enc: string -> string, s: PlayerState)
    requires !s.isLooping && |s.tracks| == 3 && s.currentTrackIndex == 2
    ensures HandleTrackEnded(enc, s).currentTrackIndex == 0
    ensures HandleTrackEnded(enc, s).playRequests == s.playRequests + 1
  {
  }

  // ----- toggleLoop, togglePlay, play outcomes -----

  /** Toggling loop negates it and sets the element to match; twice restores everything. */
  lemma ToggleLoopInvolution(s: PlayerState)
    ensures ToggleLoop(s).isLooping == !s.isLooping
    ensures ToggleLoop(s).loop == ToggleLoop(s).isLooping
    ensures ToggleLoop(ToggleLoop(s)) == s.(loop := s.isLooping, loopButtonActive := s.isLooping)
    ensures Inv(s) ==> ToggleLoop(ToggleLoop(s)) == s
  {
  }

  /**
   * The play button reads the element's own paused attribute, not the cached
   * flag: on a paused element it only requests play (the flag waits for the
   * outcome); on a playing one it pauses and clears the flag.
   */
  lemma TogglePlayOutcomes(s: PlayerState)
    ensures s.paused ==> TogglePlay(s) == PlayTrack(s) && TogglePlay(s).isPlaying == s.isPlaying
    ensures !s.paused ==> TogglePlay(s).paused && !TogglePlay(s).isPlaying
                          && TogglePlay(s).playRequests == s.playRequests
  {
  }

  /**
   * Two clicks on the play button before the first request settles: the
   * first request unpaused the element, so the second click pauses it again
   * instead of issuing another request.
   */
  lemma DoubleClickPauses(enc: string -> string, s: PlayerState)
    requires s.paused
    ensures var r := Apply(enc, Apply(enc, s, PlayClicked), PlayClicked);
      && r.paused && !r.isPlaying
      && r.playRequests == s.playRequests + 1 && r.pendingPlays == s.pendingPlays + 1
  {
  }

  /** `isPlaying` turns true only when a play request succeeds. */
  lemma OnlySuccessStartsPlaying(enc: string -> string, s: PlayerState, e: Event)
    requires !s.isPlaying && e != PlayResolved
    ensures !Apply(enc, s, e).isPlaying
  {
  }

  /** A successful request leaves the player playing and the element unpaused. */
  lemma SuccessStartsPlaying(enc: string -> string, s: PlayerState)
    requires s.pendingPlays > 0
    ensures Apply(enc, s, PlayResolved).isPlaying && !Apply(enc, s, PlayResolved).paused
    ensures Apply(enc, s, PlayRejected).isPlaying == s.isPlaying
  {
  }

  // ----- buildPlaylist, initialize, row clicks -----

  /**
   * The playlist shows one row per track, in order, with exactly the current
   * track active; an empty list shows only the notice row.
   */
  lemma PlaylistProjection(s: PlayerState)
    ensures var rows := BuildPlaylist(s).rows;
      && (|s.tracks| == 0 ==> rows == [Row(EmptyNotice, EMPTY_NOTICE, false)])
      && (|s.tracks| > 0 ==>
            && |rows| == |s.tracks|
            && (forall j :: 0 <= j < |rows| ==> rows[j].kind == TrackItem && rows[j].text == s.tracks[j])
            && (forall j :: 0 <= j < |rows| ==> (rows[j].active <==> j == s.currentTrackIndex)))
  {
  }

  /**
   * When the list arrives non-empty, track 0 becomes current and its row the
   * only active one; it is loaded (when its name is truthy) but not played.
   * An empty list leaves the player as it was, without even a notice row.
   */
  lemma InitializeLoadsFirstTrack(enc: string -> string, s: PlayerState, loaded: seq<string>)
    requires Inv(s) && s.tracks == []
    ensures var r := Initialize(enc, s, loaded);
      && (|loaded| == 0 ==> r == s)
      && (|loaded| > 0 ==>
            && r.currentTrackIndex == 0
            && |r.rows| == |loaded|
            && (forall j :: 0 <= j < |loaded| ==> r.rows[j].text == loaded[j])
            && (forall j :: 0 <= j < |loaded| ==> (r.rows[j].active <==> j == 0))
            && (loaded[0] != "" ==> r.src == TUNES_PREFIX + enc(loaded[0]) && !r.isPlaying)
            && r.playRequests == s.playRequests)
  {
  }

  /**
   * A click on row `index` selects that track and requests play once. When its
   * name is truthy the track is loaded (resetting the elapsed time and the
   * highlight); when it is "" the index still moves and play is still
   * requested, but the source, the rows and the display stay as they were.
   */
  lemma RowClickSelects(enc: string -> string, s: PlayerState, index: int)
    requires Inv(s) && 0 <= index < |s.tracks|
    ensures var r := Apply(enc, s, RowClicked(index));
      && r.currentTrackIndex == index
      && r.playRequests == s.playRequests + 1 && r.pendingPlays == s.pendingPlays + 1
      && !r.paused
      && (s.tracks[index] != "" ==>
            && r.src == TUNES_PREFIX + enc(s.tracks[index])
            && r.timeText == ZERO_TIME && r.progress == 0
            && (forall j :: 0 <= j < |r.rows| ==> (r.rows[j].active <==> j == index)))
      && (s.tracks[index] == "" ==>
            && r.src == s.src && r.rows == s.rows
            && r.timeText == s.timeText && r.progress == s.progress)
  {
  }

  /**
   * The list ["a", "b", "c"] arrives: track 0 is current with its row active
   * among three; a click on row 2 selects it, resets the elapsed time and
   * issues the first play request.
   */
  lemma ThreeTrackSession(enc: string -> string)
    ensures var s := Initialize(enc, Initial(), ["a", "b", "c"]);
      var t := Apply(enc, s, RowClicked(2));
      && s.currentTrackIndex == 0 && |s.rows| == 3
      && s.rows[0].active && !s.rows[1].active && !s.rows[2].active
      && t.currentTrackIndex == 2 && t.timeText == "0:00" && t.playRequests == 1
      && !t.rows[0].active && !t.rows[1].active && t.rows[2].active
  {
    var s := Initialize(enc, Initial(), ["a", "b", "c"]);
    InitializeLoadsFirstTrack(enc, Initial(), ["a", "b", "c"]);
    RowClickSelects(enc, s, 2);
  }

  /**
   * The empty-name behaviour of "next": with ["a", ""], after start-up "next"
   * makes track 1 current and requests play, yet the element keeps track 0's
   * source and row 0 stays the highlighted one.
   */
  lemma EmptyNameKeepsOldHighlight(enc: string -> string)
    ensures var s := Initialize(enc, Initial(), ["a", ""]);
      var t := PlayNext(enc, s);
      && t.currentTrackIndex == 1 && t.playRequests == 1
      && t.src == s.src == TUNES_PREFIX + enc("a")
      && t.rows[0].active && !t.rows[1].active
  {
    var s := Initialize(enc, Initial(), ["a", ""]);
    InitializeLoadsFirstTrack(enc, Initial(), ["a", ""]);
    PlayNextAdvances(enc, s);
  }
}
