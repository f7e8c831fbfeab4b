/** A client of the Player class: what a caller can conclude from the method contracts alone. */
module Scenarios {
  import opened Playback
  import opened PlaybackProperties
  import opened Player

  /**
   * A page session: "next" is clicked before the list arrives, then
   * ["a", "b", "c"] arrives, row 2 is clicked, its play request succeeds, the
   * track ends, and the player moves on to track 0.
   */
  method ThreeTrackPage(enc: string -> string) {
    var player := new MusicPlayer(enc);
    player.PlayNext();
    assert player.State() == Initial();

    player.Initialize(["a", "b", "c"]);
    InitializeLoadsFirstTrack(enc, Initial(), ["a", "b", "c"]);
    assert player.currentTrackIndex == 0 && player.rows[0].active && !player.rows[2].active;
    assert player.playRequests == 0;

    ghost var before := player.State();
    player.SelectRow(2);
    RowClickSelects(enc, before, 2);
    assert player.currentTrackIndex == 2 && player.timeText == "0:00" && player.playRequests == 1;

    player.PlaySucceeded();
    assert player.isPlaying && !player.paused;

    before := player.State();
    player.HandleTrackEnded();
    TrackEndedWrapsOnThree(enc, before);
    assert player.currentTrackIndex == 0 && player.playRequests == 2 && !player.isPlaying;
  }
}
