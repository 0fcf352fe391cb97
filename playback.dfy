/**
 * Playback bookkeeping: the service keeps its own flags, the id of the
 * recording being played and a saved position beside the platform player.
 * The player is modelled by the three facts the service reads from it;
 * whether the file exists and whether the player prepares are inputs.
 */
module Playback {
  import opened Util

  /** What the service reads from the platform player. */
  datatype Player = Player(playing: bool, position: int, duration: int)

  /** The service's five fields as one value. */
  datatype PlaybackState = PlaybackState(
    mediaPlayer: Option<Player>,
    currentlyPlayingId: Option<string>,
    playbackPosition: int,
    isPlaying: bool,
    isPaused: bool
  )

  /** What `cleanup` leaves behind. */
  const Idle: PlaybackState := PlaybackState(None, None, 0, false, false)

  /**
   * The flags are never both set; without a player everything is reset; with
   * one, `isPlaying` agrees with the player and an id is recorded.
   */
  predicate Consistent(s: PlaybackState) {
    && !(s.isPlaying && s.isPaused)
    && (s.mediaPlayer.None? ==> s == Idle)
    && (s.mediaPlayer.Some? ==> s.isPlaying == s.mediaPlayer.value.playing && s.currentlyPlayingId.Some?)
  }

  /** `playAudio` stops first, so the old state does not matter. */
  function AfterPlay(recordingId: string, fileExists: bool, prepares: bool, duration: int): PlaybackState {
    if fileExists && prepares then PlaybackState(Some(Player(true, 0, duration)), Some(recordingId), 0, true, false)
    else Idle
  }

  /** `pausePlayback`: acts only on a playing player, and saves its position. */
  function AfterPause(s: PlaybackState): PlaybackState {
    match s.mediaPlayer
    case Some(p) =>
      if p.playing then s.(mediaPlayer := Some(p.(playing := false)), playbackPosition := p.position,
                           isPlaying := false, isPaused := true)
      else s
    case None => s
  }

  /** `resumePlayback`: acts only when paused, seeking to the saved position before starting. */
  function AfterResume(s: PlaybackState): PlaybackState {
    match s.mediaPlayer
    case Some(p) =>
      if s.isPaused then s.(mediaPlayer := Some(p.(position := s.playbackPosition, playing := true)),
                            isPlaying := true, isPaused := false)
      else s
    case None => s
  }

  /** `seekTo`: moves the player and the saved position, when there is a player. */
  function AfterSeek(s: PlaybackState, position: int): PlaybackState {
    match s.mediaPlayer
    case Some(p) => s.(mediaPlayer := Some(p.(position := position)), playbackPosition := position)
    case None => s
  }

  /** `getCurrentPosition` / `getDuration`: 0 without a player. */
  function PositionOf(s: PlaybackState): int {
    if s.mediaPlayer.Some? then s.mediaPlayer.value.position else 0
  }

  function DurationOf(s: PlaybackState): int {
    if s.mediaPlayer.Some? then s.mediaPlayer.value.duration else 0
  }

  class AudioPlaybackService {
    var mediaPlayer: Option<Player>
    var currentlyPlayingId: Option<string>
    var playbackPosition: int
    var isPlaying: bool
    var isPaused: bool

    function State(): PlaybackState
      reads this
    {
      PlaybackState(mediaPlayer, currentlyPlayingId, playbackPosition, isPlaying, isPaused)
    }

    ghost predicate Valid()
      reads this
    {
      Consistent(State())
    }

    constructor ()
      ensures Valid() && State() == Idle
    {
      mediaPlayer := None;
      currentlyPlayingId := None;
      playbackPosition := 0;
      isPlaying := false;
      isPaused := false;
    }

    /**
     * `playAudio`: stop whatever plays, then start the file when it exists
     * (`existing` is the set of files on disk) and the player prepares.
     */
    method PlayAudio(audioFilePath: string, recordingId: string, existing: set<string>, prepares: bool, duration: int)
      returns (ok: bool)
      requires Valid()
      modifies this
      ensures Valid()
      ensures ok == (audioFilePath in existing && prepares)
      ensures State() == AfterPlay(recordingId, audioFilePath in existing, prepares, duration)
    {
      StopPlayback();
      if audioFilePath !in existing {
        return false;
      }
      if !prepares {
        Cleanup();
        return false;
      }
      mediaPlayer := Some(Player(true, 0, duration));
      isPlaying := true;
      isPaused := false;
      currentlyPlayingId := Some(recordingId);
      playbackPosition := 0;
      ok := true;
    }

    method PausePlayback()
      requires Valid()
      modifies this
      ensures Valid() && State() == AfterPause(old(State()))
    {
      if mediaPlayer.Some? {
        var player := mediaPlayer.value;
        if player.playing {
          mediaPlayer := Some(player.(playing := false));
          playbackPosition := player.position;
          isPlaying := false;
          isPaused := true;
        }
      }
    }

    method ResumePlayback()
      requires Valid()
      modifies this
      ensures Valid() && State() == AfterResume(old(State()))
    {
      if mediaPlayer.Some? {
        var player := mediaPlayer.value;
        if isPaused {
          mediaPlayer := Some(player.(position := playbackPosition).(playing := true));
          isPlaying := true;
          isPaused := false;
        }
      }
    }

    /** `stopPlayback`: whatever the state, it ends idle. */
    method StopPlayback()
      modifies this
      ensures Valid() && State() == Idle
    {
      if mediaPlayer.Some? && (mediaPlayer.value.playing || isPaused) {
        mediaPlayer := Some(mediaPlayer.value.(playing := false));
      }
      Cleanup();
    }

    method SeekTo(position: int)
      requires Valid()
      modifies this
      ensures Valid() && State() == AfterSeek(old(State()), position)
    {
      if mediaPlayer.Some? {
        mediaPlayer := Some(mediaPlayer.value.(position := position));
        playbackPosition := position;
      }
    }

    function GetCurrentPosition(): (r: int)
      reads this
      ensures mediaPlayer.None? ==> r == 0
      ensures r == PositionOf(State())
    {
      match mediaPlayer
      case Some(p) => p.position
      case None => 0
    }

    function GetDuration(): (r: int)
      reads this
      ensures mediaPlayer.None? ==> r == 0
      ensures r == DurationOf(State())
    {
      match mediaPlayer
      case Some(p) => p.duration
      case None => 0
    }

    /** `isPlaying()`: in a consistent state, the flag is whether the player is playing. */
    function IsPlaying(): (b: bool)
      reads this
      ensures Consistent(State()) ==> (b <==> mediaPlayer.Some? && mediaPlayer.value.playing)
    {
      isPlaying
    }

    /** `isPaused()`: in a consistent state, a paused service holds a player and is not playing. */
    function IsPaused(): (b: bool)
      reads this
      ensures Consistent(State()) && b ==> mediaPlayer.Some? && !isPlaying
    {
      isPaused
    }

    /** `getCurrentlyPlayingId()`: in a consistent state, an id is recorded exactly while there is a player. */
    function GetCurrentlyPlayingId(): (id: Option<string>)
      reads this
      ensures Consistent(State()) ==> (id.Some? <==> mediaPlayer.Some?)
    {
      currentlyPlayingId
    }

    /** `cleanup`: release the player and reset every field. */
    method Cleanup()
      modifies this
      ensures Valid() && State() == Idle
    {
      mediaPlayer := None;
      currentlyPlayingId := None;
      playbackPosition := 0;
      isPlaying := false;
      isPaused := false;
    }

    method Release()
      modifies this
      ensures Valid() && State() == Idle
    {
      Cleanup();
    }
  }

  /** Every operation keeps the state consistent; in particular the two flags are never both set. */
  lemma TransitionsKeepConsistent(s: PlaybackState, position: int)
    requires Consistent(s)
    ensures Consistent(AfterPause(s)) && Consistent(AfterResume(s)) && Consistent(AfterSeek(s, position))
    ensures forall id, e, p, d :: Consistent(AfterPlay(id, e, p, d))
    ensures !(AfterPause(s).isPlaying && AfterPause(s).isPaused)
  {
  }

  /**
   * Pausing a playing player and resuming it plays on from the position the
   * pause read, with every other field as before.
   */
  lemma PauseThenResume(s: PlaybackState)
    requires Consistent(s) && s.isPlaying
    ensures AfterResume(AfterPause(s)) == s.(playbackPosition := PositionOf(s))
    ensures PositionOf(AfterResume(AfterPause(s))) == PositionOf(s)
  {
  }

  /** Pause and resume do nothing the second time. */
  lemma PauseResumeIdempotent(s: PlaybackState)
    requires Consistent(s)
    ensures AfterPause(AfterPause(s)) == AfterPause(s)
    ensures AfterResume(AfterResume(s)) == AfterResume(s)
  {
  }

  /** Seeking with a player moves both the reported and the saved position; without one it is ignored. */
  lemma SeekMovesPosition(s: PlaybackState, position: int)
    ensures s.mediaPlayer.Some? ==> PositionOf(AfterSeek(s, position)) == position
                                    && AfterSeek(s, position).playbackPosition == position
    ensures s.mediaPlayer.None? ==> AfterSeek(s, position) == s
  {
  }

  /** A start that fails, for a missing file or a player that does not prepare, leaves nothing playing. */
  lemma FailedPlayIsIdle(id: string, fileExists: bool, prepares: bool, duration: int)
    ensures !(fileExists && prepares) ==> AfterPlay(id, fileExists, prepares, duration) == Idle
    ensures fileExists && prepares ==>
      var s := AfterPlay(id, fileExists, prepares, duration);
      s.isPlaying && !s.isPaused && s.currentlyPlayingId == Some(id) && s.playbackPosition == 0
      && PositionOf(s) == 0 && DurationOf(s) == duration
  {
  }
}
