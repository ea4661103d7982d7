/**
 * `WindowsMediaService`: the now-playing track from the system media
 * transport controls. The session manager arrives asynchronously; once it
 * has, every change of session, playback or media properties re-reads the
 * current session. What one such read finds is a `SessionRead`; the
 * awaits are each modelled as completing within the one step, and
 * `raised` lists the `MediaChanged` events, in order.
 */
module WindowsMedia {
  import opened Text

  datatype MediaInfo = MediaInfo(title: string, artist: string, albumArt: Option<seq<bv8>>, isPlaying: bool)

  /** `GlobalSystemMediaTransportControlsSessionPlaybackStatus`. */
  datatype PlaybackStatus = Closed | Opened | Changing | Stopped | Playing | Paused

  /**
   * What `TryGetMediaPropertiesAsync` returns. `thumbnail` is the bytes
   * read from the thumbnail stream, `None` when there is no thumbnail or
   * reading it failed (those errors are ignored).
   */
  datatype MediaProperties = MediaProperties(title: Option<string>, artist: Option<string>, thumbnail: Option<seq<bv8>>)

  datatype SessionRead =
    | NoSession                                    // `GetCurrentSession()` returned null
    | ReadFailed                                   // reading the session threw
    | Read(properties: Option<MediaProperties>, playbackStatus: Option<PlaybackStatus>)  // `None`: null

  const UnknownTitle: string := "Unknown Title"
  const UnknownArtist: string := "Unknown Artist"

  /** `GetFallbackInfo()`. */
  const Fallback: MediaInfo := MediaInfo("Nothing Playing", "Start some music", None, false)

  /** The track `UpdateMediaInfo` builds from a read of the current session. */
  function InfoFor(read: SessionRead): (info: MediaInfo)
    ensures !(read.Read? && read.properties.Some? && read.playbackStatus.Some?) ==> info == Fallback
    ensures read.Read? && read.properties.Some? && read.playbackStatus.Some? ==>
      var p := read.properties.value;
      && (info.title == if p.title.Some? && p.title.value != "" then p.title.value else UnknownTitle)
      && (info.artist == if p.artist.Some? && p.artist.value != "" then p.artist.value else UnknownArtist)
      && (info.isPlaying <==> read.playbackStatus.value == Playing)
      && info.albumArt == p.thumbnail
  {
    match read
    case NoSession => Fallback
    case ReadFailed => Fallback
    case Read(properties, status) =>
      if properties.None? || status.None? then Fallback
      else
        var p := properties.value;
        MediaInfo(
          if p.title.Some? && p.title.value != "" then p.title.value else UnknownTitle,
          if p.artist.Some? && p.artist.value != "" then p.artist.value else UnknownArtist,
          p.thumbnail,
          status.value == Playing)
  }

  /** `GetCurrentMedia()`: the last track read, the fallback before any. */
  function CurrentMedia(last: Option<MediaInfo>): (r: MediaInfo)
    ensures last.Some? ==> r == last.value
    ensures last.None? ==> r == Fallback && !r.isPlaying
  {
    last.GetOr(Fallback)
  }

  /**
   * Only a session reporting "Playing" is playing; a paused or stopped
   * session keeps its title, and an empty title or artist is replaced.
   */
  lemma PlayingOnlyWhenPlaying(p: MediaProperties, status: PlaybackStatus)
    ensures InfoFor(Read(Some(p), Some(status))).isPlaying <==> status == Playing
    ensures p.title == Some("") ==> InfoFor(Read(Some(p), Some(status))).title == UnknownTitle
    ensures p.artist.None? ==> InfoFor(Read(Some(p), Some(status))).artist == UnknownArtist
  {
  }

  /**
   * The fallback is told apart from a real track only by its texts: a
   * session whose track is literally "Nothing Playing" by "Start some
   * music", not playing and without art, reads as the fallback.
   */
  lemma FallbackLookalike()
    ensures InfoFor(Read(Some(MediaProperties(Some("Nothing Playing"), Some("Start some music"), None)), Some(Paused))) == Fallback
  {
  }

  class WindowsMediaService {
    /** Whether `RequestAsync` has completed. */
    var hasSessionManager: bool
    var lastInfo: Option<MediaInfo>
    var raised: seq<MediaInfo>

    constructor ()
      ensures !hasSessionManager && lastInfo == None && raised == []
    {
      hasSessionManager := false;
      lastInfo := None;
      raised := [];
    }

    /** `InitializeAsync` completing: the manager is kept and the first read made. */
    method Initialize(read: SessionRead)
      modifies this
      ensures hasSessionManager
      ensures lastInfo == Some(InfoFor(read)) && raised == old(raised) + [InfoFor(read)]
    {
      hasSessionManager := true;
      UpdateMediaInfo(read);
    }

    /**
     * `UpdateMediaInfo`, reached from every change handler. Before the
     * manager exists it does nothing; afterwards it always records and raises
     * the track read, changed or not.
     */
    method UpdateMediaInfo(read: SessionRead)
      modifies this
      ensures hasSessionManager == old(hasSessionManager)
      ensures !hasSessionManager ==> lastInfo == old(lastInfo) && raised == old(raised)
      ensures hasSessionManager ==> lastInfo == Some(InfoFor(read)) && raised == old(raised) + [InfoFor(read)]
    {
      if !hasSessionManager {
        return;
      }
      var info := InfoFor(read);
      lastInfo := Some(info);
      raised := raised + [info];
    }

    function GetCurrentMedia(): (r: MediaInfo)
      reads this
      ensures r == CurrentMedia(lastInfo)
    {
      CurrentMedia(lastInfo)
    }
  }
}
