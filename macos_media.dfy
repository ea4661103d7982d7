/**
 * `MacOSMediaService`: the now-playing track, from two sources. Every
 * three seconds the AppleScript answer is polled and reported when the
 * title or the playing state changed; Apple Music and Spotify also post
 * distributed notifications, each reported as it comes. Each timer tick,
 * notification and main-queue dispatch is modelled as one synchronous
 * step; `reported` lists the calls of `onMediaChanged`, in order.
 */
module MacMedia {
  import opened Text
  import opened AppleScript

  datatype MediaInfo = MediaInfo(title: string, artist: string, albumArt: Option<seq<bv8>>, isPlaying: bool)

  /** A `userInfo` value: a string, or anything `as? String` rejects. */
  datatype UserInfoValue = StringValue(s: string) | OtherValue

  type UserInfo = map<string, UserInfoValue>

  const UnknownTitle: string := "Unknown Title"
  const UnknownArtist: string := "Unknown Artist"

  /** The `userInfo` keys one player's notification uses. */
  datatype PlayerKeys = PlayerKeys(titleKey: string, artistKey: string, stateKey: string)

  /** "com.apple.Music.playerInfo". */
  const AppleMusicKeys: PlayerKeys := PlayerKeys("Name", "Artist", "Player State")
  /** "com.spotify.client.PlaybackStateChanged". */
  const SpotifyKeys: PlayerKeys := PlayerKeys("trackName", "artistName", "playerState")

  /** `(userInfo[key] as? String) ?? fallback`. */
  function StringOr(userInfo: UserInfo, key: string, fallback: string): (s: string)
    ensures key in userInfo && userInfo[key].StringValue? ==> s == userInfo[key].s
    ensures !(key in userInfo && userInfo[key].StringValue?) ==> s == fallback
  {
    if key in userInfo && userInfo[key].StringValue? then userInfo[key].s else fallback
  }

  /** The track a notification describes. */
  function NotifiedInfo(userInfo: UserInfo, keys: PlayerKeys): (info: MediaInfo)
    ensures info.isPlaying <==> keys.stateKey in userInfo && userInfo[keys.stateKey] == StringValue("Playing")
    ensures info.albumArt == None
    ensures info.title == StringOr(userInfo, keys.titleKey, UnknownTitle)
    ensures info.artist == StringOr(userInfo, keys.artistKey, UnknownArtist)
  {
    var isPlaying := keys.stateKey in userInfo && userInfo[keys.stateKey] == StringValue("Playing");
    MediaInfo(StringOr(userInfo, keys.titleKey, UnknownTitle), StringOr(userInfo, keys.artistKey, UnknownArtist), None, isPlaying)
  }

  /**
   * Whether a polled track is reported: no track known yet, or a
   * different title or playing state. A change of artist alone is not.
   */
  predicate PollReports(last: Option<MediaInfo>, media: MediaInfo) {
    last.None? || media.title != last.value.title || media.isPlaying != last.value.isPlaying
  }

  /** `getCurrentMedia()`: the last track, provided it is playing. */
  function CurrentMedia(last: Option<MediaInfo>): (r: Option<MediaInfo>)
    ensures r.Some? <==> last.Some? && last.value.isPlaying
    ensures r.Some? ==> r == last
  {
    if last.Some? && last.value.isPlaying then last else None
  }

  /** A poll that finds nothing changed reports nothing: polling the same answer twice reports at most once. */
  lemma PollTwice(last: Option<MediaInfo>, media: MediaInfo)
    ensures !PollReports(Some(media), media)
    ensures PollReports(last, media) ==> last != Some(media)
  {
  }

  /** A track with a new artist but the same title and state does not replace the one known. */
  lemma ArtistChangeUnseen(last: MediaInfo, media: MediaInfo)
    requires media.title == last.title && media.isPlaying == last.isPlaying && media.artist != last.artist
    ensures !PollReports(Some(last), media)
  {
  }

  /** A notification without the usual keys gives a placeholder track that is not playing, and nothing is current. */
  lemma EmptyNotification(keys: PlayerKeys)
    ensures NotifiedInfo(map[], keys) == MediaInfo(UnknownTitle, UnknownArtist, None, false)
    ensures CurrentMedia(Some(NotifiedInfo(map[], keys))) == None
  {
  }

  class MacOSMediaService {
    var lastMediaInfo: Option<MediaInfo>
    var reported: seq<MediaInfo>

    constructor ()
      ensures lastMediaInfo == None && reported == []
    {
      lastMediaInfo := None;
      reported := [];
    }

    /** `pollMediaInfo()` over the script's answer `output`. */
    method Poll(output: Option<string>)
      modifies this
      ensures var parsed := ParseMusicInfo(output);
        if parsed.Some? && PollReports(old(lastMediaInfo), MediaInfo(parsed.value.title, parsed.value.artist, None, parsed.value.isPlaying)) then
          var media := MediaInfo(parsed.value.title, parsed.value.artist, None, parsed.value.isPlaying);
          lastMediaInfo == Some(media) && reported == old(reported) + [media]
        else
          lastMediaInfo == old(lastMediaInfo) && reported == old(reported)
    {
      var info := ParseMusicInfo(output);
      if info.Some? {
        var media := MediaInfo(info.value.title, info.value.artist, None, info.value.isPlaying);
        if lastMediaInfo.None? || media.title != lastMediaInfo.value.title || media.isPlaying != lastMediaInfo.value.isPlaying {
          lastMediaInfo := Some(media);
          reported := reported + [media];
        }
      }
    }

    /** `handleAppleMusicChange(_:)`; a notification without `userInfo` is ignored. */
    method HandleAppleMusicChange(userInfo: Option<UserInfo>)
      modifies this
      ensures userInfo.None? ==> lastMediaInfo == old(lastMediaInfo) && reported == old(reported)
      ensures userInfo.Some? ==>
        var info := NotifiedInfo(userInfo.value, AppleMusicKeys);
        lastMediaInfo == Some(info) && reported == old(reported) + [info]
    {
      if userInfo.None? {
        return;
      }
      Notified(NotifiedInfo(userInfo.value, AppleMusicKeys));
    }

    /** `handleSpotifyChange(_:)`; a notification without `userInfo` is ignored. */
    method HandleSpotifyChange(userInfo: Option<UserInfo>)
      modifies this
      ensures userInfo.None? ==> lastMediaInfo == old(lastMediaInfo) && reported == old(reported)
      ensures userInfo.Some? ==>
        var info := NotifiedInfo(userInfo.value, SpotifyKeys);
        lastMediaInfo == Some(info) && reported == old(reported) + [info]
    {
      if userInfo.None? {
        return;
      }
      Notified(NotifiedInfo(userInfo.value, SpotifyKeys));
    }

    /** What both handlers do with the track: remember it and report it, changed or not. */
    method Notified(info: MediaInfo)
      modifies this
      ensures lastMediaInfo == Some(info) && reported == old(reported) + [info]
    {
      lastMediaInfo := Some(info);
      reported := reported + [info];
    }

    function GetCurrentMedia(): (r: Option<MediaInfo>)
      reads this
      ensures r == CurrentMedia(lastMediaInfo)
    {
      CurrentMedia(lastMediaInfo)
    }
  }
}
