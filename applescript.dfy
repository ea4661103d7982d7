/**
 * `AppleScriptHelper.getMusicInfo`: the script asks Music, then Spotify,
 * for the current track and answers "player|title|artist|state", or
 * "None|||stopped" when neither is playing or paused. Running `osascript`
 * is not part of this model: its output, already trimmed of surrounding
 * white space by `execute`, is the input, `None` when it could not run.
 */
module AppleScript {
  import opened Text

  /** The tuple `getMusicInfo` returns. */
  datatype MusicInfo = MusicInfo(title: string, artist: string, isPlaying: bool)

  const Separator: char := '|'
  const NothingPlaying: string := "None|||stopped"

  /**
   * The parsing of the script's answer: at least four '|'-separated parts
   * and a first part other than "None"; the title and the artist are the
   * second and third parts, and only a fourth part "playing" means playing.
   */
  function ParseMusicInfo(output: Option<string>): (r: Option<MusicInfo>)
    ensures r.Some? <==> output.Some? && |Split(output.value, Separator)| >= 4 && Split(output.value, Separator)[0] != "None"
    ensures r.Some? ==> r.value.title == Split(output.value, Separator)[1] && r.value.artist == Split(output.value, Separator)[2]
    ensures r.Some? ==> Separator !in r.value.title && Separator !in r.value.artist
    ensures r.Some? ==> (r.value.isPlaying <==> Split(output.value, Separator)[3] == "playing")
  {
    if output.None? then None
    else
      var parts := Split(output.value, Separator);
      if |parts| >= 4 && parts[0] != "None" then
        Some(MusicInfo(parts[1], parts[2], parts[3] == "playing"))
      else None
  }

  /** The answer the script composes for a player's current track. */
  function ScriptAnswer(player: string, title: string, artist: string, state: string): string {
    Join([player, title, artist, state], Separator)
  }

  /**
   * Reading back what the script wrote gives the track, provided no field
   * holds the separator; the state "paused" reads as not playing.
   */
  lemma ParseScriptAnswer(player: string, title: string, artist: string, state: string)
    requires player != "None"
    requires Separator !in player && Separator !in title && Separator !in artist && Separator !in state
    ensures ParseMusicInfo(Some(ScriptAnswer(player, title, artist, state))) == Some(MusicInfo(title, artist, state == "playing"))
  {
    var parts := [player, title, artist, state];
    assert forall i :: 0 <= i < |parts| ==> Separator !in parts[i];
    SplitOfJoin(parts, Separator);
  }

  /** No part holds the separator. */
  predicate SeparatorFree(parts: seq<string>) {
    forall i :: 0 <= i < |parts| ==> Separator !in parts[i]
  }

  /** Any separator-free parts, joined, read back as their first four. */
  lemma ParseJoined(parts: seq<string>)
    requires |parts| >= 4 && parts[0] != "None"
    requires SeparatorFree(parts)
    ensures ParseMusicInfo(Some(Join(parts, Separator))) == Some(MusicInfo(parts[1], parts[2], parts[3] == "playing"))
  {
    SplitOfJoin(parts, Separator);
  }

  /** Appending separator-free parts to separator-free parts keeps them so. */
  lemma SeparatorFreeAppend(front: seq<string>, rest: seq<string>)
    requires SeparatorFree(front) && SeparatorFree(rest)
    ensures SeparatorFree(front + rest)
  {
    forall i | 0 <= i < |front + rest|
      ensures Separator !in (front + rest)[i]
    {
      if i < |front| {
        assert (front + rest)[i] == front[i];
      } else {
        assert (front + rest)[i] == rest[i - |front|];
      }
    }
  }

  /**
   * Parts after the fourth do not matter: an answer with any further
   * separator-free fields reads as the same track.
   */
  lemma ExtraFieldsIgnored(player: string, title: string, artist: string, state: string, rest: seq<string>)
    requires player != "None"
    requires Separator !in player && Separator !in title && Separator !in artist && Separator !in state
    requires SeparatorFree(rest)
    ensures ParseMusicInfo(Some(Join([player, title, artist, state] + rest, Separator)))
         == Some(MusicInfo(title, artist, state == "playing"))
  {
    var fields := [player, title, artist, state];
    assert SeparatorFree(fields);
    SeparatorFreeAppend(fields, rest);
    var parts := fields + rest;
    assert parts[0] == player && parts[1] == title && parts[2] == artist && parts[3] == state;
    ParseJoined(parts);
  }

  /** The answer for "nothing playing" gives no track. */
  lemma NothingPlayingGivesNone()
    ensures ParseMusicInfo(Some(NothingPlaying)) == None
  {
    assert NothingPlaying == ScriptAnswer("None", "", "", "stopped");
    var parts := ["None", "", "", "stopped"];
    assert forall i :: 0 <= i < |parts| ==> Separator !in parts[i];
    SplitOfJoin(parts, Separator);
  }

  /**
   * A '|' inside a track title shifts the fields: the title is cut at the
   * separator, the rest of it becomes the artist, and the artist is read as
   * the playing state, so a playing track reads as playing only when its
   * artist is named "playing".
   */
  lemma SeparatorInTitleShifts(a: string, b: string, artist: string)
    requires Separator !in a && Separator !in b && Separator !in artist
    ensures ParseMusicInfo(Some(ScriptAnswer("Music", a + [Separator] + b, artist, "playing")))
         == Some(MusicInfo(a, b, artist == "playing"))
  {
    var x := a + [Separator] + b;
    var tail := Join([artist, "playing"], Separator);
    var four := [x, artist, "playing"];
    var five := [a, b, artist, "playing"];
    assert four[1..] == [artist, "playing"];
    assert Join(four, Separator) == x + [Separator] + tail;
    assert five[1..] == [b, artist, "playing"];
    assert [b, artist, "playing"][1..] == [artist, "playing"];
    assert Join(five, Separator) == a + [Separator] + (b + [Separator] + tail);
    assert x + [Separator] + tail == a + [Separator] + (b + [Separator] + tail);
    var answer := ["Music", x, artist, "playing"];
    assert answer[1..] == four;
    var rest := ["playing"];
    var shifted := ["Music", a, b, artist] + rest;
    assert shifted[1..] == five;
    assert ScriptAnswer("Music", x, artist, "playing") == Join(shifted, Separator);
    assert SeparatorFree(rest);
    ExtraFieldsIgnored("Music", a, b, artist, rest);
  }
}
