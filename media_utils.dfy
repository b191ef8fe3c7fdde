/**
 * The shared helpers of the media player (utils.ts): where "now" comes from
 * (the replay player or the room's calibrated clock), the playback position
 * extrapolated from the shared attributes, the host SDK check and the audio
 * file extensions. The attribute record is the one of types.ts, with the
 * defaults of constants.ts.
 */
module Utils {
  import opened Wrappers
  import opened Clock

  const Version: string := "0.1.0-alpha.1"

  /** The shared attributes every client sees. `hostTime` is the host's
      calibrated timestamp (ms) at which `currentTime` (s) held. The optional
      `type` and `poster` are not part of this model. */
  datatype Attributes = Attributes(
    src: string,
    hostTime: real,
    currentTime: real,
    paused: bool,
    muted: bool,
    volume: real)

  const DefaultAttributes: Attributes := Attributes("", 0.0, 0.0, true, false, 1.0)

  /** A live room; its `calibrationTimestamp` may be undefined on old SDKs. */
  datatype Room = Room(calibrationTimestamp: Option<real>)

  /** A replay player. */
  datatype Replay = Replay(beginTimestamp: real, progressTime: real)

  /** The host objects a component receives: a room, a replay, both or neither. */
  datatype Host = Host(room: Option<Room>, player: Option<Replay>)

  /** JavaScript truthiness of an optional number: undefined and 0 are falsy. */
  predicate Truthy(x: Option<real>)
  {
    x.Some? && x.value != 0.0
  }

  /** `getTimestamp`: the replay's position wins over the room's clock; with
      neither the result is undefined. */
  function GetTimestamp(host: Host): (r: Option<real>)
    ensures host.player.Some? ==> r == Some(host.player.value.beginTimestamp + host.player.value.progressTime)
    ensures host.player.None? && host.room.Some? ==> r == host.room.value.calibrationTimestamp
    ensures host.player.None? && host.room.None? ==> r.None?
  {
    match host.player
    case Some(p) => Some(p.beginTimestamp + p.progressTime)
    case None =>
      match host.room
      case Some(room) => room.calibrationTimestamp
      case None => None
  }

  /** `getCurrentTime`: while paused the stored position; while playing the
      stored position plus the time elapsed on the host clock since `hostTime`,
      unless "now" is undefined or 0. */
  function GetCurrentTime(a: Attributes, host: Host): (r: real)
    ensures a.paused ==> r == a.currentTime
    ensures !a.paused && Truthy(GetTimestamp(host)) ==>
      r == a.currentTime + (GetTimestamp(host).value - a.hostTime) / 1000.0
    ensures !a.paused && !Truthy(GetTimestamp(host)) ==> r == a.currentTime
  {
    if a.paused then a.currentTime
    else
      var now := GetTimestamp(host);
      if Truthy(now) then a.currentTime + (now.value - a.hostTime) / 1000.0
      else a.currentTime
  }

  /** A host that is a live room whose clock reads `now`. */
  function RoomAt(now: real): Host
  {
    Host(Some(Room(Some(now))), None)
  }

  /** At the instant the attributes were written the extrapolated position is
      the stored one. */
  lemma PositionAtWriteInstant(a: Attributes)
    requires a.hostTime != 0.0
    ensures GetCurrentTime(a, RoomAt(a.hostTime)) == a.currentTime
  {
  }

  /** While playing, the position advances one second per 1000 ms of host
      clock; while paused it does not move. */
  lemma PositionAdvancesWithClock(a: Attributes, now: real, later: real)
    requires now != 0.0 && later != 0.0
    ensures GetCurrentTime(a, RoomAt(later)) - GetCurrentTime(a, RoomAt(now))
         == if a.paused then 0.0 else (later - now) / 1000.0
  {
  }

  const SdkRequirement: string :=
    "@netless/app-media-player@" + Version + " requires white-web-sdk@^2.13.8 to work properly."

  /** `checkWhiteWebSdkVersion`: the error it throws, if any. */
  function CheckWhiteWebSdkVersion(room: Room): (error: Option<string>)
    ensures error.Some? <==> !Truthy(room.calibrationTimestamp)
    ensures error.Some? ==> error.value == SdkRequirement
  {
    if !Truthy(room.calibrationTimestamp) then Some(SdkRequirement) else None
  }

  /** The extensions the player shows a poster for. */
  const AudioExts: seq<string> := [".aac", ".mid", ".midi", ".mp3", ".ogg", ".oga", ".wav", ".weba"]

  /** `AudioExts.some(e => src.endsWith(e))`. */
  predicate HasAudioExt(src: string)
  {
    exists i | 0 <= i < |AudioExts| :: EndsWith(src, AudioExts[i])
  }
}
