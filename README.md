# app-media-player, modelled in Dafny

A model of the core of `@netless/app-media-player`, a media player app for the
Netless window manager. Every client in a room shows the same video or audio.
The shared state is a small record of attributes (`src`, `paused`, `muted`,
`volume`, the playback position `currentTime` and the host clock reading
`hostTime` at which that position held). Each client's video.js player is
driven towards those attributes. The model covers five parts:

- **RTC audio-effect mixing** (`RTCEffectPlugin.ts`, module `RTCEffectPlugin`).
  A native audio-effect engine is kept in step with the video.js player:
  - ids are handed out by a process-wide counter;
  - a map holds one record per session;
  - play and pause form a small state machine;
  - position reports drive a drift-correction rule with three branches
    ("already seeking", "more than 10 s apart", "normal lag with a bias");
  - engine errors, effect completion and player disposal reset or tear down a session.

  The engine is seen only through the commands sent to it, which the model logs in order.
- **The control bar** (`PlayerController.tsx`, module `Controller`):
  - the "MM:SS" / "HH:MM:SS" time text;
  - the play button and the volume icon;
  - the mute toggle that remembers the volume;
  - the 100 ms refresh that copies the player's state into the bar unless a slider is being dragged.
- **The seek slider** (`SeekSlider.tsx`, module `Slider`):
  - drag position to time, clamping and scaling included;
  - the tooltip text and its placement;
  - the fill and thumb geometry;
  - the pause / resume that the slider issues around a drag;
  - the mouse and touch drag flags.
- **Shared helpers** (`utils.ts`, module `Utils`):
  - the host's "now";
  - the position extrapolated from the attributes;
  - the SDK version check;
  - the audio file extensions.
- **The player component** (`MediaPlayer.tsx`, module `Player`):
  - `putAttributes`, which writes only the keys that changed;
  - the user intents (play, pause, volume, seek, reset at the end);
  - `syncPlayerWithAttributes`, which drives the local player;
  - whether the poster is shown;
  - the bounded retry on media errors.

Module `Clock` holds what several components share:
- JavaScript's `String(n)` for integers, the zero padding of `updateNumber`, the truncating `%`, `Math.round`, `Math.abs` and `endsWith`;
- a reference reader `ParseClock` for clock strings, against which the formatters are proved.

Module `Wrappers` holds `Option`.

Modelling conventions:
- Pure code becomes functions whose named results carry the contracts, with lemmas beside them.
- Each object whose fields the source updates in place becomes a class:
  - `RTCEffectRegistry` holds the module globals of `RTCEffectPlugin.ts`;
  - `PlayerController`, `SeekSlider` and `MediaPlayerImpl` are the components.
- A method states its whole new state in terms of those functions.
- A class records the calls it makes to collaborators as a sequence:
  - engine commands;
  - callback props;
  - `updateAttributes`;
  - calls on the video.js player.
- Seconds and milliseconds are `real`.
- The wall clock (`Date.now() / 1000`), the player's `currentTime()` at the moment a report arrives, and page coordinates are parameters.
- The media player's `room` and `player` props are a field that `ReceiveProps` replaces, so the host clock can move on between calls. `play`, `pause`, `setCurrentTime` and the sync read that clock at the time of the call.
- An asynchronous continuation is a separate method, and any other handler may run before it:
  - the acknowledgement of `playEffect` (`OnPlayAck`);
  - the reply to a position query (`OnPosition`);
  - the creation of a video.js player (`PlayerCreated`).

Where the code and its documentation disagree, the model follows the code:
- the engine's `error` event resets only the play state, not the whole record;
- `dispose` does nothing to an idle session, so its record stays;
- the lag bias is `max(previous + lag, 0)`, not the previous bias;
- the `muted` replacement returns `false` while the element stays muted;
- the "seeking" test (both seek fields non-zero) is not an invariant: a direct seek to player time 0 leaves the session "not seeking" (`SeekToZeroIsNotSeeking`).

## Model

| member | source | states |
|---|---|---|
| Clock.ZeroPadValue | packages/app-media-player/src/components/PlayerController.tsx:219-225 | `updateNumber(t)` for t ≥ 0 is all digits, reads back as t, has at least two characters, and exactly two for t ≤ 99 |
| Clock.ZeroPad | packages/app-media-player/src/components/PlayerController.tsx:219-225 | `updateNumber(t)` (and the padding of `secondsToTime`) is all digits for t ≥ 0, at least two characters, exactly two for t ≤ 99; its value is `Clock.ZeroPadValue` |
| Clock.NatToString | packages/app-media-player/src/components/SeekSlider.tsx:172 | `toString` of a whole number is a non-empty digit string, one digit below 10 and two from 10 to 99 |
| Clock.NatToStringValue | packages/app-media-player/src/components/SeekSlider.tsx:172 | the decimal string of n reads back as n |
| Clock.JsRem | packages/app-media-player/src/components/PlayerController.tsx:204 | JavaScript `%`: a − r is always a multiple of b; for a ≥ 0 r is the mathematical remainder in [0, b), for a < 0 it lies in (−b, 0] |
| Clock.Round | packages/app-media-player/src/components/SeekSlider.tsx:166 | `Math.round(x)` lies in (x - 0.5, x + 0.5] |
| RTCEffectPlugin.RTCEffectRegistry.constructor | packages/app-media-player/src/components/RTCEffectPlugin.ts:5-27 | the counter starts at 99999, the map is empty, no command has been sent |
| RTCEffectPlugin.RTCEffectRegistry.CreateRTCEffectObject | packages/app-media-player/src/components/RTCEffectPlugin.ts:7-19 | returns the counter's value, which no live record uses; the counter drops by one; the id maps to an Idle record with zero advance, target and begin and `seekEnable` false; the registry invariant (live ids above the counter, non-negative bias) is kept |
| RTCEffectPlugin.TwoSessions | packages/app-media-player/src/components/RTCEffectPlugin.ts:7-19 | the first two ids are 99999 and 99998 |
| RTCEffectPlugin.RTCEffectRegistry.Ready | packages/app-media-player/src/components/RTCEffectPlugin.ts:43-56 | the path is the tag's `src` or ""; a non-audio player is muted and hooked; a new session is created |
| RTCEffectPlugin.ReadyMute | packages/app-media-player/src/components/RTCEffectPlugin.ts:44-55 | an audio source (ending "mp3", "wav" or "m4a") is left alone; any other source is hooked, and an unhooked player becomes muted |
| RTCEffectPlugin.HookedPlayerStaysMuted | packages/app-media-player/src/components/RTCEffectPlugin.ts:47-55 | after `ready` on a non-audio source, every later `muted(...)` call answers false and the player stays muted |
| RTCEffectPlugin.HookIgnoresCalls | packages/app-media-player/src/components/RTCEffectPlugin.ts:52-54 | the replacement `muted` ignores its argument, changes nothing and returns false on every call |
| RTCEffectPlugin.TagSource | packages/app-media-player/src/components/RTCEffectPlugin.ts:44 | the tag's `src` when there is one, "" otherwise |
| RTCEffectPlugin.IsAudio | packages/app-media-player/src/components/RTCEffectPlugin.ts:45 | ends in "mp3", "wav" or "m4a"; decides `RTCEffectPlugin.ReadyMute` |
| RTCEffectPlugin.MutedCall | packages/app-media-player/src/components/RTCEffectPlugin.ts:50-54 | a call never hooks or unhooks; once hooked every call answers false and changes nothing; before, a set changes the flag and answers nothing, a read answers the flag and changes nothing |
| RTCEffectPlugin.Play | packages/app-media-player/src/components/RTCEffectPlugin.ts:74-94 | from Idle: exactly one `playEffect(id, src, 0, 1, 0, 100, false, 0)`; from Paused: one `resumeEffect`; from Playing: nothing. The state is Playing in every case and nothing else changes |
| RTCEffectPlugin.Pause | packages/app-media-player/src/components/RTCEffectPlugin.ts:95-106 | from Playing: one `pauseEffect` and Paused; otherwise no command and no change |
| RTCEffectPlugin.PlayAck | packages/app-media-player/src/components/RTCEffectPlugin.ts:80-83 | the acknowledgement sets `seekEnable` and changes nothing else |
| RTCEffectPlugin.OnlyAckEnablesSeek | packages/app-media-player/src/components/RTCEffectPlugin.ts:80-83 | no event but the acknowledgement turns `seekEnable` on |
| RTCEffectPlugin.TimeUpdate | packages/app-media-player/src/components/RTCEffectPlugin.ts:107-111 | a position query is sent iff the session is Playing and `seekEnable` is set |
| RTCEffectPlugin.StartSeek | packages/app-media-player/src/components/RTCEffectPlugin.ts:124-128 | sends `setEffectPosition(id, second * 1000)`, records target `second` and begin `now`, and changes no other field |
| RTCEffectPlugin.Position | packages/app-media-player/src/components/RTCEffectPlugin.ts:112-164 | a discarded report (seek short of its target, not Playing, ms ≤ 0) changes nothing; otherwise at most one seek is sent, for this id, to the recorded target; the play state and `seekEnable` never change; a changed bias is non-negative |
| RTCEffectPlugin.Discards | packages/app-media-player/src/components/RTCEffectPlugin.ts:115-130 | a report short of a seek's target, while not Playing, or of no position; its effect is stated by `RTCEffectPlugin.Position` |
| RTCEffectPlugin.SeekClearsOnlyWithinTolerance | packages/app-media-player/src/components/RTCEffectPlugin.ts:115-161 | while seeking: below the target nothing happens; at or past it, the seek is cleared with no command iff the lag is at most 0.5 s |
| RTCEffectPlugin.SeekingReseekTarget | packages/app-media-player/src/components/RTCEffectPlugin.ts:136-142 | seeking and outside tolerance: the new target is jsTime + (now - begin) + max(lag, 0), and that seek is sent |
| RTCEffectPlugin.GrossDesyncSeeksDirectly | packages/app-media-player/src/components/RTCEffectPlugin.ts:144-146 | not seeking and more than 10 s apart: the target is exactly jsTime and the bias is unchanged |
| RTCEffectPlugin.NormalLagCarriesBias | packages/app-media-player/src/components/RTCEffectPlugin.ts:147-153 | otherwise the bias max(previous + lag, 0) is at least 0, is stored, and the target is jsTime + bias |
| RTCEffectPlugin.WithinToleranceSendsNothing | packages/app-media-player/src/components/RTCEffectPlugin.ts:156-161 | within 0.5 s no seek is sent; an in-flight seek is cleared, otherwise nothing changes |
| RTCEffectPlugin.SeekNeverBehindPlayer | packages/app-media-player/src/components/RTCEffectPlugin.ts:135-155 | if the clock has not gone back, no correction targets a time before the player's |
| RTCEffectPlugin.SeekToZeroIsNotSeeking | packages/app-media-player/src/components/RTCEffectPlugin.ts:115-146 | a direct seek to player time 0 leaves target 0 with begin set, so the session does not count as seeking |
| RTCEffectPlugin.Error | packages/app-media-player/src/components/RTCEffectPlugin.ts:61-64 | engine `error` sets Idle and leaves every other field |
| RTCEffectPlugin.Finished | packages/app-media-player/src/components/RTCEffectPlugin.ts:65-72 | `effectFinished` resets the record to the initial one |
| RTCEffectPlugin.Dispose | packages/app-media-player/src/components/RTCEffectPlugin.ts:167-175 | `stopEffect` is sent iff the session is not Idle |
| RTCEffectPlugin.HandleKeepsBiasSound | packages/app-media-player/src/components/RTCEffectPlugin.ts:148-151 | no handler makes the bias negative |
| RTCEffectPlugin.RunKeepsBiasSound | packages/app-media-player/src/components/RTCEffectPlugin.ts:148-151 | the bias stays non-negative over any sequence of events |
| RTCEffectPlugin.HandleAddressesSession | packages/app-media-player/src/components/RTCEffectPlugin.ts:74-175 | every command a session's handler sends names that session's id |
| RTCEffectPlugin.RunAddressesSession | packages/app-media-player/src/components/RTCEffectPlugin.ts:74-175 | the same holds over any sequence of events |
| RTCEffectPlugin.PlayPauseAlternate | packages/app-media-player/src/components/RTCEffectPlugin.ts:74-106 | under play and pause alone from Idle: `playEffect` comes first and only once, then pause and resume alternate; the state is determined by the number of commands sent; no other field changes |
| RTCEffectPlugin.RTCEffectRegistry.OnError | packages/app-media-player/src/components/RTCEffectPlugin.ts:61-64 | the record of `soundId` becomes `Error` of it; no command is sent |
| RTCEffectPlugin.RTCEffectRegistry.OnEffectFinished | packages/app-media-player/src/components/RTCEffectPlugin.ts:65-72 | the record of `soundId` becomes the initial record; no command is sent |
| RTCEffectPlugin.RTCEffectRegistry.OnPlay | packages/app-media-player/src/components/RTCEffectPlugin.ts:74-94 | the record and the command log advance by `Play` |
| RTCEffectPlugin.RTCEffectRegistry.OnPlayAck | packages/app-media-player/src/components/RTCEffectPlugin.ts:80-83 | the record advances by `PlayAck`; no command is sent |
| RTCEffectPlugin.RTCEffectRegistry.OnPause | packages/app-media-player/src/components/RTCEffectPlugin.ts:95-106 | the record and the command log advance by `Pause` |
| RTCEffectPlugin.RTCEffectRegistry.OnTimeUpdate | packages/app-media-player/src/components/RTCEffectPlugin.ts:107-111 | the map is unchanged and the log gains `TimeUpdate`'s commands |
| RTCEffectPlugin.RTCEffectRegistry.OnPosition | packages/app-media-player/src/components/RTCEffectPlugin.ts:112-164 | the record, as it is when the reply arrives, and the log advance by `Position` |
| RTCEffectPlugin.RTCEffectRegistry.OnDispose | packages/app-media-player/src/components/RTCEffectPlugin.ts:167-175 | a non-idle session is stopped and its record deleted; an idle one is left in the map |
| Controller.DisplayWatchForm | packages/app-media-player/src/components/PlayerController.tsx:203-216 | below 3600 s the text is pad(s div 60) ":" pad(s mod 60); from 3600 s it is pad(hours) ":" pad(minutes mod 60) ":" pad(seconds mod 60) |
| Controller.DisplayWatchFields | packages/app-media-player/src/components/PlayerController.tsx:203-216 | below an hour: two two-digit fields worth s div 60 and s mod 60; from an hour: three fields, the last two of two digits and below 60, with HH*3600 + MM*60 + SS = s |
| Controller.DisplayWatchRoundTrip | packages/app-media-player/src/components/PlayerController.tsx:203-225 | reading the text back as a clock gives s |
| Controller.DisplayWatch | packages/app-media-player/src/components/PlayerController.tsx:203-216 | `displayWatch`: computes the text; its shapes, fields and read-back are `Controller.DisplayWatchForm`, `Controller.DisplayWatchFields` and `Controller.DisplayWatchRoundTrip` |
| Controller.TimeBox | packages/app-media-player/src/components/PlayerController.tsx:194-195 | the elapsed and total texts from milliseconds; `Controller.TimeBoxShowsWholeSeconds` reads them back as whole seconds |
| Controller.TimeBoxShowsWholeSeconds | packages/app-media-player/src/components/PlayerController.tsx:194-195 | both texts read back as floor(ms / 1000) of the position and of the duration |
| Controller.OperationButton | packages/app-media-player/src/components/PlayerController.tsx:78-85 | the play icon iff paused |
| Controller.OperationVolumeButton | packages/app-media-player/src/components/PlayerController.tsx:87-95 | volume2 iff > 0.9, volume0 iff exactly 0, volume1 iff neither |
| Controller.ClickVolume | packages/app-media-player/src/components/PlayerController.tsx:97-108 | the new volume is 0 iff the volume was not 0, and then the volume is remembered; at 0 the remembered volume is restored, or 1 if none is remembered |
| Controller.ClickTwiceRestores | packages/app-media-player/src/components/PlayerController.tsx:97-108 | muting and then unmuting from volume v > 0 gives back v |
| Controller.PlayerController.constructor | packages/app-media-player/src/components/PlayerController.tsx:40-50 | the remembered volume is the `volume` prop; the initial state is not seeking, `seekVolume` 1, time 0 |
| Controller.PlayerController.Refresh | packages/app-media-player/src/components/PlayerController.tsx:53-60 | `seekVolume` copies the volume unless a volume drag is on; the time copies the prop unless a progress drag is on; nothing else changes |
| Controller.PlayerController.OnClickOperationButton | packages/app-media-player/src/components/PlayerController.tsx:69-76 | calls `play` iff paused, else `pause`; no state changes |
| Controller.PlayerController.HandleClickVolume | packages/app-media-player/src/components/PlayerController.tsx:97-108 | the remembered volume and the one `setVolume` call are those of `ClickVolume` |
| Controller.PlayerController.OnChange | packages/app-media-player/src/components/PlayerController.tsx:110-117 | the shown time always follows; `setCurrentTime` is called iff the time is not 0 |
| Controller.PlayerController.OnVolumeChange | packages/app-media-player/src/components/PlayerController.tsx:119-126 | `seekVolume` and the `setVolume` argument are value / 100 |
| Controller.PlayerController.OnVolumeSeekStart | packages/app-media-player/src/components/PlayerController.tsx:128-130 | a volume drag is on |
| Controller.PlayerController.OnVolumeSeekEnd | packages/app-media-player/src/components/PlayerController.tsx:132-134 | the volume drag is off |
| Controller.PlayerController.OnProgressSeekStart | packages/app-media-player/src/components/PlayerController.tsx:136 | a progress drag is on |
| Controller.PlayerController.OnProgressSeekEnd | packages/app-media-player/src/components/PlayerController.tsx:138-140 | the progress drag is off |
| Controller.DragKeepsChosenTime | packages/app-media-player/src/components/PlayerController.tsx:53-60 | during a progress drag a refresh does not overwrite the time chosen by `onChange` |
| Slider.SecondsToTimeSplits | packages/app-media-player/src/components/SeekSlider.tsx:165-176 | hh is the unpadded decimal of the hours; mm and ss are two digits and below 60; the three recombine to the rounded seconds |
| Slider.HoverSecondsWithin | packages/app-media-player/src/components/SeekSlider.tsx:178-180 | over the track the hover time lies between 0 and the total |
| Slider.SecondsFormatReadsBack | packages/app-media-player/src/components/SeekSlider.tsx:182-183 | below a minute, "00:00:" + ss reads back as the time |
| Slider.MinutesFormatReadsBack | packages/app-media-player/src/components/SeekSlider.tsx:184-185 | below an hour, "00:" + mm + ":" + ss reads back as the time |
| Slider.HoursFormatReadsBack | packages/app-media-player/src/components/SeekSlider.tsx:186-187 | hh:mm:ss reads back as the time |
| Slider.SecondsToTime | packages/app-media-player/src/components/SeekSlider.tsx:165-176 | `secondsToTime`: computes the three fields; what they hold is proved by `Slider.SecondsToTimeSplits` |
| Slider.HoverSeconds | packages/app-media-player/src/components/SeekSlider.tsx:178-180 | the whole seconds under the hover position; bounded by `Slider.HoverSecondsWithin` |
| Slider.HoverTime | packages/app-media-player/src/components/SeekSlider.tsx:178-189 | `getHoverTime`: the tooltip text in the format the total chooses; read back by `Slider.HoverTimeReadsBack` and the three `…FormatReadsBack` lemmas |
| Slider.HoverTimeReadsBack | packages/app-media-player/src/components/SeekSlider.tsx:178-189 | with the default prefixes, the tooltip of every format reads back as the hover time |
| Slider.SeekSlider.constructor | packages/app-media-player/src/components/SeekSlider.tsx:50-63 | prefixes default to "00:00:" and "00:" unless given a non-empty prop; the flags are off; width and hover position start at 0 |
| Slider.EffectiveScale | packages/app-media-player/src/components/SeekSlider.tsx:104 | `scale \|\| 1`: a given non-zero scale is used as it is, a missing or zero scale is replaced by 1; never 0 |
| Slider.DragPosition | packages/app-media-player/src/components/SeekSlider.tsx:102-106 | the drag position lies in [0, trackWidth]: the raw position when already there, 0 when the raw position is negative, trackWidth when it is beyond the track |
| Slider.SliderTimeWithinTotal | packages/app-media-player/src/components/SeekSlider.tsx:108-109 | round(position / width * total) lies in [0, round(total)], and within [0, total] for a whole total |
| Slider.SliderTime | packages/app-media-player/src/components/SeekSlider.tsx:108-109 | no time exactly when the track has no width; the start of the track is time 0 and its end round(total) |
| Slider.DragTimeWithinTotal | packages/app-media-player/src/components/SeekSlider.tsx:102-112 | every time a drag emits lies in [0, round(total)], within the total when it is whole |
| Slider.ProgressScale | packages/app-media-player/src/components/SeekSlider.tsx:133-136 | the fill scale is time / total |
| Slider.ThumbPosition | packages/app-media-player/src/components/SeekSlider.tsx:138-141 | the thumb offset is trackWidth * current / total, within the track when 0 ≤ current ≤ total |
| Slider.HoverTimePosition | packages/app-media-player/src/components/SeekSlider.tsx:148-163 | 0 without a tooltip; centred without the limit; with the limit: 0 when centring starts before the track, trackWidth − width when it ends after it, centred otherwise, so a tooltip no wider than the track stays inside it |
| Slider.TouchPageX | packages/app-media-player/src/components/SeekSlider.tsx:82-89 | the x used is the last changed touch when that is not negative, and 0 when there is no touch or the last is negative |
| Slider.SeekSlider.HandleTouchSeeking | packages/app-media-player/src/components/SeekSlider.tsx:82-94 | the loop finds the last touch; only during a touch drag does the position move to the clamped drag position and report its time |
| Slider.SeekSlider.HandleSeeking | packages/app-media-player/src/components/SeekSlider.tsx:96-100 | only during a mouse drag does the position move and report its time |
| Slider.SeekSlider.ChangeCurrentTimePosition | packages/app-media-player/src/components/SeekSlider.tsx:102-112 | with a laid-out track: the hover position becomes the drag position and `onChange` receives its time |
| Slider.SeekSlider.SetTrack | packages/app-media-player/src/components/SeekSlider.tsx:293 | the `ref` callback stores the track element |
| Slider.SeekSlider.SetTrackWidthState | packages/app-media-player/src/components/SeekSlider.tsx:114-118 | the width becomes the track's `offsetWidth` when there is a track |
| Slider.SeekSlider.HandleTrackHover | packages/app-media-player/src/components/SeekSlider.tsx:120-131 | with a track: the hover position is 0 on leave and the scaled, unclamped pointer offset on move; the width is re-read |
| Slider.SeekSlider.SetSeeking | packages/app-media-player/src/components/SeekSlider.tsx:196-201 | the move is handled under the old flag, then the flag is set; ending resets the hover position to 0 |
| Slider.SeekSlider.SetMobileSeeking | packages/app-media-player/src/components/SeekSlider.tsx:207-210 | sets the touch flag; ending it resets the hover position to 0 |
| Slider.SeekSlider.PauseForSeek | packages/app-media-player/src/components/SeekSlider.tsx:272-275 | `pause` is called, and `seekPause` set, iff a `pause` prop is given and the player is not paused |
| Slider.SeekSlider.ReportSeekStart | packages/app-media-player/src/components/SeekSlider.tsx:277 | `onSeekStart` is called iff given |
| Slider.SeekSlider.OnMouseDown | packages/app-media-player/src/components/SeekSlider.tsx:271-278 | the optional pause, the drag start and the optional `onSeekStart`, in that order; every `play` follows an unmatched `pause` |
| Slider.SeekSlider.ResumeAfterSeek | packages/app-media-player/src/components/SeekSlider.tsx:281-284 | `play` is called iff a `play` prop is given and this slider paused the player; the mark is then cleared |
| Slider.SeekSlider.ReportSeekEnd | packages/app-media-player/src/components/SeekSlider.tsx:285 | `onSeekEnd` is called iff given |
| Slider.SeekSlider.OnMouseUp | packages/app-media-player/src/components/SeekSlider.tsx:280-286 | the optional resume, then the optional `onSeekEnd` |
| Slider.SeekSlider.MouseSeekingHandler | packages/app-media-player/src/components/SeekSlider.tsx:191-194 | the drag ends (hover position 0), then `onMouseUp` |
| Slider.SeekSlider.MobileTouchSeekingHandler | packages/app-media-player/src/components/SeekSlider.tsx:203-205 | the touch drag ends and the hover position is 0 |
| Slider.SeekSlider.OnTouchStart | packages/app-media-player/src/components/SeekSlider.tsx:297-300 | starts a touch drag, then behaves as `onMouseDown`: both drags on, the pause step, the hover position moved to where `onMouseDown` puts it, and the same calls |
| Slider.PlaysNeverExceedPauses | packages/app-media-player/src/components/SeekSlider.tsx:271-286 | a slider never calls `play` more often than `pause` |
| Slider.EndedDragDeactivatesThumb | packages/app-media-player/src/components/SeekSlider.tsx:196-214 | after the mouse and touch drags have ended, the thumb is not active |
| Slider.SeekSlider.IsThumbActive | packages/app-media-player/src/components/SeekSlider.tsx:212-214 | `isThumbActive`: a positive hover position or a mouse drag; its use after a drag is `Slider.EndedDragDeactivatesThumb` |
| Utils.GetTimestamp | packages/app-media-player/src/utils.ts:29-36 | a replay's begin + progress wins; otherwise the room's calibrated clock; otherwise undefined |
| Utils.GetCurrentTime | packages/app-media-player/src/utils.ts:17-27 | paused: the stored position; playing with a truthy "now": the position plus (now - hostTime) / 1000; playing without one: the stored position |
| Utils.PositionAtWriteInstant | packages/app-media-player/src/utils.ts:17-23 | at the host instant the attributes were written, the position is the stored one |
| Utils.PositionAdvancesWithClock | packages/app-media-player/src/utils.ts:17-26 | while playing the position moves one second per 1000 ms of host clock; paused, it does not move |
| Utils.CheckWhiteWebSdkVersion | packages/app-media-player/src/utils.ts:6-11 | fails, with the version message, iff `calibrationTimestamp` is falsy |
| Utils.HasAudioExt | packages/app-media-player/src/components/MediaPlayer.tsx:82 | the source ends in one of `AudioExts`; its use is `Player.IsShowingPoster` and `Player.PosterExamples` |
| Player.PatchValue | packages/app-media-player/src/components/MediaPlayer.tsx:31-33 | a key has a value in a patch iff the patch names it, and that value is one of its entries |
| Player.ChangedSelects | packages/app-media-player/src/components/MediaPlayer.tsx:31-35 | an update is issued exactly for the entries that differ from the store, and for no key outside the patch |
| Player.Changed | packages/app-media-player/src/components/MediaPlayer.tsx:31-35 | the updates `putAttributes` issues, in order; which ones is `Player.ChangedSelects` |
| Player.WriteLookup | packages/app-media-player/src/components/MediaPlayer.tsx:33 | after a series of `updateAttributes`, a key holds the last value written to it, or its old one |
| Player.MediaPlayerImpl.PutAttributes | packages/app-media-player/src/components/MediaPlayer.tsx:28-36 | the loop leaves the store as `Put` gives it and logs the updates of `Changed`, compared against the attributes read before the loop |
| Player.PutLookup | packages/app-media-player/src/components/MediaPlayer.tsx:28-36 | after `putAttributes(b)` each key reads as `b` has it, or as before |
| Player.Put | packages/app-media-player/src/components/MediaPlayer.tsx:28-36 | the store after `putAttributes`; read back by `Player.PutLookup` and `Player.PutAgrees` |
| Player.PutAgrees | packages/app-media-player/src/components/MediaPlayer.tsx:28-36 | afterwards the store agrees with `b` on every key of `b` |
| Player.PutMember | packages/app-media-player/src/components/MediaPlayer.tsx:28-36 | a key that `b` names reads as `b` gives it |
| Player.PutUntouched | packages/app-media-player/src/components/MediaPlayer.tsx:28-36 | keys `b` does not name are untouched |
| Player.ChangedEmpty | packages/app-media-player/src/components/MediaPlayer.tsx:31-35 | a patch the store already agrees with issues no update |
| Player.PutIdempotent | packages/app-media-player/src/components/MediaPlayer.tsx:28-36 | putting the same attributes again issues nothing and changes nothing |
| Player.ReadEncode | packages/app-media-player/src/components/MediaPlayer.tsx:28-36 | putting a whole record and reading the attributes back gives that record |
| Player.MediaPlayerImpl.PutIfWritable | packages/app-media-player/src/components/MediaPlayer.tsx:147 | nothing is written unless the context is writable |
| Player.MediaPlayerImpl.Play | packages/app-media-player/src/components/MediaPlayer.tsx:144-148 | when writable, puts `paused = false`, with the room's clock at the call as `hostTime` |
| Player.PlayResumesFromPausedPosition | packages/app-media-player/src/components/MediaPlayer.tsx:144-148 | from a pause, play keeps the position at that instant and advances from it |
| Player.MediaPlayerImpl.Pause | packages/app-media-player/src/components/MediaPlayer.tsx:150-154 | when writable, puts `paused = true` and the position computed from the host clock at the call |
| Player.PauseFreezesPosition | packages/app-media-player/src/components/MediaPlayer.tsx:150-154 | pausing stores the position of that moment, which then no longer moves |
| Player.MediaPlayerImpl.SetVolume | packages/app-media-player/src/components/MediaPlayer.tsx:156-160 | when writable, the two puts of the volume and then of volume and muted, with their updates |
| Player.SetVolumeEffect | packages/app-media-player/src/components/MediaPlayer.tsx:156-160 | afterwards the volume is v and `muted` is true iff v is 0; the second put writes only `muted`, and only if it changed |
| Player.MediaPlayerImpl.SetCurrentTime | packages/app-media-player/src/components/MediaPlayer.tsx:162-166 | when writable, puts t / 1000 seconds, with the room's clock at the call |
| Player.SeekEffect | packages/app-media-player/src/components/MediaPlayer.tsx:162-166 | a seek to t ms sets the position to t / 1000 s at that instant |
| Player.MediaPlayerImpl.ResetPlayer | packages/app-media-player/src/components/MediaPlayer.tsx:168-172 | autoplay off on a present player; when writable, puts `paused = true`, `currentTime = 0` |
| Player.ResetEffect | packages/app-media-player/src/components/MediaPlayer.tsx:168-172 | after the reset the attributes are paused at position 0 for every host |
| Player.IsShowingPoster | packages/app-media-player/src/components/MediaPlayer.tsx:79-83 | the poster shows without a source; with one, iff it ends with one of the audio extensions |
| Player.PosterExamples | packages/app-media-player/src/components/MediaPlayer.tsx:79-83 | "a.mp3" and "b.weba" show the poster; "mp3" with no dot does not |
| Player.SrcText | packages/app-media-player/src/components/MediaPlayer.tsx:80-81 | the attributes' `src` as `isShowingPoster` reads it: present exactly when the store holds a string under `src`, and then that string |
| Player.PosterFollowsPut | packages/app-media-player/src/components/MediaPlayer.tsx:28-36 | after `putAttributes` sets `src`, the poster test on the store shows the poster iff the new source is empty or has an audio extension |
| Player.SyncSteps | packages/app-media-player/src/components/MediaPlayer.tsx:197-223 | performing the sync's calls in order gives the player with paused, muted and volume taken from the attributes and the position step applied |
| Player.SyncCalls | packages/app-media-player/src/components/MediaPlayer.tsx:197-223 | the calls the sync makes; performed they give `Player.Synced` (`Player.SyncSteps`), and each is made only on a difference (`Player.SyncActsOnlyOnDifference`) |
| Player.Synced | packages/app-media-player/src/components/MediaPlayer.tsx:197-223 | the player after a sync; its fields are `Player.SyncedFields` |
| Player.SyncedFields | packages/app-media-player/src/components/MediaPlayer.tsx:197-223 | after a sync paused, muted and volume are the attributes'; past the end autoplay is off and the position kept; otherwise autoplay is kept and the player is within 1 s of the computed position |
| Player.SyncAgrees | packages/app-media-player/src/components/MediaPlayer.tsx:197-223 | after a sync the player agrees on paused, muted and volume; past the end it is reset with autoplay off; otherwise it is within `currentTimeMaxError` (1 s) of the computed position |
| Player.SyncActsOnlyOnDifference | packages/app-media-player/src/components/MediaPlayer.tsx:197-223 | each call (pause/play, mute, volume, seek, reset) is made iff the player differs in that respect |
| Player.SyncIdempotent | packages/app-media-player/src/components/MediaPlayer.tsx:197-223 | before the end, a second sync makes no call |
| Player.MediaPlayerImpl.SyncFlags | packages/app-media-player/src/components/MediaPlayer.tsx:197-215 | the paused, muted and volume calls, each only on a difference |
| Player.MediaPlayerImpl.SyncPosition | packages/app-media-player/src/components/MediaPlayer.tsx:217-223 | past the end: reset, and when writable the attribute reset with exactly the `updateAttributes` calls it needs; otherwise seek iff off by more than 1 s, no attribute update |
| Player.MediaPlayerImpl.SyncAgainst | packages/app-media-player/src/components/MediaPlayer.tsx:197-223 | with the position computed from the host clock at the sync: the player becomes `Synced`, the log gains `SyncCalls`, and past the end the store is reset with its updates logged; otherwise no attribute update |
| Player.MediaPlayerImpl.Sync | packages/app-media-player/src/components/MediaPlayer.tsx:190-224 | nothing happens, not even an attribute update, without attributes or a player; otherwise as `SyncAgainst` |
| Player.MediaPlayerImpl.constructor | packages/app-media-player/src/components/MediaPlayer.tsx:62-72 | no player, no prompts, retry count 0 |
| Player.MediaPlayerImpl.ReceiveProps | packages/app-media-player/src/components/MediaPlayer.tsx:145 | the `room` and `player` props are replaced, so the next call reads the host clock as it is then |
| Player.ClockAdvancesBetweenCalls | packages/app-media-player/src/components/MediaPlayer.tsx:144-151 | playing at 9000 ms and reading the position at 12000 ms gives 3 s past the paused position, whatever the clock at construction |
| Player.MediaPlayerImpl.DecreaseRetryCount | packages/app-media-player/src/components/MediaPlayer.tsx:237-242 | nothing without a player; otherwise one retry regained, never below 0 |
| Player.MediaPlayerImpl.InitPlayer | packages/app-media-player/src/components/MediaPlayer.tsx:274-276 | the old player is disposed of and cleared |
| Player.MediaPlayerImpl.PlayerCreated | packages/app-media-player/src/components/MediaPlayer.tsx:308-326 | a fresh player is installed and the error state cleared |
| Player.MediaPlayerImpl.PlayerFails | packages/app-media-player/src/components/MediaPlayer.tsx:324 | the player now reports a media error |
| Player.MediaPlayerImpl.CatchPlayFail | packages/app-media-player/src/components/MediaPlayer.tsx:244-262 | a blocked interaction sets autoplay "any" (one call on the player when there is one) and the no-sound prompt; a media error disposes and re-creates the player and counts a retry while `retryCount` ≤ 3, and after that sets `MediaError` with no call; with no media error nothing changes |
| Player.RetriesAreBounded | packages/app-media-player/src/components/MediaPlayer.tsx:250-259 | media errors in a row, starting with no retries used, re-create the player exactly 4 times and then show the error state |

## Left out

- Rendering is not modelled: React and JSX, the DOM, CSS transforms, icons and the alert and reload elements. This removes `render`, `renderThumb` and the other `render*` helpers, `drawHoverTime`, `setupAlert`, `setupReload` and `gracefullyUpdate`. A transform's number is kept; the string around it is not.
- video.js itself is not modelled. The player is a record of the fields the component reads and sets. `play()` is taken to succeed at once, and its failure arrives later as a separate `CatchPlayFail` call.
- Timers and debouncing are not modelled (`setInterval`, `setTimeout`, lodash `debounce`, `debounceHidingController`, `showController`). A refresh or a debounced callback is a plain method call that runs at once.
- React's `setState` is taken to apply at once. `SetSeeking` therefore keeps the hover position set by the move it has just handled. React would batch both updates.
- `initPlayer` is modelled as two parts:
  - its synchronous part, disposing of the old player (`InitPlayer`);
  - its completion, installing a fresh player (`PlayerCreated`).

  The DOM construction, the `.m3u8` URL test, `nextFrame` and the event wiring are left out. `fixPlayFail` (the no-sound prompt's handler) and the reload button are not modelled.
- `catchPlayFail`'s test of the error text (Safari's "NotAllowedError", or "interact") is the boolean `interactionBlocked`.
- The pause/resume, `timeupdate` and drift-correction handlers are modelled per session. Registering them on the engine and the player (`addListener`, `on`, `one`) is not. One registry handles each engine event, for the session it names. In the source, every `ready` adds another listener.
- Handlers in `RTCEffectPlugin.ts` read `activeRTCEffectStates[id]` and throw when it is missing. The model makes presence of the record a precondition of each handler, so a second `dispose` after a real one is outside the model.
- Floating point, NaN and infinities are not modelled; seconds are `real`:
  - a zero track width, which gives NaN, is `None` in `SliderTime`;
  - `HoverSeconds` and `HoverTime` require a non-zero width;
  - `toFixed(0)` is taken to coincide with `Math.round`;
  - `Math.round` ties are rounded up;
  - a thumb at `current == 0` sits at offset 0, the limit of the source's division by infinity.
- `Date.now()` appears twice in one drift correction. Both readings are the single parameter `now`.
- The host SDK is reduced to values:
  - the window manager's `context` is a store map and a `writable` flag;
  - `room` and `player` are records;
  - `updateAttributes` is a store write, logged in `updates`;
  - the `attributesUpdate` subscription and the sync interval are not modelled, and `Sync` is a method that may be called at any time.
- The attributes `type` and `poster` are keys the store can hold, but no operation of the model reads them.
- `Player.MediaPlayerImpl.Pause`: requires that the attributes read well-typed, where the source's `getAttributes()!` would throw or compute from partial attributes.
- `Player.MediaPlayerImpl.Sync`: does nothing unless every attribute has its type. The source would go on with whatever fields are present, including undefined ones.
- `Player.MediaPlayerImpl.PutAttributes`: compares against the attributes read before the loop. Whether the host's `getAttributes()` object changes during the loop is host behaviour, not part of this model.
- `Player.PutLookup`: the lemmas about `putAttributes` assume each key appears at most once in a patch, as in the object literals every caller passes.
- `Player.MediaPlayerImpl.constructor`: the source's constructor throws when the room's SDK has no calibrated clock. Here that is a precondition, and the check itself is `Utils.CheckWhiteWebSdkVersion`.
- `Player.IsShowingPoster`: a `src` that is present but not a string is treated as absent.
- `Slider.SeekSlider.OnMouseDown`: takes the event's `pageX` as a number. A touch event has none, so the source moves the position to NaN there.
- `Slider.SeekSlider.HandleTouchSeeking`: a touch that reports no `pageX` is not modelled.
- `nextFrame`, `isSafari`, `options.onPlayer`, `setOptions` and the debug logging are not modelled. They are I/O, or they have no effect on the state. The options are fixed at their defaults.
