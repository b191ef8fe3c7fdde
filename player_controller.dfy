/**
 * The player's control bar (PlayerController.tsx): the elapsed / total time
 * text, the play and volume buttons, the mute toggle that remembers the
 * volume, and the 100 ms refresh that copies the player's state into the
 * bar unless the user is dragging a slider. The callbacks the bar receives
 * as props (`play`, `pause`, `setVolume`, `setCurrentTime`) are recorded as
 * calls, in order; debounced callbacks are taken to run at once.
 */
module Controller {
  import opened Wrappers
  import opened Clock

  // ---- the time text ----

  lemma ExactDivision(s: nat)
    ensures (s - s % 60) / 60 == s / 60 && s == (s / 60) * 60 + s % 60
  {
  }

  /** `displayWatch`: whole seconds as "MM:SS", from one hour on as "HH:MM:SS". */
  function DisplayWatch(seconds: int): string
  {
    var displaySeconds := JsRem(seconds, 60);
    var minutes := (seconds - displaySeconds) / 60;
    if minutes >= 60 then
      var displayMinutes := JsRem(minutes, 60);
      var hours := (minutes - displayMinutes) / 60;
      ZeroPad(hours) + ":" + ZeroPad(displayMinutes) + ":" + ZeroPad(displaySeconds)
    else
      ZeroPad(minutes) + ":" + ZeroPad(displaySeconds)
  }

  /** The two shapes of the text for a non-negative number of seconds. */
  lemma DisplayWatchForm(s: nat)
    ensures s < 3600 ==> DisplayWatch(s) == ZeroPad(s / 60) + ":" + ZeroPad(s % 60)
    ensures s >= 3600 ==>
      DisplayWatch(s) == ZeroPad(s / 3600) + ":" + ZeroPad(s / 60 % 60) + ":" + ZeroPad(s % 60)
  {
    ExactDivision(s);
    var m := s / 60;
    if m >= 60 {
      ExactDivision(m);
      assert m / 60 == s / 3600;
    }
  }

  lemma SplitRecombines(s: nat)
    ensures s / 3600 * 3600 + s / 60 % 60 * 60 + s % 60 == s
  {
    ExactDivision(s);
    ExactDivision(s / 60);
    assert s / 60 / 60 == s / 3600;
  }

  /** Below one hour the text is two two-digit fields holding the minutes and
      the seconds; from one hour on it is three fields, the last two of two
      digits and below 60, that recombine to the number of seconds. */
  lemma DisplayWatchFields(s: nat)
    ensures var fs := SplitColon(DisplayWatch(s));
      && DigitFields(fs)
      && (s < 3600 ==>
            |fs| == 2 && |fs[0]| == 2 && |fs[1]| == 2
            && DigitsValue(fs[0]) == s / 60 && DigitsValue(fs[1]) == s % 60)
      && (s >= 3600 ==>
            |fs| == 3 && |fs[1]| == 2 && |fs[2]| == 2
            && DigitsValue(fs[1]) < 60 && DigitsValue(fs[2]) < 60
            && DigitsValue(fs[0]) * 3600 + DigitsValue(fs[1]) * 60 + DigitsValue(fs[2]) == s)
  {
    DisplayWatchForm(s);
    ZeroPadValue(s % 60);
    if s >= 3600 {
      ZeroPadValue(s / 60 % 60);
      ZeroPadValue(s / 3600);
      SplitThree(ZeroPad(s / 3600), ZeroPad(s / 60 % 60), ZeroPad(s % 60));
      SplitRecombines(s);
    } else {
      ZeroPadValue(s / 60);
      SplitTwo(ZeroPad(s / 60), ZeroPad(s % 60));
    }
  }

  /** Reading the text back gives the number of seconds displayed. */
  lemma DisplayWatchRoundTrip(s: nat)
    ensures ParseClock(DisplayWatch(s)) == Some(s)
  {
    DisplayWatchForm(s);
    ZeroPadValue(s % 60);
    if s >= 3600 {
      ZeroPadValue(s / 60 % 60);
      ZeroPadValue(s / 3600);
      ParseThreeFields(ZeroPad(s / 3600), ZeroPad(s / 60 % 60), ZeroPad(s % 60));
      SplitRecombines(s);
    } else {
      ZeroPadValue(s / 60);
      ParseTwoFields(ZeroPad(s / 60), ZeroPad(s % 60));
    }
  }

  /** The two texts of the time box: the elapsed and the total time, both in
      milliseconds, each shown as its whole seconds. */
  function TimeBox(progressTime: real, duration: real): (string, string)
  {
    (DisplayWatch((progressTime / 1000.0).Floor), DisplayWatch((duration / 1000.0).Floor))
  }

  lemma TimeBoxShowsWholeSeconds(progressTime: real, duration: real)
    requires progressTime >= 0.0 && duration >= 0.0
    ensures ParseClock(TimeBox(progressTime, duration).0) == Some((progressTime / 1000.0).Floor)
    ensures ParseClock(TimeBox(progressTime, duration).1) == Some((duration / 1000.0).Floor)
  {
    DisplayWatchRoundTrip((progressTime / 1000.0).Floor);
    DisplayWatchRoundTrip((duration / 1000.0).Floor);
  }

  // ---- buttons ----

  datatype PlayIcon = VideoPlay | VideoPause

  datatype VolumeIcon = Volume0 | Volume1 | Volume2

  /** `operationButton`: the play icon while paused, the pause icon otherwise. */
  function OperationButton(paused: bool): (icon: PlayIcon)
    ensures icon == VideoPlay <==> paused
  {
    if paused then VideoPlay else VideoPause
  }

  /** `operationVolumeButton`: full above 0.9, silent at exactly 0, else low. */
  function OperationVolumeButton(volume: real): (icon: VolumeIcon)
    ensures icon == Volume2 <==> volume > 0.9
    ensures icon == Volume0 <==> volume == 0.0
    ensures icon == Volume1 <==> 0.0 != volume <= 0.9
  {
    if volume > 0.9 then Volume2 else if volume == 0.0 then Volume0 else Volume1
  }

  /** `handleClickVolume`: the new staged volume and the volume to set. A click
      mutes exactly when the volume is not 0, remembering it; a click at 0
      restores the remembered volume, or 1 when none is remembered. */
  function ClickVolume(volume: real, stageVolume: real): (r: (real, real))
    ensures r.1 == 0.0 <==> volume != 0.0
    ensures volume != 0.0 ==> r.0 == volume
    ensures volume == 0.0 ==> r.0 == stageVolume && r.1 == (if stageVolume != 0.0 then stageVolume else 1.0)
  {
    if volume == 0.0 then
      (stageVolume, if stageVolume != 0.0 then stageVolume else 1.0)
    else
      (volume, 0.0)
  }

  /** Muting and then unmuting brings back the volume that was muted. */
  lemma ClickTwiceRestores(volume: real, stageVolume: real)
    requires volume != 0.0
    ensures var first := ClickVolume(volume, stageVolume);
      first.1 == 0.0 && ClickVolume(first.1, first.0) == (volume, volume)
  {
  }

  // ---- the component ----

  /** A call the bar makes to one of its callback props. */
  datatype ControllerCall =
    | CallPlay
    | CallPause
    | CallSetVolume(volume: real)
    | CallSetCurrentTime(time: real)

  class PlayerController {
    var stageVolume: real
    var onVolumeSeeking: bool
    // React state
    var isPlayerSeeking: bool
    var seekVolume: real
    var currentTime: real
    /** The calls made to the callback props so far. */
    var calls: seq<ControllerCall>

    constructor (volume: real)
      ensures stageVolume == volume && !onVolumeSeeking && !isPlayerSeeking
      ensures seekVolume == 1.0 && currentTime == 0.0 && calls == []
    {
      stageVolume := volume;
      onVolumeSeeking := false;
      isPlayerSeeking := false;
      seekVolume := 1.0;
      currentTime := 0.0;
      calls := [];
    }

    /** The 100 ms refresh: copy the `volume` and `currentTime` props unless the
        matching slider is being dragged. */
    method Refresh(volume: real, propCurrentTime: real)
      modifies this
      ensures seekVolume == if old(onVolumeSeeking) then old(seekVolume) else volume
      ensures currentTime == if old(isPlayerSeeking) then old(currentTime) else propCurrentTime
      ensures stageVolume == old(stageVolume) && onVolumeSeeking == old(onVolumeSeeking)
      ensures isPlayerSeeking == old(isPlayerSeeking) && calls == old(calls)
    {
      if !onVolumeSeeking {
        seekVolume := volume;
      }
      if !isPlayerSeeking {
        currentTime := propCurrentTime;
      }
    }

    /** `onClickOperationButton`: play when paused, pause otherwise. */
    method OnClickOperationButton(paused: bool)
      modifies this
      ensures calls == old(calls) + [if paused then CallPlay else CallPause]
      ensures stageVolume == old(stageVolume) && onVolumeSeeking == old(onVolumeSeeking)
      ensures isPlayerSeeking == old(isPlayerSeeking) && seekVolume == old(seekVolume)
      ensures currentTime == old(currentTime)
    {
      if paused {
        calls := calls + [CallPlay];
      } else {
        calls := calls + [CallPause];
      }
    }

    /** `handleClickVolume` with the current `volume` prop. */
    method HandleClickVolume(volume: real)
      modifies this
      ensures var r := ClickVolume(volume, old(stageVolume));
        stageVolume == r.0 && calls == old(calls) + [CallSetVolume(r.1)]
      ensures onVolumeSeeking == old(onVolumeSeeking) && isPlayerSeeking == old(isPlayerSeeking)
      ensures seekVolume == old(seekVolume) && currentTime == old(currentTime)
    {
      if volume == 0.0 {
        if stageVolume != 0.0 {
          calls := calls + [CallSetVolume(stageVolume)];
        } else {
          calls := calls + [CallSetVolume(1.0)];
        }
      } else {
        stageVolume := volume;
        calls := calls + [CallSetVolume(0.0)];
      }
    }

    /** `onChange` from the progress slider: the shown time always follows; the
        player is asked to seek only for a non-zero time. */
    method OnChange(time: real)
      modifies this
      ensures currentTime == time
      ensures calls == old(calls) + (if time != 0.0 then [CallSetCurrentTime(time)] else [])
      ensures stageVolume == old(stageVolume) && onVolumeSeeking == old(onVolumeSeeking)
      ensures isPlayerSeeking == old(isPlayerSeeking) && seekVolume == old(seekVolume)
    {
      currentTime := time;
      if time != 0.0 {
        calls := calls + [CallSetCurrentTime(time)];
      }
    }

    /** `onVolumeChange` from the volume slider (0..100). */
    method OnVolumeChange(value: real)
      modifies this
      ensures seekVolume == value / 100.0 && calls == old(calls) + [CallSetVolume(value / 100.0)]
      ensures stageVolume == old(stageVolume) && onVolumeSeeking == old(onVolumeSeeking)
      ensures isPlayerSeeking == old(isPlayerSeeking) && currentTime == old(currentTime)
    {
      calls := calls + [CallSetVolume(value / 100.0)];
      seekVolume := value / 100.0;
    }

    method OnVolumeSeekStart()
      modifies this`onVolumeSeeking
      ensures onVolumeSeeking
    {
      onVolumeSeeking := true;
    }

    method OnVolumeSeekEnd()
      modifies this`onVolumeSeeking
      ensures !onVolumeSeeking
    {
      onVolumeSeeking := false;
    }

    method OnProgressSeekStart()
      modifies this`isPlayerSeeking
      ensures isPlayerSeeking
    {
      isPlayerSeeking := true;
    }

    method OnProgressSeekEnd()
      modifies this`isPlayerSeeking
      ensures !isPlayerSeeking
    {
      isPlayerSeeking := false;
    }
  }

  /** While the progress slider is dragged the refresh leaves the shown time
      alone, so a drag's `onChange` value is what stays on screen. */
  method DragKeepsChosenTime(volume: real, propTime: real, chosen: real) returns (shown: real)
    ensures shown == chosen
  {
    var c := new PlayerController(volume);
    c.OnProgressSeekStart();
    c.OnChange(chosen);
    c.Refresh(volume, propTime);
    shown := c.currentTime;
  }
}
