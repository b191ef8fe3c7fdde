/**
 * The seek slider (SeekSlider.tsx): a horizontal track whose drag position is
 * turned into a time, the tooltip text and placement, the fill and thumb
 * geometry, and the flags around a drag (`seeking` for the mouse,
 * `mobileSeeking` for touch, `seekPause` for the pause it issued itself).
 * Calls to the callback props (`onChange`, `play`, `pause`, `onSeekStart`,
 * `onSeekEnd`) are recorded in order.
 */
module Slider {
  import opened Wrappers
  import opened Clock

  /** The slider's `offset`: initialised to 0 and never reassigned. */
  const TimeOffset: real := 0.0
  const DefaultSecondsPrefix: string := "00:00:"
  const DefaultMinutesPrefix: string := "00:"

  // ---- time text ----

  datatype Time = Time(hh: string, mm: string, ss: string)

  /** `secondsToTime`: round, then split into hours (not padded), minutes and
      seconds (padded to two characters). */
  function SecondsToTime(seconds: real): Time
  {
    var rounded := Round(seconds + TimeOffset);
    var hours := rounded / 3600;
    var divForMinutes := JsRem(rounded, 3600);
    var minutes := divForMinutes / 60;
    var sec := JsRem(divForMinutes, 60);
    Time(IntToString(hours), ZeroPad(minutes), ZeroPad(sec))
  }

  lemma DivMod3600(n: nat)
    ensures n % 3600 / 60 < 60 && n % 3600 % 60 < 60 && n % 3600 % 60 == n % 60
    ensures n / 3600 * 3600 + n % 3600 / 60 * 60 + n % 3600 % 60 == n
  {
  }

  /** For a non-negative rounded value the three fields are digit strings, the
      minutes and seconds exactly two of them and below 60, and they recombine
      to the rounded value. */
  lemma SecondsToTimeSplits(seconds: real)
    requires Round(seconds + TimeOffset) >= 0
    ensures var n := Round(seconds + TimeOffset);
      var t := SecondsToTime(seconds);
      && t.hh == NatToString(n / 3600)
      && AllDigits(t.mm) && |t.mm| == 2 && DigitsValue(t.mm) < 60
      && AllDigits(t.ss) && |t.ss| == 2 && DigitsValue(t.ss) < 60
      && DigitsValue(t.hh) * 3600 + DigitsValue(t.mm) * 60 + DigitsValue(t.ss) == n
  {
    var n: nat := Round(seconds + TimeOffset);
    DivMod3600(n);
    ZeroPadValue(n % 3600 / 60);
    ZeroPadValue(n % 3600 % 60);
    NatToStringValue(n / 3600);
  }

  /** The whole seconds under the hover position. */
  function HoverSeconds(seekHoverPosition: real, trackWidth: real, total: real): int
    requires trackWidth != 0.0
  {
    var percent := seekHoverPosition * 100.0 / trackWidth;
    (percent * (total / 100.0)).Floor
  }

  /** `getHoverTime`: the tooltip text; its format is chosen by the total. */
  function HoverTime(seekHoverPosition: real, trackWidth: real, total: real,
                     secondsPrefix: string, minutesPrefix: string): string
    requires trackWidth != 0.0
  {
    var times := SecondsToTime(HoverSeconds(seekHoverPosition, trackWidth, total) as real);
    if total + TimeOffset < 60.0 then secondsPrefix + times.ss
    else if total + TimeOffset < 3600.0 then minutesPrefix + times.mm + ":" + times.ss
    else times.hh + ":" + times.mm + ":" + times.ss
  }

  lemma MulDivSwap(a: real, b: real, c: real)
    requires b != 0.0
    ensures a * c / b == a / b * c
  {
    assert a / b * b == a;
  }

  /** The hover arithmetic is the fraction of the track times the total. */
  lemma HoverScale(p: real, w: real, total: real)
    requires w != 0.0
    ensures p * 100.0 / w * (total / 100.0) == p / w * total
  {
    MulDivSwap(p, w, 100.0);
    var f := p / w;
    var g := total / 100.0;
    assert total == g * 100.0;
    assert f * 100.0 * g == f * (g * 100.0);
  }

  lemma FractionWithin(p: real, w: real, total: real)
    requires w > 0.0 && 0.0 <= p <= w && total >= 0.0
    ensures 0.0 <= p / w * total <= total
  {
    var f := p / w;
    assert f * w == p;
    assert 0.0 <= f <= 1.0;
    assert total - f * total == (1.0 - f) * total;
  }

  lemma ScaledWithinTotal(p: real, w: real, total: real)
    requires w > 0.0 && 0.0 <= p <= w && total >= 0.0
    ensures 0.0 <= p * 100.0 / w * (total / 100.0) <= total
  {
    HoverScale(p, w, total);
    FractionWithin(p, w, total);
  }

  /** Over the track, the hover time lies between 0 and the total. */
  lemma HoverSecondsWithin(seekHoverPosition: real, trackWidth: real, total: real)
    requires trackWidth > 0.0 && 0.0 <= seekHoverPosition <= trackWidth && total >= 0.0
    ensures 0 <= HoverSeconds(seekHoverPosition, trackWidth, total)
    ensures HoverSeconds(seekHoverPosition, trackWidth, total) as real <= total
  {
    ScaledWithinTotal(seekHoverPosition, trackWidth, total);
  }

  lemma SmallTimeFields(t: nat)
    requires t < 3600
    ensures SecondsToTime(t as real) == Time("0", ZeroPad(t / 60), ZeroPad(t % 60))
  {
    assert Round(t as real + TimeOffset) == t;
  }

  /** The tooltip format for totals under a minute reads back as `t`. */
  lemma SecondsFormatReadsBack(t: nat)
    requires t < 60
    ensures ParseClock(DefaultSecondsPrefix + SecondsToTime(t as real).ss) == Some(t)
  {
    SmallTimeFields(t);
    ZeroPadValue(0);
    ZeroPadValue(t);
    assert ZeroPad(0) == "00";
    assert DefaultSecondsPrefix + ZeroPad(t) == "00" + ":" + "00" + ":" + ZeroPad(t);
    ParseThreeFields("00", "00", ZeroPad(t));
  }

  /** The tooltip format for totals under an hour reads back as `t`. */
  lemma MinutesFormatReadsBack(t: nat)
    requires t < 3600
    ensures var times := SecondsToTime(t as real);
      ParseClock(DefaultMinutesPrefix + times.mm + ":" + times.ss) == Some(t)
  {
    SmallTimeFields(t);
    var mm, ss := t / 60, t % 60;
    ZeroPadValue(0);
    ZeroPadValue(mm);
    ZeroPadValue(ss);
    assert ZeroPad(0) == "00";
    assert DefaultMinutesPrefix + ZeroPad(mm) + ":" + ZeroPad(ss)
        == "00" + ":" + ZeroPad(mm) + ":" + ZeroPad(ss);
    ParseThreeFields("00", ZeroPad(mm), ZeroPad(ss));
    assert (0 * 60 + mm) * 60 + ss == t;
  }

  /** The full tooltip format reads back as `t`. */
  lemma HoursFormatReadsBack(t: nat)
    ensures var times := SecondsToTime(t as real);
      ParseClock(times.hh + ":" + times.mm + ":" + times.ss) == Some(t)
  {
    assert Round(t as real + TimeOffset) == t;
    SecondsToTimeSplits(t as real);
    var times := SecondsToTime(t as real);
    ParseThreeFields(times.hh, times.mm, times.ss);
  }

  /** With the default prefixes, reading the tooltip back as a clock gives the
      hover time, in each of the three formats. */
  lemma HoverTimeReadsBack(seekHoverPosition: real, trackWidth: real, total: real)
    requires trackWidth > 0.0 && 0.0 <= seekHoverPosition <= trackWidth && total >= 0.0
    ensures ParseClock(HoverTime(seekHoverPosition, trackWidth, total, DefaultSecondsPrefix, DefaultMinutesPrefix))
         == Some(HoverSeconds(seekHoverPosition, trackWidth, total))
  {
    HoverSecondsWithin(seekHoverPosition, trackWidth, total);
    var t: nat := HoverSeconds(seekHoverPosition, trackWidth, total);
    if total < 60.0 {
      SecondsFormatReadsBack(t);
    } else if total < 3600.0 {
      MinutesFormatReadsBack(t);
    } else {
      HoursFormatReadsBack(t);
    }
  }

  // ---- geometry ----

  /** `this.props.scale || 1`: a missing or zero scale counts as 1. */
  function EffectiveScale(scale: Option<real>): (r: real)
    ensures r != 0.0
    ensures scale.Some? && scale.value != 0.0 ==> r == scale.value
    ensures scale.None? || scale.value == 0.0 ==> r == 1.0
  {
    if scale.Some? && scale.value != 0.0 then scale.value else 1.0
  }

  /** The drag position of `changeCurrentTimePosition`, clamped to the track. */
  function DragPosition(pageX: real, left: real, scale: Option<real>, trackWidth: real): (position: real)
    requires trackWidth >= 0.0
    ensures 0.0 <= position <= trackWidth
    ensures var raw := (pageX - left) / EffectiveScale(scale);
      && (0.0 <= raw <= trackWidth ==> position == raw)
      && (raw < 0.0 ==> position == 0.0)
      && (raw > trackWidth ==> position == trackWidth)
  {
    var raw := (pageX - left) / EffectiveScale(scale);
    var atLeastZero := if raw < 0.0 then 0.0 else raw;
    if atLeastZero < trackWidth then atLeastZero else trackWidth
  }

  /** The time `onChange` receives: position / trackWidth of the total, rounded.
      With a zero track width the quotient is NaN, shown here as None. */
  function SliderTime(position: real, trackWidth: real, total: real): (r: Option<int>)
    ensures r.None? <==> trackWidth == 0.0
    ensures trackWidth != 0.0 && position == 0.0 ==> r == Some(0)
    ensures trackWidth != 0.0 && position == trackWidth ==> r == Some(Round(total))
  {
    if trackWidth == 0.0 then None
    else
      assert position == trackWidth ==> position / trackWidth == 1.0;
      Some(Round(position / trackWidth * total))
  }

  lemma RoundMonotone(x: real, y: real)
    requires x <= y
    ensures Round(x) <= Round(y)
  {
  }

  lemma SliderTimeWithinTotal(p: real, trackWidth: real, total: real)
    requires trackWidth > 0.0 && 0.0 <= p <= trackWidth && total >= 0.0
    ensures var t := SliderTime(p, trackWidth, total);
      t.Some? && 0 <= t.value <= Round(total)
      && (total == total.Floor as real ==> t.value as real <= total)
  {
    FractionWithin(p, trackWidth, total);
    var y := p / trackWidth * total;
    RoundMonotone(0.0, y);
    RoundMonotone(y, total);
    assert Round(0.0) == 0;
    assert total == total.Floor as real ==> Round(total) == total.Floor;
  }

  /** A drag on a laid-out track emits a time between 0 and the rounded total
      (the total itself when it is a whole number). */
  lemma DragTimeWithinTotal(pageX: real, left: real, scale: Option<real>, trackWidth: real, total: real)
    requires trackWidth > 0.0 && total >= 0.0
    ensures var t := SliderTime(DragPosition(pageX, left, scale, trackWidth), trackWidth, total);
      t.Some? && 0 <= t.value <= Round(total)
      && (total == total.Floor as real ==> t.value as real <= total)
  {
    SliderTimeWithinTotal(DragPosition(pageX, left, scale, trackWidth), trackWidth, total);
  }

  /** `getPositionStyle`: the fraction of the track filled up to `time`; the
      hover fill (`getSeekHoverPosition`) is the same with the hover position
      over the track width. */
  function ProgressScale(time: real, total: real): (r: real)
    requires total != 0.0
    ensures r == time / total
  {
    (time * 100.0 / total) / 100.0
  }

  lemma DivByQuotient(w: real, total: real, current: real)
    requires total != 0.0 && current != 0.0
    ensures w / (total / current) == w * current / total
  {
    var q := total / current;
    assert q * current == total;
    assert q != 0.0;
    var r := w / q;
    assert r * q == w;
    assert r * total == r * q * current;
    assert r * total == w * current;
  }

  /** `getThumbHandlerPosition`: `trackWidth / (total / current)`; at current 0
      the divisor is infinite and the offset 0. */
  function ThumbPosition(trackWidth: real, total: real, current: real): (r: real)
    requires total != 0.0
    ensures r == trackWidth * current / total
    ensures 0.0 <= current <= total && trackWidth >= 0.0 ==> 0.0 <= r <= trackWidth
  {
    if current == 0.0 then 0.0
    else
      DivByQuotient(trackWidth, total, current);
      MulDivSwap(current, total, trackWidth);
      assert trackWidth * current == current * trackWidth;
      if 0.0 <= current <= total && trackWidth >= 0.0 then
        FractionWithin(current, total, trackWidth);
        trackWidth / (total / current)
      else
        trackWidth / (total / current)
  }

  /** `getHoverTimePosition`: the tooltip's left offset, centred on the hover
      position; with `limitTimeTooltipBySides` it is kept inside the track.
      Without a rendered tooltip (`tooltipWidth == None`) the offset is 0. */
  function HoverTimePosition(seekHoverPosition: real, tooltipWidth: Option<real>, trackWidth: real,
                             limitTimeTooltipBySides: bool): (r: real)
    ensures tooltipWidth.None? ==> r == 0.0
    ensures tooltipWidth.Some? && !limitTimeTooltipBySides ==> r == seekHoverPosition - tooltipWidth.value / 2.0
    ensures tooltipWidth.Some? && limitTimeTooltipBySides && 0.0 <= tooltipWidth.value <= trackWidth ==>
      0.0 <= r && r + tooltipWidth.value <= trackWidth
    ensures tooltipWidth.Some? && limitTimeTooltipBySides ==>
      var centred := seekHoverPosition - tooltipWidth.value / 2.0;
      && (centred < 0.0 ==> r == 0.0)
      && (0.0 <= centred && centred + tooltipWidth.value > trackWidth ==> r == trackWidth - tooltipWidth.value)
      && (0.0 <= centred && centred + tooltipWidth.value <= trackWidth ==> r == centred)
  {
    match tooltipWidth
    case None => 0.0
    case Some(w) =>
      var position := seekHoverPosition - w / 2.0;
      if limitTimeTooltipBySides then
        if position < 0.0 then 0.0
        else if position + w > trackWidth then trackWidth - w
        else position
      else position
  }

  /** The page x used by `handleTouchSeeking`: the last changed touch (0 when
      there is none), with a negative value raised to 0. */
  function TouchPageX(touches: seq<real>): (x: real)
    ensures x >= 0.0
    ensures touches != [] && touches[|touches| - 1] >= 0.0 ==> x == touches[|touches| - 1]
    ensures touches == [] || touches[|touches| - 1] < 0.0 ==> x == 0.0
  {
    var last := if touches == [] then 0.0 else touches[|touches| - 1];
    if last < 0.0 then 0.0 else last
  }

  // ---- the component ----

  datatype SliderCall =
    | CallChange(time: Option<int>)
    | CallPlay
    | CallPause
    | CallSeekStart
    | CallSeekEnd

  /** The track element: its left edge on the page and its `offsetWidth`. */
  datatype TrackBox = TrackBox(left: real, offsetWidth: real)

  function Count(calls: seq<SliderCall>, c: SliderCall): nat
    decreases |calls|
  {
    if calls == [] then 0
    else Count(calls[..|calls| - 1], c) + (if calls[|calls| - 1] == c then 1 else 0)
  }

  /** Every `play` the slider calls comes when it has called `pause` more often
      than `play` before it. */
  ghost predicate PlaysFollowPauses(calls: seq<SliderCall>)
  {
    forall k | 0 <= k < |calls| && calls[k] == CallPlay ::
      Count(calls[..k], CallPlay) < Count(calls[..k], CallPause)
  }

  lemma AppendCall(calls: seq<SliderCall>, x: SliderCall)
    requires PlaysFollowPauses(calls)
    requires x == CallPlay ==> Count(calls, CallPlay) < Count(calls, CallPause)
    ensures PlaysFollowPauses(calls + [x])
    ensures Count(calls + [x], CallPlay) == Count(calls, CallPlay) + (if x == CallPlay then 1 else 0)
    ensures Count(calls + [x], CallPause) == Count(calls, CallPause) + (if x == CallPause then 1 else 0)
  {
    var s := calls + [x];
    assert s[..|s| - 1] == calls;
    forall k | 0 <= k < |s| && s[k] == CallPlay
      ensures Count(s[..k], CallPlay) < Count(s[..k], CallPause)
    {
      if k < |calls| {
        assert s[..k] == calls[..k];
      } else {
        assert s[..k] == calls;
      }
    }
  }

  /** A slider never calls `play` more often than `pause`. */
  lemma {:induction false} PlaysNeverExceedPauses(calls: seq<SliderCall>)
    requires PlaysFollowPauses(calls)
    ensures Count(calls, CallPlay) <= Count(calls, CallPause)
    decreases |calls|
  {
    if calls != [] {
      var init := calls[..|calls| - 1];
      assert PlaysFollowPauses(init) by {
        forall k | 0 <= k < |init| && init[k] == CallPlay
          ensures Count(init[..k], CallPlay) < Count(init[..k], CallPause)
        {
          assert init[..k] == calls[..k];
        }
      }
      PlaysNeverExceedPauses(init);
    }
  }

  class SeekSlider {
    // props
    const scale: Option<real>
    const hasPlay: bool
    const hasPause: bool
    const hasSeekStart: bool
    const hasSeekEnd: bool
    const limitTimeTooltipBySides: bool
    var total: real
    // instance fields
    var track: Option<TrackBox>
    var seeking: bool
    var mobileSeeking: bool
    var secondsPrefix: string
    var minutesPrefix: string
    var seekPause: bool
    // React state
    var trackWidth: real
    var seekHoverPosition: real
    /** The calls made to the callback props so far. */
    var calls: seq<SliderCall>

    ghost predicate Valid()
      reads this
    {
      && trackWidth >= 0.0
      && (track.Some? ==> track.value.offsetWidth >= 0.0)
      && PlaysFollowPauses(calls)
      && (seekPause ==> Count(calls, CallPlay) < Count(calls, CallPause))
    }

    /** The drag flags. */
    function Flags(): (bool, bool, bool)
      reads this
    {
      (seeking, mobileSeeking, seekPause)
    }

    constructor (total: real, scale: Option<real>, hasPlay: bool, hasPause: bool,
                 hasSeekStart: bool, hasSeekEnd: bool, limitTimeTooltipBySides: bool,
                 secondsPrefix: Option<string>, minutesPrefix: Option<string>)
      ensures Valid()
      ensures this.total == total && this.scale == scale && this.hasPlay == hasPlay && this.hasPause == hasPause
      ensures this.hasSeekStart == hasSeekStart && this.hasSeekEnd == hasSeekEnd
      ensures this.limitTimeTooltipBySides == limitTimeTooltipBySides
      ensures this.secondsPrefix == (if secondsPrefix.Some? && secondsPrefix.value != "" then secondsPrefix.value else DefaultSecondsPrefix)
      ensures this.minutesPrefix == (if minutesPrefix.Some? && minutesPrefix.value != "" then minutesPrefix.value else DefaultMinutesPrefix)
      ensures track == None && Flags() == (false, false, false)
      ensures trackWidth == 0.0 && seekHoverPosition == 0.0 && calls == []
    {
      this.total := total;
      this.scale := scale;
      this.hasPlay := hasPlay;
      this.hasPause := hasPause;
      this.hasSeekStart := hasSeekStart;
      this.hasSeekEnd := hasSeekEnd;
      this.limitTimeTooltipBySides := limitTimeTooltipBySides;
      track := None;
      seeking := false;
      mobileSeeking := false;
      seekPause := false;
      this.secondsPrefix := DefaultSecondsPrefix;
      this.minutesPrefix := DefaultMinutesPrefix;
      new;
      if secondsPrefix.Some? && secondsPrefix.value != "" {
        this.secondsPrefix := secondsPrefix.value;
      }
      if minutesPrefix.Some? && minutesPrefix.value != "" {
        this.minutesPrefix := minutesPrefix.value;
      }
      trackWidth := 0.0;
      seekHoverPosition := 0.0;
      calls := [];
    }

    /** The track element as laid out (the `ref` callback). */
    method SetTrack(box: Option<TrackBox>)
      requires Valid() && (box.Some? ==> box.value.offsetWidth >= 0.0)
      modifies this`track
      ensures Valid() && track == box
    {
      track := box;
    }

    /** `setTrackWidthState`: copy the track's width into the state. */
    method SetTrackWidthState()
      requires Valid()
      modifies this`trackWidth
      ensures Valid()
      ensures trackWidth == if track.Some? then track.value.offsetWidth else old(trackWidth)
    {
      if track.Some? {
        trackWidth := track.value.offsetWidth;
      }
    }

    /** `handleTrackHover`: follow the pointer over the track (not clamped),
        or clear the hover position when it leaves; the width is re-read. */
    method HandleTrackHover(clear: bool, pageX: real)
      requires Valid()
      modifies this`seekHoverPosition, this`trackWidth
      ensures Valid()
      ensures track.None? ==> seekHoverPosition == old(seekHoverPosition) && trackWidth == old(trackWidth)
      ensures track.Some? ==> trackWidth == track.value.offsetWidth
      ensures track.Some? ==>
        seekHoverPosition == if clear then 0.0 else (pageX - track.value.left) / EffectiveScale(scale)
    {
      if track.Some? {
        var position := if clear then 0.0 else (pageX - track.value.left) / EffectiveScale(scale);
        seekHoverPosition := position;
        trackWidth := track.value.offsetWidth;
      }
    }

    /** The `onChange` report a move to `pageX` makes when a drag is in
        progress (`dragging`): none without a laid-out track. */
    function DragMove(dragging: bool, pageX: real): seq<SliderCall>
      requires Valid()
      reads this
    {
      if dragging && track.Some? then
        [CallChange(SliderTime(DragPosition(pageX, track.value.left, scale, trackWidth), trackWidth, total))]
      else []
    }

    /** The hover position after such a move. */
    function MovedHover(dragging: bool, pageX: real): real
      requires Valid()
      reads this
    {
      if dragging && track.Some? then DragPosition(pageX, track.value.left, scale, trackWidth)
      else seekHoverPosition
    }

    /** `changeCurrentTimePosition`: move the hover position to the clamped
        drag position and report the time under it. */
    method ChangeCurrentTimePosition(pageX: real)
      requires Valid()
      modifies this`seekHoverPosition, this`calls
      ensures Valid()
      ensures seekHoverPosition == old(MovedHover(true, pageX))
      ensures calls == old(calls) + old(DragMove(true, pageX))
    {
      if track.Some? {
        var position := DragPosition(pageX, track.value.left, scale, trackWidth);
        seekHoverPosition := position;
        AppendCall(calls, CallChange(SliderTime(position, trackWidth, total)));
        calls := calls + [CallChange(SliderTime(position, trackWidth, total))];
      }
    }

    /** `handleSeeking` (window mousemove): only while a mouse drag is on. */
    method HandleSeeking(pageX: real)
      requires Valid()
      modifies this`seekHoverPosition, this`calls
      ensures Valid()
      ensures seekHoverPosition == old(MovedHover(seeking, pageX))
      ensures calls == old(calls) + old(DragMove(seeking, pageX))
    {
      if seeking {
        ChangeCurrentTimePosition(pageX);
      }
    }

    /** `handleTouchSeeking` (window touchmove): only while a touch drag is on. */
    method HandleTouchSeeking(changedTouches: seq<real>)
      requires Valid()
      modifies this`seekHoverPosition, this`calls
      ensures Valid()
      ensures seekHoverPosition == old(MovedHover(mobileSeeking, TouchPageX(changedTouches)))
      ensures calls == old(calls) + old(DragMove(mobileSeeking, TouchPageX(changedTouches)))
    {
      var pageX := 0.0;
      var i := 0;
      while i < |changedTouches|
        invariant 0 <= i <= |changedTouches|
        invariant pageX == if i == 0 then 0.0 else changedTouches[i - 1]
      {
        pageX := changedTouches[i];
        i := i + 1;
      }
      pageX := if pageX < 0.0 then 0.0 else pageX;
      if mobileSeeking {
        ChangeCurrentTimePosition(pageX);
      }
    }

    /** `setSeeking`: apply the move under the old flag, then set the flag;
        ending a drag puts the hover position back to 0. */
    method SetSeeking(state: bool, pageX: real)
      requires Valid()
      modifies this`seeking, this`seekHoverPosition, this`calls
      ensures Valid() && seeking == state
      ensures seekHoverPosition == if state then old(MovedHover(seeking, pageX)) else 0.0
      ensures calls == old(calls) + old(DragMove(seeking, pageX))
    {
      HandleSeeking(pageX);
      seeking := state;
      if !state {
        seekHoverPosition := 0.0;
      }
    }

    /** `setMobileSeeking`: set the flag; ending a touch drag resets the hover position. */
    method SetMobileSeeking(state: bool)
      requires Valid()
      modifies this`mobileSeeking, this`seekHoverPosition
      ensures Valid() && mobileSeeking == state
      ensures seekHoverPosition == if state then old(seekHoverPosition) else 0.0
    {
      mobileSeeking := state;
      if !state {
        seekHoverPosition := 0.0;
      }
    }

    /** The first step of `onMouseDown`: pause the player (and remember
        doing so) only if a `pause` prop is given and the player is not paused. */
    method PauseForSeek(paused: bool)
      requires Valid()
      modifies this`seekPause, this`calls
      ensures Valid()
      ensures seekPause == (old(seekPause) || (hasPause && !paused))
      ensures calls == old(calls) + (if hasPause && !paused then [CallPause] else [])
    {
      if hasPause && !paused {
        PlaysNeverExceedPauses(calls);
        AppendCall(calls, CallPause);
        calls := calls + [CallPause];
        seekPause := true;
      }
    }

    /** The last step of `onMouseDown`: report the start of the drag. */
    method ReportSeekStart()
      requires Valid()
      modifies this`calls
      ensures Valid()
      ensures calls == old(calls) + (if hasSeekStart then [CallSeekStart] else [])
    {
      if hasSeekStart {
        AppendCall(calls, CallSeekStart);
        calls := calls + [CallSeekStart];
      }
    }

    /** `onMouseDown`: the pause step, then start the drag and report it. */
    method OnMouseDown(paused: bool, pageX: real)
      requires Valid()
      modifies this`seeking, this`seekPause, this`seekHoverPosition, this`calls
      ensures Valid() && seeking
      ensures seekPause == (old(seekPause) || (hasPause && !paused))
      ensures seekHoverPosition == old(MovedHover(seeking, pageX))
      ensures calls == old(calls) + (if hasPause && !paused then [CallPause] else [])
                                  + old(DragMove(seeking, pageX))
                                  + (if hasSeekStart then [CallSeekStart] else [])
    {
      PauseForSeek(paused);
      SetSeeking(true, pageX);
      ReportSeekStart();
    }

    /** `onMouseUp`: resume the player only if this slider paused it, then
        report the end of the drag. */
    method OnMouseUp()
      requires Valid()
      modifies this`seekPause, this`calls
      ensures Valid()
      ensures seekPause == (old(seekPause) && !hasPlay)
      ensures calls == old(calls) + (if old(seekPause) && hasPlay then [CallPlay] else [])
                                  + (if hasSeekEnd then [CallSeekEnd] else [])
    {
      ResumeAfterSeek();
      ReportSeekEnd();
    }

    /** The first step of `onMouseUp`. */
    method ResumeAfterSeek()
      requires Valid()
      modifies this`seekPause, this`calls
      ensures Valid()
      ensures seekPause == (old(seekPause) && !hasPlay)
      ensures calls == old(calls) + (if old(seekPause) && hasPlay then [CallPlay] else [])
    {
      if hasPlay && seekPause {
        AppendCall(calls, CallPlay);
        calls := calls + [CallPlay];
        seekPause := false;
      }
    }

    /** The last step of `onMouseUp`. */
    method ReportSeekEnd()
      requires Valid()
      modifies this`calls
      ensures Valid()
      ensures calls == old(calls) + (if hasSeekEnd then [CallSeekEnd] else [])
    {
      if hasSeekEnd {
        AppendCall(calls, CallSeekEnd);
        calls := calls + [CallSeekEnd];
      }
    }

    /** `mouseSeekingHandler` (window mouseup): end the drag, then `onMouseUp`. */
    method MouseSeekingHandler(pageX: real)
      requires Valid()
      modifies this`seeking, this`seekPause, this`seekHoverPosition, this`calls
      ensures Valid() && !seeking && seekHoverPosition == 0.0
      ensures seekPause == (old(seekPause) && !hasPlay)
      ensures calls == old(calls) + old(DragMove(seeking, pageX))
                                  + (if old(seekPause) && hasPlay then [CallPlay] else [])
                                  + (if hasSeekEnd then [CallSeekEnd] else [])
    {
      SetSeeking(false, pageX);
      OnMouseUp();
    }

    /** `mobileTouchSeekingHandler` (window touchend). */
    method MobileTouchSeekingHandler()
      requires Valid()
      modifies this`mobileSeeking, this`seekHoverPosition
      ensures Valid() && !mobileSeeking && seekHoverPosition == 0.0
    {
      SetMobileSeeking(false);
    }

    /** The track's `onTouchStart`: start a touch drag, then as `onMouseDown`. */
    method OnTouchStart(paused: bool, pageX: real)
      requires Valid()
      modifies this`mobileSeeking, this`seeking, this`seekPause, this`seekHoverPosition, this`calls
      ensures Valid() && mobileSeeking && seeking
      ensures seekPause == (old(seekPause) || (hasPause && !paused))
      ensures seekHoverPosition == old(MovedHover(seeking, pageX))
      ensures calls == old(calls) + (if hasPause && !paused then [CallPause] else [])
                                  + old(DragMove(seeking, pageX))
                                  + (if hasSeekStart then [CallSeekStart] else [])
    {
      SetMobileSeeking(true);
      OnMouseDown(paused, pageX);
    }

    /** `isThumbActive`. */
    predicate IsThumbActive()
      reads this
    {
      seekHoverPosition > 0.0 || seeking
    }
  }

  /** Once a mouse or touch drag has ended, the thumb is active only while a
      mouse drag is still on. */
  method EndedDragDeactivatesThumb(s: SeekSlider, pageX: real) returns (active: bool)
    requires s.Valid()
    modifies s
    ensures !active
  {
    s.MouseSeekingHandler(pageX);
    s.MobileTouchSeekingHandler();
    active := s.IsThumbActive();
  }
}
