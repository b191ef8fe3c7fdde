/**
 * The RTC audio-effect mixing controller: it keeps a native audio-effect engine
 * (the "RTC client", shared by every caller in the process) in step with a
 * video.js player. The engine is seen only through the commands sent to it,
 * which the model records in order; its replies (the play acknowledgement, the
 * reported effect position) and its events (`error`, `effectFinished`) arrive as
 * separate calls, between which any other handler may run.
 *
 * Times in seconds are `real`; the wall clock `Date.now() / 1000` is the
 * parameter `now`; the player's `currentTime()` at the moment a position report
 * arrives is the parameter `jsTime`.
 */
module RTCEffectPlugin {
  import opened Wrappers
  import opened Clock

  /** The first effect id handed out; later ids count down from it. */
  const FirstEffectId: int := 99999
  /** Lag between player and engine that needs no correction, in seconds. */
  const RtcLagTolerance: real := 0.5
  /** Above this lag (seconds) the engine is sent straight to the player's time. */
  const DirectSeekThreshold: real := 10.0

  datatype PlayState = Idle | Playing | Paused

  /** The per-session record kept in `activeRTCEffectStates`. */
  datatype EffectState = EffectState(
    playState: PlayState,
    previousVideoJSAdvance: real,
    previousSeekTargetTime: real,
    previousBeginSeekTime: real,
    seekEnable: bool)
  {
    /** A correcting seek is in flight: both seek fields are non-zero. */
    predicate IsSeeking() {
      previousSeekTargetTime != 0.0 && previousBeginSeekTime != 0.0
    }
  }

  /** The record a new session starts with. */
  const InitialEffectState: EffectState := EffectState(Idle, 0.0, 0.0, 0.0, false)

  /** A command sent to the audio-effect engine; every command names an effect id. */
  datatype Command =
    | PlayEffect(id: int, path: string, loopCount: int, pitch: int, pan: int, gain: int, publish: bool, startPos: int)
    | ResumeEffect(id: int)
    | PauseEffect(id: int)
    | StopEffect(id: int)
    | SetEffectPosition(id: int, ms: real)
    | GetEffectCurrentPosition(id: int)

  /** The new record and the commands a handler sent, in order. */
  datatype Step = Step(next: EffectState, issued: seq<Command>)

  function Max(x: real, y: real): real { if x < y then y else x }

  /** The player's `play` event. The state becomes Playing when the command is
      sent, before the engine acknowledges it. */
  function Play(s: EffectState, id: int, path: string): (r: Step)
    ensures r.next == s.(playState := Playing)
    ensures |r.issued| <= 1 && (r.issued == [] <==> s.playState == Playing)
    ensures s.playState == Idle ==> r.issued == [PlayEffect(id, path, 0, 1, 0, 100, false, 0)]
    ensures s.playState == Paused ==> r.issued == [ResumeEffect(id)]
  {
    match s.playState
    case Idle => Step(s.(playState := Playing), [PlayEffect(id, path, 0, 1, 0, 100, false, 0)])
    case Paused => Step(s.(playState := Playing), [ResumeEffect(id)])
    case Playing => Step(s, [])
  }

  /** The player's `pause` event: only a playing effect is paused. */
  function Pause(s: EffectState, id: int): (r: Step)
    ensures s.playState == Playing ==> r == Step(s.(playState := Paused), [PauseEffect(id)])
    ensures s.playState != Playing ==> r == Step(s, [])
  {
    if s.playState == Playing then Step(s.(playState := Paused), [PauseEffect(id)]) else Step(s, [])
  }

  /** The engine acknowledged `playEffect`: position correction may start. */
  function PlayAck(s: EffectState): (r: EffectState)
    ensures r.seekEnable && r.(seekEnable := s.seekEnable) == s
  {
    s.(seekEnable := true)
  }

  /** The player's `timeupdate` event: ask the engine for its position, but only
      while playing and after the first play was acknowledged. */
  function TimeUpdate(s: EffectState, id: int): (r: seq<Command>)
    ensures r != [] <==> s.playState == Playing && s.seekEnable
    ensures r != [] ==> r == [GetEffectCurrentPosition(id)]
  {
    if s.playState == Playing && s.seekEnable then [GetEffectCurrentPosition(id)] else []
  }

  /** `startRTCEffectSeek`: send the engine to `second` and remember when and where. */
  function StartSeek(s: EffectState, id: int, second: real, now: real): (r: Step)
    ensures r.issued == [SetEffectPosition(id, second * 1000.0)]
    ensures r.next.previousSeekTargetTime == second && r.next.previousBeginSeekTime == now
    ensures r.next.(previousSeekTargetTime := s.previousSeekTargetTime,
                    previousBeginSeekTime := s.previousBeginSeekTime) == s
  {
    Step(s.(previousBeginSeekTime := now, previousSeekTargetTime := second), [SetEffectPosition(id, second * 1000.0)])
  }

  /** A position report is thrown away: a seek has not yet reached its target,
      the effect is no longer playing, or the engine reported no position. */
  predicate Discards(s: EffectState, ms: real)
  {
    (s.IsSeeking() && ms / 1000.0 < s.previousSeekTargetTime) || s.playState != Playing || ms <= 0.0
  }

  /** The reply to `getEffectCurrentPosition`: the engine is at `ms` milliseconds,
      the player at `jsTime` seconds, the wall clock reads `now` seconds. */
  function Position(s: EffectState, id: int, ms: real, jsTime: real, now: real): (r: Step)
    ensures Discards(s, ms) ==> r == Step(s, [])
    ensures r.next.playState == s.playState && r.next.seekEnable == s.seekEnable
    ensures |r.issued| <= 1
    ensures forall c | c in r.issued :: c.SetEffectPosition? && c.id == id
    ensures r.issued != [] ==>
              (r.next.previousBeginSeekTime == now && r.issued[0].ms == r.next.previousSeekTargetTime * 1000.0)
    ensures r.next.previousVideoJSAdvance != s.previousVideoJSAdvance ==> r.next.previousVideoJSAdvance >= 0.0
  {
    var rtcEffectTime := ms / 1000.0;
    var isSeeking := s.IsSeeking();
    if isSeeking && rtcEffectTime < s.previousSeekTargetTime then Step(s, [])
    else if s.playState != Playing then Step(s, [])
    else if ms <= 0.0 then Step(s, [])
    else
      var advance := jsTime - rtcEffectTime;
      var absAdvance := Abs(advance);
      if absAdvance > RtcLagTolerance then
        if isSeeking then
          var lastSeekingCost := now - s.previousBeginSeekTime;
          var rtcEffectLag := if advance > 0.0 then advance else 0.0;
          StartSeek(s, id, jsTime + (lastSeekingCost + rtcEffectLag), now)
        else if absAdvance > DirectSeekThreshold then
          StartSeek(s, id, jsTime, now)
        else
          var estimatedRTCLag := Max(s.previousVideoJSAdvance + advance, 0.0);
          StartSeek(s.(previousVideoJSAdvance := estimatedRTCLag), id, jsTime + estimatedRTCLag, now)
      else if isSeeking then
        Step(s.(previousBeginSeekTime := 0.0, previousSeekTargetTime := 0.0), [])
      else
        Step(s, [])
  }

  /** Engine `error`: only the play state is reset. */
  function Error(s: EffectState): (r: EffectState)
    ensures r.playState == Idle && r.(playState := s.playState) == s
  {
    s.(playState := Idle)
  }

  /** Engine `effectFinished`: every field is reset. */
  function Finished(s: EffectState): (r: EffectState)
    ensures r == InitialEffectState
  {
    s.(playState := Idle, previousVideoJSAdvance := 0.0, previousSeekTargetTime := 0.0,
       previousBeginSeekTime := 0.0, seekEnable := false)
  }

  /** The player's `dispose` event: `if (currentState)` is false for Idle (0), so
      only a playing or paused effect is stopped (and its record deleted). */
  function Dispose(s: EffectState, id: int): (r: seq<Command>)
    ensures r != [] <==> s.playState != Idle
    ensures r != [] ==> r == [StopEffect(id)]
  {
    if s.playState != Idle then [StopEffect(id)] else []
  }

  /** An event that reaches a live session and keeps its record. */
  datatype Event =
    | PlayEvent(path: string)
    | PauseEvent
    | PlayAcked
    | TimeUpdateEvent
    | PositionReport(ms: real, jsTime: real, now: real)
    | ErrorEvent
    | FinishedEvent

  function Handle(s: EffectState, id: int, e: Event): Step
  {
    match e
    case PlayEvent(path) => Play(s, id, path)
    case PauseEvent => Pause(s, id)
    case PlayAcked => Step(PlayAck(s), [])
    case TimeUpdateEvent => Step(s, TimeUpdate(s, id))
    case PositionReport(ms, jsTime, now) => Position(s, id, ms, jsTime, now)
    case ErrorEvent => Step(Error(s), [])
    case FinishedEvent => Step(Finished(s), [])
  }

  /** The events in order, from `s`: the final record and every command sent. */
  function Run(s: EffectState, id: int, es: seq<Event>): Step
    decreases |es|
  {
    if es == [] then Step(s, [])
    else
      var before := Run(s, id, es[..|es| - 1]);
      var last := Handle(before.next, id, es[|es| - 1]);
      Step(last.next, before.issued + last.issued)
  }

  /** The lag bias is never negative. */
  predicate BiasSound(s: EffectState) { s.previousVideoJSAdvance >= 0.0 }

  lemma HandleKeepsBiasSound(s: EffectState, id: int, e: Event)
    requires BiasSound(s)
    ensures BiasSound(Handle(s, id, e).next)
  {
  }

  /** Every command a session sends names that session's id. */
  lemma HandleAddressesSession(s: EffectState, id: int, e: Event)
    ensures forall c | c in Handle(s, id, e).issued :: c.id == id
  {
  }

  /** `seekEnable` is switched on by the play acknowledgement and by nothing else. */
  lemma OnlyAckEnablesSeek(s: EffectState, id: int, e: Event)
    requires !s.seekEnable && Handle(s, id, e).next.seekEnable
    ensures e == PlayAcked
  {
  }

  lemma {:induction false} RunKeepsBiasSound(s: EffectState, id: int, es: seq<Event>)
    requires BiasSound(s)
    ensures BiasSound(Run(s, id, es).next)
    decreases |es|
  {
    if es != [] {
      RunKeepsBiasSound(s, id, es[..|es| - 1]);
      HandleKeepsBiasSound(Run(s, id, es[..|es| - 1]).next, id, es[|es| - 1]);
    }
  }

  lemma {:induction false} RunAddressesSession(s: EffectState, id: int, es: seq<Event>)
    ensures forall c | c in Run(s, id, es).issued :: c.id == id
    decreases |es|
  {
    if es != [] {
      RunAddressesSession(s, id, es[..|es| - 1]);
      HandleAddressesSession(Run(s, id, es[..|es| - 1]).next, id, es[|es| - 1]);
    }
  }

  // ---- play / pause sequences ----

  predicate PlayPauseOnly(es: seq<Event>, path: string)
  {
    forall i | 0 <= i < |es| :: es[i] == PlayEvent(path) || es[i] == PauseEvent
  }

  /** The `k`-th command a session sends under play/pause events alone: the
      first is `playEffect` from position 0, then pause and resume alternate. */
  function PlayPauseCommand(id: int, path: string, k: nat): Command
  {
    if k == 0 then PlayEffect(id, path, 0, 1, 0, 100, false, 0)
    else if k % 2 == 1 then PauseEffect(id)
    else ResumeEffect(id)
  }

  /** The play state after `n` commands, starting from Idle. */
  function StateAfter(n: nat): PlayState
  {
    if n == 0 then Idle else if n % 2 == 1 then Playing else Paused
  }

  /**
   * Driven only by `play` and `pause` from Idle, a session sends `playEffect`
   * at most once and first, then alternates `pauseEffect` and `resumeEffect`;
   * a pause while Idle and a repeated play send nothing; the play state is a
   * function of the number of commands sent, and no other field changes.
   */
  lemma {:induction false} PlayPauseAlternate(s: EffectState, id: int, path: string, es: seq<Event>)
    requires s.playState == Idle && PlayPauseOnly(es, path)
    ensures var r := Run(s, id, es);
      && (forall k | 0 <= k < |r.issued| :: r.issued[k] == PlayPauseCommand(id, path, k))
      && r.next == s.(playState := StateAfter(|r.issued|))
    decreases |es|
  {
    if es != [] {
      var init := es[..|es| - 1];
      assert PlayPauseOnly(init, path) by {
        forall i | 0 <= i < |init| ensures init[i] == PlayEvent(path) || init[i] == PauseEvent {
          assert init[i] == es[i];
        }
      }
      PlayPauseAlternate(s, id, path, init);
      var before := Run(s, id, init);
      var n := |before.issued|;
      var last := Handle(before.next, id, es[|es| - 1]);
      assert |last.issued| <= 1;
      if last.issued != [] {
        assert last.issued[0] == PlayPauseCommand(id, path, n);
      }
    }
  }

  // ---- drift correction ----

  /** While seeking, once the engine has reached the target, the seek is
      cleared exactly when the lag is within tolerance; before it has reached
      the target nothing changes. */
  lemma SeekClearsOnlyWithinTolerance(s: EffectState, id: int, ms: real, jsTime: real, now: real)
    requires s.IsSeeking() && s.playState == Playing && ms > 0.0 && now != 0.0
    ensures var r := Position(s, id, ms, jsTime, now);
      && (ms / 1000.0 < s.previousSeekTargetTime ==> r == Step(s, []))
      && (ms / 1000.0 >= s.previousSeekTargetTime ==>
            (!r.next.IsSeeking() && r.issued == [] <==> Abs(jsTime - ms / 1000.0) <= RtcLagTolerance))
  {
  }

  /** Seeking and still outside tolerance: the new target adds the time the last
      seek has taken so far and the positive part of the remaining lag. */
  lemma SeekingReseekTarget(s: EffectState, id: int, ms: real, jsTime: real, now: real)
    requires s.IsSeeking() && s.playState == Playing && ms > 0.0
    requires ms / 1000.0 >= s.previousSeekTargetTime
    requires Abs(jsTime - ms / 1000.0) > RtcLagTolerance
    ensures var target := jsTime + (now - s.previousBeginSeekTime) + Max(jsTime - ms / 1000.0, 0.0);
      Position(s, id, ms, jsTime, now)
        == Step(s.(previousSeekTargetTime := target, previousBeginSeekTime := now),
                [SetEffectPosition(id, target * 1000.0)])
  {
  }

  /** Not seeking and more than ten seconds apart: seek straight to the player's
      time, with no bias, leaving the stored bias alone. */
  lemma GrossDesyncSeeksDirectly(s: EffectState, id: int, ms: real, jsTime: real, now: real)
    requires !s.IsSeeking() && s.playState == Playing && ms > 0.0
    requires Abs(jsTime - ms / 1000.0) > DirectSeekThreshold
    ensures Position(s, id, ms, jsTime, now)
        == Step(s.(previousSeekTargetTime := jsTime, previousBeginSeekTime := now),
                [SetEffectPosition(id, jsTime * 1000.0)])
  {
  }

  /** Not seeking and a normal lag: the bias is the previous bias plus the lag,
      raised to 0; it is stored and added to the player's time. */
  lemma NormalLagCarriesBias(s: EffectState, id: int, ms: real, jsTime: real, now: real)
    requires !s.IsSeeking() && s.playState == Playing && ms > 0.0
    requires RtcLagTolerance < Abs(jsTime - ms / 1000.0) <= DirectSeekThreshold
    ensures var bias := Max(s.previousVideoJSAdvance + (jsTime - ms / 1000.0), 0.0);
      && bias >= 0.0
      && Position(s, id, ms, jsTime, now)
        == Step(s.(previousVideoJSAdvance := bias, previousSeekTargetTime := jsTime + bias,
                   previousBeginSeekTime := now),
                [SetEffectPosition(id, (jsTime + bias) * 1000.0)])
  {
  }

  /** Within tolerance no seek is sent; an in-flight seek is cleared, otherwise
      nothing changes. */
  lemma WithinToleranceSendsNothing(s: EffectState, id: int, ms: real, jsTime: real, now: real)
    requires !Discards(s, ms) && Abs(jsTime - ms / 1000.0) <= RtcLagTolerance
    ensures var r := Position(s, id, ms, jsTime, now);
      && r.issued == []
      && r.next == (if s.IsSeeking() then s.(previousSeekTargetTime := 0.0, previousBeginSeekTime := 0.0) else s)
  {
  }

  /** No correction sends the engine behind the player, provided the wall
      clock has not gone back since the last seek began. */
  lemma SeekNeverBehindPlayer(s: EffectState, id: int, ms: real, jsTime: real, now: real)
    requires now >= s.previousBeginSeekTime
    ensures var r := Position(s, id, ms, jsTime, now);
      r.issued != [] ==> r.next.previousSeekTargetTime >= jsTime
  {
  }

  /** The pairing of the two seek fields is not an invariant of the code: a
      gross-desync seek to player time 0 leaves the target 0 and the begin time
      set, so the session counts as not seeking. */
  lemma SeekToZeroIsNotSeeking(id: int)
    ensures var r := Position(InitialEffectState.(playState := Playing), id, 20000.0, 0.0, 5.0);
      r.issued == [SetEffectPosition(id, 0.0)]
      && r.next.previousBeginSeekTime == 5.0 && !r.next.IsSeeking()
  {
  }

  // ---- the `ready` callback ----

  /** The tag's `src` attribute, or "" when it is missing. This is the path sent
      with `playEffect`: inside the callback it shadows the setup parameter. */
  function TagSource(tagSrc: Option<string>): (r: string)
    ensures tagSrc.Some? ==> r == tagSrc.value
    ensures tagSrc.None? ==> r == ""
  {
    tagSrc.GetOr("")
  }

  /** The source is played by the player itself (not muted) when it ends in
      "mp3", "wav" or "m4a" (no dot is required). */
  predicate IsAudio(src: string)
  {
    EndsWith(src, "mp3") || EndsWith(src, "wav") || EndsWith(src, "m4a")
  }

  /** The player's mute control: its muted flag and whether `muted` has been
      replaced by the hook that ignores its argument and returns false. */
  datatype LocalMute = LocalMute(muted: bool, hooked: bool)

  /** A call `player.muted(arg)` (`arg == None` reads). The video.js setter
      returns nothing and the getter the flag; once hooked every call returns
      false and changes nothing. */
  function MutedCall(m: LocalMute, arg: Option<bool>): (r: (LocalMute, Option<bool>))
    ensures r.0.hooked == m.hooked
    ensures m.hooked ==> r == (m, Some(false))
    ensures !m.hooked && arg.Some? ==> r.0.muted == arg.value && r.1.None?
    ensures !m.hooked && arg.None? ==> r == (m, Some(m.muted))
  {
    if m.hooked then (m, Some(false))
    else match arg
      case Some(b) => (m.(muted := b), None)
      case None => (m, Some(m.muted))
  }

  /** The muting step of the `ready` callback. */
  function ReadyMute(m: LocalMute, src: string): (r: LocalMute)
    ensures IsAudio(src) ==> r == m
    ensures !IsAudio(src) ==> r.hooked && (!m.hooked ==> r.muted)
  {
    if IsAudio(src) then m else MutedCall(m, Some(true)).0.(hooked := true)
  }

  /** A sequence of calls to `player.muted`: the final control and each result. */
  function MutedCalls(m: LocalMute, args: seq<Option<bool>>): (LocalMute, seq<Option<bool>>)
    decreases |args|
  {
    if args == [] then (m, [])
    else
      var first := MutedCall(m, args[0]);
      var rest := MutedCalls(first.0, args[1..]);
      (rest.0, [first.1] + rest.1)
  }

  /** After `ready` on a non-audio source (`ready` fires once, on a player not
      yet hooked) the player stays muted whatever is later passed to `muted`,
      and every such call answers false. */
  lemma {:induction false} HookedPlayerStaysMuted(m: LocalMute, src: string, args: seq<Option<bool>>)
    requires !IsAudio(src) && !m.hooked
    ensures var r := MutedCalls(ReadyMute(m, src), args);
      r.0.muted && |r.1| == |args| && forall i | 0 <= i < |r.1| :: r.1[i] == Some(false)
  {
    HookIgnoresCalls(ReadyMute(m, src), args);
  }

  lemma {:induction false} HookIgnoresCalls(m: LocalMute, args: seq<Option<bool>>)
    requires m.hooked
    ensures var r := MutedCalls(m, args);
      r.0 == m && |r.1| == |args| && forall i | 0 <= i < |r.1| :: r.1[i] == Some(false)
    decreases |args|
  {
    if args != [] {
      HookIgnoresCalls(m, args[1..]);
    }
  }

  /**
   * The module's global state: the id counter, the map of live session records
   * and, standing for the engine, the log of commands sent to it.
   */
  class RTCEffectRegistry {
    var assignableRtcEffectId: int
    var activeRTCEffectStates: map<int, EffectState>
    var issued: seq<Command>

    /** Ids of live records and of all commands lie above the counter, so the
        counter never hands out a live id again; every bias is non-negative. */
    ghost predicate Valid()
      reads this
    {
      && assignableRtcEffectId <= FirstEffectId
      && (forall id | id in activeRTCEffectStates ::
            assignableRtcEffectId < id <= FirstEffectId && BiasSound(activeRTCEffectStates[id]))
      && (forall i | 0 <= i < |issued| :: assignableRtcEffectId < issued[i].id <= FirstEffectId)
    }

    constructor ()
      ensures Valid()
      ensures assignableRtcEffectId == FirstEffectId && activeRTCEffectStates == map[] && issued == []
    {
      assignableRtcEffectId := FirstEffectId;
      activeRTCEffectStates := map[];
      issued := [];
    }

    /** `createRTCEffectObject`: hand out the counter's value, count down, and
        store a fresh Idle record under the id. */
    method CreateRTCEffectObject() returns (playingId: int)
      requires Valid()
      modifies this
      ensures Valid()
      ensures playingId == old(assignableRtcEffectId) && playingId !in old(activeRTCEffectStates)
      ensures assignableRtcEffectId == old(assignableRtcEffectId) - 1
      ensures activeRTCEffectStates == old(activeRTCEffectStates)[playingId := InitialEffectState]
      ensures issued == old(issued)
    {
      playingId := assignableRtcEffectId;
      assignableRtcEffectId := assignableRtcEffectId - 1;
      activeRTCEffectStates := activeRTCEffectStates[playingId := InitialEffectState];
    }

    /** The `ready` callback: classify the tag's source, mute and hook a
        non-audio player, and create the session. Returns the session id and
        the path the session's `play` handler sends. */
    method Ready(tagSrc: Option<string>, mute: LocalMute) returns (playingId: int, path: string, mute': LocalMute)
      requires Valid()
      modifies this
      ensures Valid()
      ensures path == TagSource(tagSrc) && mute' == ReadyMute(mute, path)
      ensures playingId == old(assignableRtcEffectId) && playingId !in old(activeRTCEffectStates)
      ensures assignableRtcEffectId == old(assignableRtcEffectId) - 1
      ensures activeRTCEffectStates == old(activeRTCEffectStates)[playingId := InitialEffectState]
      ensures issued == old(issued)
    {
      path := TagSource(tagSrc);
      mute' := ReadyMute(mute, path);
      playingId := CreateRTCEffectObject();
    }

    /** Apply a handler's step to the record of `id` and send its commands. */
    method Apply(id: int, r: Step)
      requires Valid() && id in activeRTCEffectStates && BiasSound(r.next)
      requires forall c | c in r.issued :: c.id == id
      modifies this
      ensures Valid()
      ensures activeRTCEffectStates == old(activeRTCEffectStates)[id := r.next]
      ensures issued == old(issued) + r.issued
      ensures assignableRtcEffectId == old(assignableRtcEffectId)
    {
      activeRTCEffectStates := activeRTCEffectStates[id := r.next];
      issued := issued + r.issued;
    }

    method OnEvent(id: int, e: Event)
      requires Valid() && id in activeRTCEffectStates
      modifies this
      ensures Valid()
      ensures activeRTCEffectStates == old(activeRTCEffectStates)[id := Handle(old(activeRTCEffectStates[id]), id, e).next]
      ensures issued == old(issued) + Handle(old(activeRTCEffectStates[id]), id, e).issued
      ensures assignableRtcEffectId == old(assignableRtcEffectId)
    {
      var r := Handle(activeRTCEffectStates[id], id, e);
      HandleKeepsBiasSound(activeRTCEffectStates[id], id, e);
      HandleAddressesSession(activeRTCEffectStates[id], id, e);
      Apply(id, r);
    }

    /** Engine `error` for `soundId`. */
    method OnError(soundId: int)
      requires Valid() && soundId in activeRTCEffectStates
      modifies this
      ensures Valid()
      ensures activeRTCEffectStates == old(activeRTCEffectStates)[soundId := Error(old(activeRTCEffectStates[soundId]))]
      ensures issued == old(issued) && assignableRtcEffectId == old(assignableRtcEffectId)
    {
      OnEvent(soundId, ErrorEvent);
    }

    /** Engine `effectFinished` for `soundId`. */
    method OnEffectFinished(soundId: int)
      requires Valid() && soundId in activeRTCEffectStates
      modifies this
      ensures Valid()
      ensures activeRTCEffectStates == old(activeRTCEffectStates)[soundId := InitialEffectState]
      ensures issued == old(issued) && assignableRtcEffectId == old(assignableRtcEffectId)
    {
      OnEvent(soundId, FinishedEvent);
    }

    /** The player's `play` event for session `playingId` playing `path`. */
    method OnPlay(playingId: int, path: string)
      requires Valid() && playingId in activeRTCEffectStates
      modifies this
      ensures Valid()
      ensures var r := Play(old(activeRTCEffectStates[playingId]), playingId, path);
        activeRTCEffectStates == old(activeRTCEffectStates)[playingId := r.next]
        && issued == old(issued) + r.issued
      ensures assignableRtcEffectId == old(assignableRtcEffectId)
    {
      OnEvent(playingId, PlayEvent(path));
    }

    /** The acknowledgement of `playEffect` (the promise continuation). */
    method OnPlayAck(playingId: int)
      requires Valid() && playingId in activeRTCEffectStates
      modifies this
      ensures Valid()
      ensures activeRTCEffectStates == old(activeRTCEffectStates)[playingId := PlayAck(old(activeRTCEffectStates[playingId]))]
      ensures issued == old(issued) && assignableRtcEffectId == old(assignableRtcEffectId)
    {
      OnEvent(playingId, PlayAcked);
    }

    /** The player's `pause` event. */
    method OnPause(playingId: int)
      requires Valid() && playingId in activeRTCEffectStates
      modifies this
      ensures Valid()
      ensures var r := Pause(old(activeRTCEffectStates[playingId]), playingId);
        activeRTCEffectStates == old(activeRTCEffectStates)[playingId := r.next]
        && issued == old(issued) + r.issued
      ensures assignableRtcEffectId == old(assignableRtcEffectId)
    {
      OnEvent(playingId, PauseEvent);
    }

    /** The player's `timeupdate` event: possibly a position query, no state change. */
    method OnTimeUpdate(playingId: int)
      requires Valid() && playingId in activeRTCEffectStates
      modifies this
      ensures Valid()
      ensures activeRTCEffectStates == old(activeRTCEffectStates)
      ensures issued == old(issued) + TimeUpdate(old(activeRTCEffectStates[playingId]), playingId)
      ensures assignableRtcEffectId == old(assignableRtcEffectId)
    {
      OnEvent(playingId, TimeUpdateEvent);
    }

    /** The reply to a position query, read against the record as it is now. */
    method OnPosition(playingId: int, rtcEffectMSTime: real, jsTime: real, now: real)
      requires Valid() && playingId in activeRTCEffectStates
      modifies this
      ensures Valid()
      ensures var r := Position(old(activeRTCEffectStates[playingId]), playingId, rtcEffectMSTime, jsTime, now);
        activeRTCEffectStates == old(activeRTCEffectStates)[playingId := r.next]
        && issued == old(issued) + r.issued
      ensures assignableRtcEffectId == old(assignableRtcEffectId)
    {
      OnEvent(playingId, PositionReport(rtcEffectMSTime, jsTime, now));
    }

    /** The player's `dispose` event: a playing or paused effect is stopped and
        its record deleted; an idle one is left as it is. */
    method OnDispose(playingId: int)
      requires Valid() && playingId in activeRTCEffectStates
      modifies this
      ensures Valid()
      ensures issued == old(issued) + Dispose(old(activeRTCEffectStates[playingId]), playingId)
      ensures activeRTCEffectStates ==
        if old(activeRTCEffectStates[playingId]).playState != Idle
        then old(activeRTCEffectStates) - {playingId} else old(activeRTCEffectStates)
      ensures assignableRtcEffectId == old(assignableRtcEffectId)
    {
      var cmds := Dispose(activeRTCEffectStates[playingId], playingId);
      if cmds != [] {
        issued := issued + cmds;
        activeRTCEffectStates := activeRTCEffectStates - {playingId};
      }
    }
  }

  /** Two sessions created one after the other get different ids, both below
      the first id, and each starts Idle with nothing pending. */
  method TwoSessions() returns (a: int, b: int)
    ensures a == FirstEffectId && b == FirstEffectId - 1
  {
    var reg := new RTCEffectRegistry();
    a := reg.CreateRTCEffectObject();
    b := reg.CreateRTCEffectObject();
    assert reg.activeRTCEffectStates[a] == InitialEffectState && reg.activeRTCEffectStates[b] == InitialEffectState;
  }
}
