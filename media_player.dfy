/**
 * The media player component (MediaPlayer.tsx). The shared attributes live in
 * a host-side key/value store that `putAttributes` writes key by key; the
 * user's intents (play, pause, volume, seek, reset at the end) become such
 * writes; `syncPlayerWithAttributes` drives the local video player towards the
 * attributes; a failed `play()` is retried a bounded number of times.
 */
module Player {
  import opened Wrappers
  import opened Clock
  import opened Utils

  /** `options.currentTimeMaxError` (seconds), its default. */
  const CurrentTimeMaxError: real := 1.0
  /** A media error re-initialises the player while `retryCount <= RetryLimit`. */
  const RetryLimit: int := 3

  // ---- the attribute store ----

  datatype Key = MediaType | Src | Poster | HostTime | CurrentTime | Paused | Muted | Volume

  /** A JavaScript value as the store holds it; a missing key reads as `Undefined`. */
  datatype Value = Str(text: string) | Num(number: real) | Bool(flag: bool) | Undefined

  type Store = map<Key, Value>

  /** A partial attribute object, its keys in enumeration order. */
  type Patch = seq<(Key, Value)>

  function Lookup(s: Store, k: Key): Value
  {
    if k in s then s[k] else Undefined
  }

  function Keys(b: Patch): set<Key>
  {
    set i | 0 <= i < |b| :: b[i].0
  }

  /** An object literal names each key once. */
  predicate DistinctKeys(b: Patch)
  {
    forall i, j | 0 <= i < j < |b| :: b[i].0 != b[j].0
  }

  /** The value a patch gives key `k` (its last entry for `k`), if any. */
  function PatchValue(b: Patch, k: Key): (r: Option<Value>)
    ensures r.Some? <==> k in Keys(b)
    ensures r.Some? ==> (k, r.value) in b
    decreases |b|
  {
    if b == [] then None
    else if b[|b| - 1].0 == k then Some(b[|b| - 1].1)
    else
      var r := PatchValue(b[..|b| - 1], k);
      assert Keys(b) == Keys(b[..|b| - 1]) + {b[|b| - 1].0};
      r
  }

  lemma PatchValueOfMember(b: Patch, k: Key, v: Value)
    requires DistinctKeys(b) && (k, v) in b
    ensures PatchValue(b, k) == Some(v)
  {
    var w := PatchValue(b, k).value;
    var i :| 0 <= i < |b| && b[i] == (k, v);
    var j :| 0 <= j < |b| && b[j] == (k, w);
    assert i == j;
  }

  /** The entries of `b` that differ from the store: the `updateAttributes`
      calls `putAttributes` makes, in order. */
  function Changed(a: Store, b: Patch): Patch
    decreases |b|
  {
    if b == [] then []
    else
      var last := b[|b| - 1];
      Changed(a, b[..|b| - 1]) + (if Lookup(a, last.0) != last.1 then [last] else [])
  }

  /** An update is issued exactly for the entries that differ from the store,
      and for no key outside the patch. */
  lemma {:induction false} ChangedSelects(a: Store, b: Patch)
    ensures forall p :: p in Changed(a, b) <==> p in b && Lookup(a, p.0) != p.1
    ensures Keys(Changed(a, b)) <= Keys(b)
    decreases |b|
  {
    if b != [] {
      var init := b[..|b| - 1];
      var last := b[|b| - 1];
      assert b == init + [last];
      ChangedSelects(a, init);
      assert Keys(b) == Keys(init) + {last.0};
    }
  }

  /** The store after a series of `updateAttributes` calls. */
  function Write(s: Store, u: Patch): Store
    decreases |u|
  {
    if u == [] then s else Write(s, u[..|u| - 1])[u[|u| - 1].0 := u[|u| - 1].1]
  }

  /** After writing, a key holds the last value written to it, or its old value. */
  lemma {:induction false} WriteLookup(s: Store, u: Patch, k: Key)
    ensures Lookup(Write(s, u), k) == PatchValue(u, k).GetOr(Lookup(s, k))
    decreases |u|
  {
    if u != [] {
      WriteLookup(s, u[..|u| - 1], k);
    }
  }

  lemma ChangedStep(a: Store, b: Patch, i: int)
    requires 0 <= i < |b|
    ensures Lookup(a, b[i].0) == b[i].1 ==> Changed(a, b[..i + 1]) == Changed(a, b[..i])
    ensures Lookup(a, b[i].0) != b[i].1 ==> Changed(a, b[..i + 1]) == Changed(a, b[..i]) + [(b[i].0, b[i].1)]
  {
    assert b[..i + 1][..i] == b[..i];
    assert Changed(a, b[..i]) + [] == Changed(a, b[..i]);
  }

  lemma WriteSnoc(s: Store, u: Patch, k: Key, v: Value)
    ensures Write(s, u + [(k, v)]) == Write(s, u)[k := v]
  {
    assert (u + [(k, v)])[..|u|] == u;
  }

  /** The store after `putAttributes(b)`. */
  function Put(a: Store, b: Patch): Store
  {
    Write(a, Changed(a, b))
  }

  /** After `putAttributes(b)` every key reads as `b` gives it, or as before. */
  lemma PutLookup(a: Store, b: Patch, k: Key)
    requires DistinctKeys(b)
    ensures Lookup(Put(a, b), k) == PatchValue(b, k).GetOr(Lookup(a, k))
  {
    var c := Changed(a, b);
    WriteLookup(a, c, k);
    ChangedSelects(a, b);
    match PatchValue(c, k)
    case Some(v) =>
      PatchValueOfMember(b, k, v);
    case None =>
      assert forall i | 0 <= i < |c| :: c[i].0 != k;
  }

  /** Afterwards the store agrees with `b` on every key of `b`. */
  lemma PutAgrees(a: Store, b: Patch)
    requires DistinctKeys(b)
    ensures forall i | 0 <= i < |b| :: Lookup(Put(a, b), b[i].0) == b[i].1
  {
    forall i | 0 <= i < |b|
      ensures Lookup(Put(a, b), b[i].0) == b[i].1
    {
      PutLookup(a, b, b[i].0);
      PatchValueOfMember(b, b[i].0, b[i].1);
    }
  }

  /** A key `b` names reads as `b` gives it. */
  lemma PutMember(a: Store, b: Patch, k: Key, v: Value)
    requires DistinctKeys(b) && (k, v) in b
    ensures Lookup(Put(a, b), k) == v
  {
    PutLookup(a, b, k);
    PatchValueOfMember(b, k, v);
  }

  /** Keys that `b` does not name are untouched. */
  lemma PutUntouched(a: Store, b: Patch, k: Key)
    requires k !in Keys(b)
    ensures Lookup(Put(a, b), k) == Lookup(a, k)
  {
    ChangedSelects(a, b);
    WriteLookup(a, Changed(a, b), k);
  }

  /** A patch the store already agrees with issues no update. */
  lemma {:induction false} ChangedEmpty(a: Store, b: Patch)
    requires forall i | 0 <= i < |b| :: Lookup(a, b[i].0) == b[i].1
    ensures Changed(a, b) == []
    decreases |b|
  {
    if b != [] {
      ChangedEmpty(a, b[..|b| - 1]);
    }
  }

  /** Putting the same attributes again issues no update. */
  lemma PutIdempotent(a: Store, b: Patch)
    requires DistinctKeys(b)
    ensures Changed(Put(a, b), b) == []
    ensures Put(Put(a, b), b) == Put(a, b)
  {
    PutAgrees(a, b);
    ChangedEmpty(Put(a, b), b);
    assert Put(Put(a, b), b) == Write(Put(a, b), []);
  }

  /** The typed attribute record, when every field holds a value of its type. */
  function Read(s: Store): Option<Attributes>
  {
    var src := Lookup(s, Src);
    var hostTime := Lookup(s, HostTime);
    var currentTime := Lookup(s, CurrentTime);
    var paused := Lookup(s, Paused);
    var muted := Lookup(s, Muted);
    var volume := Lookup(s, Volume);
    if src.Str? && hostTime.Num? && currentTime.Num? && paused.Bool? && muted.Bool? && volume.Num? then
      Some(Attributes(src.text, hostTime.number, currentTime.number, paused.flag, muted.flag, volume.number))
    else None
  }

  lemma ReadOf(s: Store, a: Attributes)
    requires Lookup(s, Src) == Str(a.src) && Lookup(s, HostTime) == Num(a.hostTime)
    requires Lookup(s, CurrentTime) == Num(a.currentTime) && Lookup(s, Paused) == Bool(a.paused)
    requires Lookup(s, Muted) == Bool(a.muted) && Lookup(s, Volume) == Num(a.volume)
    ensures Read(s) == Some(a)
  {
  }

  /** The attribute record as a patch. */
  function Encode(a: Attributes): Patch
  {
    [(Src, Str(a.src)), (HostTime, Num(a.hostTime)), (CurrentTime, Num(a.currentTime)),
     (Paused, Bool(a.paused)), (Muted, Bool(a.muted)), (Volume, Num(a.volume))]
  }

  /** Reading back what was put gives the record that was put, whatever the
      store held before. */
  lemma ReadEncode(s: Store, a: Attributes)
    ensures Read(Put(s, Encode(a))) == Some(a)
  {
    var b := Encode(a);
    PutMember(s, b, Src, Str(a.src));
    PutMember(s, b, HostTime, Num(a.hostTime));
    PutMember(s, b, CurrentTime, Num(a.currentTime));
    PutMember(s, b, Paused, Bool(a.paused));
    PutMember(s, b, Muted, Bool(a.muted));
    PutMember(s, b, Volume, Num(a.volume));
    ReadOf(Put(s, b), a);
  }

  // ---- user intents ----

  /** A JavaScript number that may be undefined, as a store value. */
  function NumOr(x: Option<real>): Value
  {
    if x.Some? then Num(x.value) else Undefined
  }

  /** `this.props.room?.calibrationTimestamp`. */
  function RoomClock(host: Host): Option<real>
  {
    if host.room.Some? then host.room.value.calibrationTimestamp else None
  }

  function PlayPatch(hostTime: Option<real>): Patch
  {
    [(Paused, Bool(false)), (HostTime, NumOr(hostTime))]
  }

  function PausePatch(currentTime: real): Patch
  {
    [(Paused, Bool(true)), (CurrentTime, Num(currentTime))]
  }

  /** The first of `setVolume`'s two writes. */
  function VolumePatch(volume: real): Patch
  {
    [(Volume, Num(volume))]
  }

  /** The second of `setVolume`'s two writes. */
  function VolumeMutePatch(volume: real): Patch
  {
    [(Volume, Num(volume)), (Muted, Bool(volume == 0.0))]
  }

  /** `setCurrentTime(t)`: `t` is in milliseconds, the attribute in seconds. */
  function SeekPatch(t: real, hostTime: Option<real>): Patch
  {
    [(CurrentTime, Num(t / 1000.0)), (HostTime, NumOr(hostTime))]
  }

  const ResetPatch: Patch := [(Paused, Bool(true)), (CurrentTime, Num(0.0))]

  /** Each field of a successful read. */
  lemma ReadFields(s: Store, a: Attributes)
    requires Read(s) == Some(a)
    ensures Lookup(s, Src) == Str(a.src) && Lookup(s, HostTime) == Num(a.hostTime)
    ensures Lookup(s, CurrentTime) == Num(a.currentTime) && Lookup(s, Paused) == Bool(a.paused)
    ensures Lookup(s, Muted) == Bool(a.muted) && Lookup(s, Volume) == Num(a.volume)
  {
  }

  /** Playing from a paused state at host time `now` resumes from the paused
      position and advances from there. */
  lemma PlayResumesFromPausedPosition(s: Store, a: Attributes, now: real, later: real)
    requires Read(s) == Some(a) && a.paused && now != 0.0 && later != 0.0
    ensures Read(Put(s, PlayPatch(Some(now)))) == Some(a.(paused := false, hostTime := now))
    ensures GetCurrentTime(a.(paused := false, hostTime := now), RoomAt(now)) == GetCurrentTime(a, RoomAt(now))
    ensures GetCurrentTime(a.(paused := false, hostTime := now), RoomAt(later)) == a.currentTime + (later - now) / 1000.0
  {
    var b := PlayPatch(Some(now));
    ReadFields(s, a);
    PutMember(s, b, Paused, Bool(false));
    PutMember(s, b, HostTime, Num(now));
    PutUntouched(s, b, Src);
    PutUntouched(s, b, CurrentTime);
    PutUntouched(s, b, Muted);
    PutUntouched(s, b, Volume);
    ReadOf(Put(s, b), a.(paused := false, hostTime := now));
  }

  /** Pausing stores the position computed at that moment, where it then stays. */
  lemma PauseFreezesPosition(s: Store, a: Attributes, host: Host)
    requires Read(s) == Some(a)
    ensures var frozen := a.(paused := true, currentTime := GetCurrentTime(a, host));
      && Read(Put(s, PausePatch(GetCurrentTime(a, host)))) == Some(frozen)
      && forall later: Host :: GetCurrentTime(frozen, later) == GetCurrentTime(a, host)
  {
    var t := GetCurrentTime(a, host);
    var b := PausePatch(t);
    ReadFields(s, a);
    PutMember(s, b, Paused, Bool(true));
    PutMember(s, b, CurrentTime, Num(t));
    PutUntouched(s, b, Src);
    PutUntouched(s, b, HostTime);
    PutUntouched(s, b, Muted);
    PutUntouched(s, b, Volume);
    ReadOf(Put(s, b), a.(paused := true, currentTime := t));
  }

  /** `setVolume(v)` leaves volume `v`, muted exactly when `v` is 0, and the
      second write does not write the volume again. */
  lemma SetVolumeEffect(s: Store, a: Attributes, v: real)
    requires Read(s) == Some(a)
    ensures Read(Put(Put(s, VolumePatch(v)), VolumeMutePatch(v))) == Some(a.(volume := v, muted := v == 0.0))
    ensures Changed(Put(s, VolumePatch(v)), VolumeMutePatch(v))
         == if a.muted == (v == 0.0) then [] else [(Muted, Bool(v == 0.0))]
  {
    ReadFields(s, a);
    var b1 := VolumePatch(v);
    var s1 := Put(s, b1);
    PutMember(s, b1, Volume, Num(v));
    PutUntouched(s, b1, Src);
    PutUntouched(s, b1, HostTime);
    PutUntouched(s, b1, CurrentTime);
    PutUntouched(s, b1, Paused);
    PutUntouched(s, b1, Muted);
    var b2 := VolumeMutePatch(v);
    PutMember(s1, b2, Volume, Num(v));
    PutMember(s1, b2, Muted, Bool(v == 0.0));
    PutUntouched(s1, b2, Src);
    PutUntouched(s1, b2, HostTime);
    PutUntouched(s1, b2, CurrentTime);
    PutUntouched(s1, b2, Paused);
    ReadOf(Put(s1, b2), a.(volume := v, muted := v == 0.0));
    ChangedOfPair(s1, b2);
  }

  /** The updates a two-key write makes. */
  lemma ChangedOfPair(a: Store, b: Patch)
    requires |b| == 2
    ensures Changed(a, b) == (if Lookup(a, b[0].0) != b[0].1 then [b[0]] else [])
                           + (if Lookup(a, b[1].0) != b[1].1 then [b[1]] else [])
  {
    var b1 := b[..1];
    assert b1[..0] == [] && b1[0] == b[0];
    assert Changed(a, b1) == Changed(a, []) + (if Lookup(a, b[0].0) != b[0].1 then [b[0]] else []);
    assert b[..|b| - 1] == b1;
  }

  /** A seek at host time `now` sets the position to `t` / 1000 seconds at that instant. */
  lemma SeekEffect(s: Store, a: Attributes, t: real, now: real)
    requires Read(s) == Some(a) && now != 0.0
    ensures Read(Put(s, SeekPatch(t, Some(now)))) == Some(a.(currentTime := t / 1000.0, hostTime := now))
    ensures GetCurrentTime(a.(currentTime := t / 1000.0, hostTime := now), RoomAt(now)) == t / 1000.0
  {
    var b := SeekPatch(t, Some(now));
    ReadFields(s, a);
    PutMember(s, b, CurrentTime, Num(t / 1000.0));
    PutMember(s, b, HostTime, Num(now));
    PutUntouched(s, b, Src);
    PutUntouched(s, b, Paused);
    PutUntouched(s, b, Muted);
    PutUntouched(s, b, Volume);
    ReadOf(Put(s, b), a.(currentTime := t / 1000.0, hostTime := now));
  }

  /** The reset at the end pauses at position 0. */
  lemma ResetEffect(s: Store, a: Attributes)
    requires Read(s) == Some(a)
    ensures Read(Put(s, ResetPatch)) == Some(a.(paused := true, currentTime := 0.0))
    ensures forall host: Host :: GetCurrentTime(a.(paused := true, currentTime := 0.0), host) == 0.0
  {
    var b := ResetPatch;
    ReadFields(s, a);
    PutMember(s, b, Paused, Bool(true));
    PutMember(s, b, CurrentTime, Num(0.0));
    PutUntouched(s, b, Src);
    PutUntouched(s, b, HostTime);
    PutUntouched(s, b, Muted);
    PutUntouched(s, b, Volume);
    ReadOf(Put(s, b), a.(paused := true, currentTime := 0.0));
  }

  // ---- the poster ----

  /** The store's `src` when it is a string: what `isShowingPoster` reads
      from `getAttributes()`. */
  function SrcText(s: Store): (r: Option<string>)
    ensures r.Some? <==> Lookup(s, Src).Str?
    ensures r.Some? ==> Lookup(s, Src) == Str(r.value)
  {
    if Lookup(s, Src).Str? then Some(Lookup(s, Src).text) else None
  }

  /** `isShowingPoster`: with no source, or a source with an audio extension. */
  function IsShowingPoster(src: Option<string>): (r: bool)
    ensures src.None? || src == Some("") ==> r
    ensures src.Some? && src.value != "" ==> (r <==> exists i | 0 <= i < |AudioExts| :: EndsWith(src.value, AudioExts[i]))
  {
    if src.None? || src.value == "" then true else HasAudioExt(src.value)
  }

  /** A source shorter than every audio extension (such as "mp3", with no
      dot) shows the video. */
  lemma PosterExamples()
    ensures IsShowingPoster(None) && IsShowingPoster(Some(""))
    ensures IsShowingPoster(Some("a.mp3"))
    ensures IsShowingPoster(Some("b.weba"))
    ensures !IsShowingPoster(Some("mp3"))
  {
    assert EndsWith("a.mp3", AudioExts[3]);
    assert EndsWith("b.weba", AudioExts[7]);
    assert forall i | 0 <= i < |AudioExts| :: |AudioExts[i]| >= 4;
  }

  /** After `putAttributes` sets `src`, the poster test reads the new source:
      the poster shows for an empty source or an audio extension. */
  lemma PosterFollowsPut(s: Store, b: Patch, src: string)
    requires DistinctKeys(b) && (Src, Str(src)) in b
    ensures IsShowingPoster(SrcText(Put(s, b))) <==> src == "" || HasAudioExt(src)
  {
    PutMember(s, b, Src, Str(src));
  }

  // ---- the local player ----

  datatype AutoPlay = AutoplayOff | AutoplayAny

  /** What the component reads from and sets on the video.js player. */
  datatype VideoState = VideoState(
    paused: bool,
    muted: bool,
    volume: real,
    currentTime: real,
    duration: real,
    autoplay: AutoPlay,
    error: bool)

  datatype PlayerCall =
    | PlayerPause
    | PlayerPlay
    | PlayerMute(muted: bool)
    | PlayerVolume(volume: real)
    | PlayerSeek(time: real)
    | PlayerAutoplay(mode: AutoPlay)
    | PlayerDispose

  /** The player after one call. `play` is taken to succeed; its failure
      arrives later as `catchPlayFail`. */
  function Perform(p: VideoState, c: PlayerCall): VideoState
  {
    match c
    case PlayerPause => p.(paused := true)
    case PlayerPlay => p.(paused := false)
    case PlayerMute(m) => p.(muted := m)
    case PlayerVolume(v) => p.(volume := v)
    case PlayerSeek(t) => p.(currentTime := t)
    case PlayerAutoplay(mode) => p.(autoplay := mode)
    case PlayerDispose => p
  }

  function PerformAll(p: VideoState, cs: seq<PlayerCall>): VideoState
    decreases |cs|
  {
    if cs == [] then p else Perform(PerformAll(p, cs[..|cs| - 1]), cs[|cs| - 1])
  }

  lemma {:induction false} PerformAllAppend(p: VideoState, xs: seq<PlayerCall>, ys: seq<PlayerCall>)
    ensures PerformAll(p, xs + ys) == PerformAll(PerformAll(p, xs), ys)
    decreases |ys|
  {
    if ys == [] {
      assert xs + ys == xs;
    } else {
      assert (xs + ys)[..|xs + ys| - 1] == xs + ys[..|ys| - 1];
      PerformAllAppend(p, xs, ys[..|ys| - 1]);
    }
  }

  function PausedCalls(a: Attributes, p: VideoState): seq<PlayerCall>
  {
    if p.paused != a.paused then [if a.paused then PlayerPause else PlayerPlay] else []
  }

  function MutedCalls(a: Attributes, p: VideoState): seq<PlayerCall>
  {
    if p.muted != a.muted then [PlayerMute(a.muted)] else []
  }

  function VolumeCalls(a: Attributes, p: VideoState): seq<PlayerCall>
  {
    if p.volume != a.volume then [PlayerVolume(a.volume)] else []
  }

  /** Past the end the player is reset (autoplay off, and the attributes are
      reset); otherwise it seeks only when off by more than the tolerance. */
  function TimeCalls(p: VideoState, position: real): seq<PlayerCall>
  {
    if position > p.duration then [PlayerAutoplay(AutoplayOff)]
    else if Abs(p.currentTime - position) > CurrentTimeMaxError then [PlayerSeek(position)]
    else []
  }

  /** The calls `syncPlayerWithAttributes` makes on the player, in order,
      `position` being the position computed from the attributes. */
  function SyncCalls(a: Attributes, p: VideoState, position: real): seq<PlayerCall>
  {
    PausedCalls(a, p) + MutedCalls(a, p) + VolumeCalls(a, p) + TimeCalls(p, position)
  }

  lemma PerformAllOne(p: VideoState, cs: seq<PlayerCall>)
    requires |cs| <= 1
    ensures PerformAll(p, cs) == if cs == [] then p else Perform(p, cs[0])
  {
    if cs != [] {
      assert cs[..0] == [];
    }
  }

  /** The player's position and autoplay after the position step of a sync. */
  function TimeSynced(p: VideoState, position: real): VideoState
  {
    p.(currentTime := if position <= p.duration && Abs(p.currentTime - position) > CurrentTimeMaxError
                      then position else p.currentTime,
       autoplay := if position > p.duration then AutoplayOff else p.autoplay)
  }

  /** The player after a sync, field by field. */
  function Synced(a: Attributes, p: VideoState, position: real): VideoState
  {
    TimeSynced(p.(paused := a.paused, muted := a.muted, volume := a.volume), position)
  }

  /** After a sync the player's flags and volume are the attributes'; past the
      end autoplay is off and the position is kept, otherwise the player is
      within the tolerance of the computed position. */
  lemma SyncedFields(a: Attributes, p: VideoState, position: real)
    ensures var r := Synced(a, p, position);
      && r.paused == a.paused && r.muted == a.muted && r.volume == a.volume
      && r.duration == p.duration
      && (position > p.duration ==> r.autoplay == AutoplayOff && r.currentTime == p.currentTime)
      && (position <= p.duration ==> r.autoplay == p.autoplay && Abs(r.currentTime - position) <= CurrentTimeMaxError)
  {
  }

  /** Performing the sync's calls one by one gives `Synced`. */
  lemma SyncSteps(a: Attributes, p: VideoState, position: real)
    ensures PerformAll(p, SyncCalls(a, p, position)) == Synced(a, p, position)
  {
    var c1 := PausedCalls(a, p);
    var c2 := MutedCalls(a, p);
    var c3 := VolumeCalls(a, p);
    var c4 := TimeCalls(p, position);
    var p1 := p.(paused := a.paused);
    PerformAllOne(p, c1);
    assert PerformAll(p, c1) == p1;
    var p2 := p1.(muted := a.muted);
    PerformAllOne(p1, c2);
    assert PerformAll(p1, c2) == p2;
    PerformAllAppend(p, c1, c2);
    var p3 := p2.(volume := a.volume);
    PerformAllOne(p2, c3);
    assert PerformAll(p2, c3) == p3;
    PerformAllAppend(p, c1 + c2, c3);
    TimeStep(p3, p, position);
    PerformAllAppend(p, c1 + c2 + c3, c4);
  }

  lemma TimeStep(q: VideoState, p: VideoState, position: real)
    requires q.currentTime == p.currentTime && q.duration == p.duration
    ensures PerformAll(q, TimeCalls(p, position)) == TimeSynced(q, position)
  {
    PerformAllOne(q, TimeCalls(p, position));
  }

  /** After a sync the player agrees with the attributes on paused, muted and
      volume; past the end it is reset and keeps its position, otherwise it is
      within the tolerance of the computed position. */
  lemma SyncAgrees(a: Attributes, p: VideoState, position: real)
    ensures var q := PerformAll(p, SyncCalls(a, p, position));
      && q.paused == a.paused && q.muted == a.muted && q.volume == a.volume
      && q.duration == p.duration && q.error == p.error
      && (position > p.duration ==> q.currentTime == p.currentTime && q.autoplay == AutoplayOff)
      && (position <= p.duration ==> Abs(q.currentTime - position) <= CurrentTimeMaxError && q.autoplay == p.autoplay)
  {
    SyncSteps(a, p, position);
  }

  /** Each call is made exactly when the player differs from what it is told. */
  lemma SyncActsOnlyOnDifference(a: Attributes, p: VideoState, position: real)
    ensures var cs := SyncCalls(a, p, position);
      && ((PlayerPause in cs || PlayerPlay in cs) <==> p.paused != a.paused)
      && (PlayerPause in cs <==> !p.paused && a.paused)
      && (PlayerMute(a.muted) in cs <==> p.muted != a.muted)
      && (PlayerMute(!a.muted) !in cs)
      && (PlayerVolume(a.volume) in cs <==> p.volume != a.volume)
      && (PlayerSeek(position) in cs <==> position <= p.duration && Abs(p.currentTime - position) > CurrentTimeMaxError)
      && (PlayerAutoplay(AutoplayOff) in cs <==> position > p.duration)
  {
    var cs := SyncCalls(a, p, position);
    var c1, c2, c3, c4 := PausedCalls(a, p), MutedCalls(a, p), VolumeCalls(a, p), TimeCalls(p, position);
    assert cs == c1 + c2 + c3 + c4;
    assert forall c :: c in cs <==> c in c1 || c in c2 || c in c3 || c in c4;
  }

  /** A second sync against the same attributes and position does nothing. */
  lemma SyncIdempotent(a: Attributes, p: VideoState, position: real)
    requires position <= p.duration
    ensures SyncCalls(a, PerformAll(p, SyncCalls(a, p, position)), position) == []
  {
    SyncSteps(a, p, position);
    var q := PerformAll(p, SyncCalls(a, p, position));
    assert PausedCalls(a, q) == [] && MutedCalls(a, q) == [] && VolumeCalls(a, q) == [];
    assert TimeCalls(q, position) == [];
  }

  /** A newly created video.js player. */
  function FreshPlayer(duration: real): VideoState
  {
    VideoState(true, false, 1.0, 0.0, duration, AutoplayOff, false)
  }

  // ---- the component ----

  class MediaPlayerImpl {
    /** The `room` and `player` props as they are now: the room's calibrated
        clock and the replay's progress move on between calls. */
    var host: Host
    /** `context.getIsWritable()`. */
    var writable: bool
    /** `context.getAttributes()`. */
    var store: Store
    /** The `updateAttributes` calls made so far. */
    var updates: Patch
    var player: Option<VideoState>
    /** The calls made on video.js players so far. */
    var playerCalls: seq<PlayerCall>
    var retryCount: int
    var mediaError: bool
    var noSound: bool
    /** How many times `initPlayer` was started. */
    var initCount: nat

    ghost predicate Valid()
      reads this
    {
      0 <= retryCount <= RetryLimit + 1
    }

    /** The constructor throws when the room's SDK has no calibrated clock;
        here that is a precondition. */
    constructor (host: Host, store: Store, writable: bool)
      requires host.room.Some? ==> CheckWhiteWebSdkVersion(host.room.value).None?
      ensures Valid()
      ensures this.host == host && this.store == store && this.writable == writable
      ensures updates == [] && player.None? && playerCalls == [] && initCount == 0
      ensures retryCount == 0 && !mediaError && !noSound
    {
      this.host := host;
      this.store := store;
      this.writable := writable;
      updates := [];
      player := None;
      playerCalls := [];
      retryCount := 0;
      mediaError := false;
      noSound := false;
      initCount := 0;
    }

    /** New `room` and `player` props: the host's clocks have moved on (or the
        props were replaced). Every later call reads the clock from them. */
    method ReceiveProps(h: Host)
      modifies this`host
      ensures host == h
    {
      host := h;
    }

    /** `putAttributes`: one `updateAttributes` per key whose value differs
        from what was read before the loop. */
    method PutAttributes(b: Patch)
      modifies this`store, this`updates
      ensures store == Put(old(store), b)
      ensures updates == old(updates) + Changed(old(store), b)
    {
      var a := store;
      var i := 0;
      while i < |b|
        invariant 0 <= i <= |b|
        invariant store == Write(a, Changed(a, b[..i]))
        invariant updates == old(updates) + Changed(a, b[..i])
      {
        var k := b[i].0;
        var v := b[i].1;
        ChangedStep(a, b, i);
        if Lookup(a, k) != v {
          WriteSnoc(a, Changed(a, b[..i]), k, v);
          store := store[k := v];
          updates := updates + [(k, v)];
        }
        i := i + 1;
      }
      assert b[..|b|] == b;
    }

    /** Write `b` only when the context is writable. */
    method PutIfWritable(b: Patch)
      modifies this`store, this`updates
      ensures store == if writable then Put(old(store), b) else old(store)
      ensures updates == old(updates) + if writable then Changed(old(store), b) else []
    {
      if writable {
        PutAttributes(b);
      }
    }

    /** `play`. */
    method Play()
      modifies this`store, this`updates
      ensures store == if writable then Put(old(store), PlayPatch(RoomClock(host))) else old(store)
      ensures updates == old(updates) + if writable then Changed(old(store), PlayPatch(RoomClock(host))) else []
    {
      PutIfWritable(PlayPatch(RoomClock(host)));
    }

    /** `pause`: the attributes must be present (they are read with `!`). */
    method Pause()
      requires Read(store).Some?
      modifies this`store, this`updates
      ensures var b := PausePatch(GetCurrentTime(old(Read(store)).value, host));
        && store == (if writable then Put(old(store), b) else old(store))
        && updates == old(updates) + if writable then Changed(old(store), b) else []
    {
      var currentTime := GetCurrentTime(Read(store).value, host);
      PutIfWritable(PausePatch(currentTime));
    }

    /** `setVolume`: two writes, the second also setting `muted`. */
    method SetVolume(volume: real)
      modifies this`store, this`updates
      ensures store == if writable then Put(Put(old(store), VolumePatch(volume)), VolumeMutePatch(volume)) else old(store)
      ensures updates == old(updates) +
        if writable then Changed(old(store), VolumePatch(volume))
                         + Changed(Put(old(store), VolumePatch(volume)), VolumeMutePatch(volume))
        else []
    {
      PutIfWritable(VolumePatch(volume));
      PutIfWritable(VolumeMutePatch(volume));
    }

    /** `setCurrentTime(t)`, `t` in milliseconds. */
    method SetCurrentTime(t: real)
      modifies this`store, this`updates
      ensures store == if writable then Put(old(store), SeekPatch(t, RoomClock(host))) else old(store)
      ensures updates == old(updates) + if writable then Changed(old(store), SeekPatch(t, RoomClock(host))) else []
    {
      PutIfWritable(SeekPatch(t, RoomClock(host)));
    }

    /** One call on the current player. */
    method CallPlayer(c: PlayerCall)
      requires player.Some?
      modifies this`player, this`playerCalls
      ensures player == Some(Perform(old(player).value, c))
      ensures playerCalls == old(playerCalls) + [c]
    {
      player := Some(Perform(player.value, c));
      playerCalls := playerCalls + [c];
    }

    /** `resetPlayer` (also the player's `ended` handler). */
    method ResetPlayer()
      modifies this`player, this`playerCalls, this`store, this`updates
      ensures player == if old(player).Some? then Some(old(player).value.(autoplay := AutoplayOff)) else None
      ensures playerCalls == old(playerCalls) + if old(player).Some? then [PlayerAutoplay(AutoplayOff)] else []
      ensures store == if writable then Put(old(store), ResetPatch) else old(store)
      ensures updates == old(updates) + if writable then Changed(old(store), ResetPatch) else []
    {
      if player.Some? {
        CallPlayer(PlayerAutoplay(AutoplayOff));
      }
      PutIfWritable(ResetPatch);
    }

    /** The paused, muted and volume steps of a sync. */
    method SyncFlags(a: Attributes)
      requires player.Some?
      modifies this`player, this`playerCalls
      ensures var p := old(player).value;
        && player == Some(p.(paused := a.paused, muted := a.muted, volume := a.volume))
        && playerCalls == old(playerCalls) + PausedCalls(a, p) + MutedCalls(a, p) + VolumeCalls(a, p)
    {
      var p := player.value;
      if player.value.paused != a.paused {
        if a.paused {
          CallPlayer(PlayerPause);
        } else {
          CallPlayer(PlayerPlay);
        }
      }
      if player.value.muted != a.muted {
        CallPlayer(PlayerMute(a.muted));
      }
      assert playerCalls == old(playerCalls) + PausedCalls(a, p) + MutedCalls(a, p);
      if player.value.volume != a.volume {
        CallPlayer(PlayerVolume(a.volume));
      }
    }

    /** The position step of a sync: reset past the end, else seek when off
        by more than the tolerance. */
    method SyncPosition(position: real)
      requires player.Some?
      modifies this`player, this`playerCalls, this`store, this`updates
      ensures var p := old(player).value;
        && player == Some(TimeSynced(p, position))
        && playerCalls == old(playerCalls) + TimeCalls(p, position)
        && store == (if position > p.duration && writable then Put(old(store), ResetPatch) else old(store))
        && updates == old(updates) + (if position > p.duration && writable then Changed(old(store), ResetPatch) else [])
    {
      if position > player.value.duration {
        ResetPlayer();
      } else if Abs(player.value.currentTime - position) > CurrentTimeMaxError {
        CallPlayer(PlayerSeek(position));
      }
    }

    /** `syncPlayerWithAttributes`: nothing without attributes or a player;
        otherwise the calls of `SyncCalls`, and the attribute reset past the end. */
    method Sync()
      modifies this`player, this`playerCalls, this`store, this`updates
      ensures old(Read(store)).None? || old(player).None? ==>
        player == old(player) && playerCalls == old(playerCalls) && store == old(store) && updates == old(updates)
      ensures old(Read(store)).Some? && old(player).Some? ==>
        var a := old(Read(store)).value;
        var p := old(player).value;
        var position := GetCurrentTime(a, host);
        && player == Some(Synced(a, p, position))
        && playerCalls == old(playerCalls) + SyncCalls(a, p, position)
        && store == (if position > p.duration && writable then Put(old(store), ResetPatch) else old(store))
        && updates == old(updates) + (if position > p.duration && writable then Changed(old(store), ResetPatch) else [])
    {
      var s := Read(store);
      if s.None? || player.None? {
        return;
      }
      SyncAgainst(s.value);
    }

    /** The body of a sync once the attributes `a` and a player are at hand. */
    method SyncAgainst(a: Attributes)
      requires player.Some?
      modifies this`player, this`playerCalls, this`store, this`updates
      ensures var p := old(player).value;
        var position := GetCurrentTime(a, host);
        && player == Some(Synced(a, p, position))
        && playerCalls == old(playerCalls) + SyncCalls(a, p, position)
        && store == (if position > p.duration && writable then Put(old(store), ResetPatch) else old(store))
        && updates == old(updates) + (if position > p.duration && writable then Changed(old(store), ResetPatch) else [])
    {
      var p := player.value;
      ghost var calls0 := playerCalls;
      SyncFlags(a);
      var position := GetCurrentTime(a, host);
      ghost var p3 := player.value;
      assert TimeCalls(p3, position) == TimeCalls(p, position);
      SyncPosition(position);
      ghost var c1, c2, c3, c4 := PausedCalls(a, p), MutedCalls(a, p), VolumeCalls(a, p), TimeCalls(p, position);
      assert playerCalls == calls0 + c1 + c2 + c3 + c4;
      assert calls0 + c1 + c2 + c3 + c4 == calls0 + (c1 + c2 + c3 + c4);
    }

    /** `decreaseRetryCount` (every retry interval): regain one retry. */
    method DecreaseRetryCount()
      requires Valid()
      modifies this`retryCount
      ensures Valid()
      ensures retryCount == if player.Some? && old(retryCount) > 0 then old(retryCount) - 1 else old(retryCount)
    {
      if player.None? {
        return;
      }
      if retryCount > 0 {
        retryCount := retryCount - 1;
      }
    }

    /** The synchronous part of `initPlayer`: dispose of the old player. */
    method InitPlayer()
      modifies this`player, this`playerCalls, this`initCount
      ensures player.None? && initCount == old(initCount) + 1
      ensures playerCalls == old(playerCalls) + if old(player).Some? then [PlayerDispose] else []
    {
      if player.Some? {
        CallPlayer(PlayerDispose);
      }
      player := None;
      initCount := initCount + 1;
    }

    /** The end of `initPlayer`, once video.js has created the new player. */
    method PlayerCreated(duration: real)
      modifies this`player, this`mediaError
      ensures player == Some(FreshPlayer(duration)) && !mediaError
    {
      player := Some(FreshPlayer(duration));
      mediaError := false;
    }

    /** The player's `error` event: it now reports a media error. */
    method PlayerFails()
      requires player.Some?
      modifies this`player
      ensures player == Some(old(player).value.(error := true))
    {
      player := Some(player.value.(error := true));
    }

    /** `catchPlayFail`. `interactionBlocked` stands for the error text test
        (Safari's NotAllowedError, or "interact"): then autoplay is set to
        "any" and the no-sound prompt shown. Otherwise, on a media error, the
        player is re-created while retries remain, and the error state is shown
        once they are used up. */
    method CatchPlayFail(interactionBlocked: bool)
      requires Valid()
      modifies this`player, this`playerCalls, this`initCount, this`retryCount, this`mediaError, this`noSound
      ensures Valid()
      ensures interactionBlocked ==>
        && noSound && retryCount == old(retryCount) && mediaError == old(mediaError) && initCount == old(initCount)
        && player == (if old(player).Some? then Some(old(player).value.(autoplay := AutoplayAny)) else None)
        && playerCalls == old(playerCalls) + (if old(player).Some? then [PlayerAutoplay(AutoplayAny)] else [])
      ensures !interactionBlocked ==> noSound == old(noSound)
      ensures !interactionBlocked && old(player).Some? && old(player).value.error && old(retryCount) <= RetryLimit ==>
        player.None? && retryCount == old(retryCount) + 1 && initCount == old(initCount) + 1 && mediaError == old(mediaError)
        && playerCalls == old(playerCalls) + [PlayerDispose]
      ensures !interactionBlocked && old(player).Some? && old(player).value.error && old(retryCount) > RetryLimit ==>
        mediaError && retryCount == old(retryCount) && player == old(player) && initCount == old(initCount)
        && playerCalls == old(playerCalls)
      ensures !interactionBlocked && (old(player).None? || !old(player).value.error) ==>
        player == old(player) && retryCount == old(retryCount) && mediaError == old(mediaError) && initCount == old(initCount)
        && playerCalls == old(playerCalls)
    {
      if interactionBlocked {
        if player.Some? {
          CallPlayer(PlayerAutoplay(AutoplayAny));
        }
        noSound := true;
      } else {
        var hasMediaError := player.Some? && player.value.error;
        if hasMediaError {
          if retryCount <= RetryLimit {
            InitPlayer();
            retryCount := retryCount + 1;
          } else {
            mediaError := true;
          }
        }
      }
    }
  }

  /** The clock is read at each call: playing at 9000 ms and computing the
      position at 12000 ms gives three seconds past the paused position,
      whatever the clock read when the component was built. */
  method ClockAdvancesBetweenCalls(s: Store, a: Attributes) returns (position: real)
    requires Read(s) == Some(a) && a.paused
    ensures position == a.currentTime + 3.0
  {
    var m := new MediaPlayerImpl(RoomAt(5000.0), s, true);
    m.ReceiveProps(RoomAt(9000.0));
    m.Play();
    m.ReceiveProps(RoomAt(12000.0));
    PlayResumesFromPausedPosition(s, a, 9000.0, 12000.0);
    position := GetCurrentTime(Read(m.store).value, m.host);
  }

  /** Media errors in a row re-create the player at most RetryLimit + 1 times
      before the error state is shown. */
  method RetriesAreBounded(m: MediaPlayerImpl, duration: real) returns (recreated: nat)
    requires m.Valid() && m.retryCount == 0 && m.player.Some? && !m.mediaError
    modifies m
    ensures recreated == RetryLimit + 1 && m.mediaError
  {
    recreated := 0;
    while !m.mediaError
      invariant m.Valid() && recreated == m.retryCount && m.player.Some?
      invariant m.mediaError ==> recreated == RetryLimit + 1
      decreases if m.mediaError then 0 else 1, RetryLimit + 2 - m.retryCount
    {
      m.PlayerFails();
      var before := m.retryCount;
      m.CatchPlayFail(false);
      if m.retryCount > before {
        recreated := recreated + 1;
        m.PlayerCreated(duration);
      }
    }
  }
}
