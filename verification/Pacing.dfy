/** The frame sender: how often frames go out, the timestamps they carry, and the profile
    that adapts to congestion. Encoding is an arbitrary outcome. The clock counts
    nanoseconds; intervals and durations are whole milliseconds, as in the program. */
module Pacing {
  import opened Wrappers
  import opened Arithmetic

  const NANOS_PER_MS: nat := 1_000_000
  const RTP_TICKS_PER_MS: nat := 90
  const LEVEL_3_1_MBS_PER_SEC: nat := 108_000
  const MAX_PAYLOAD_BYTES: nat := 768 * 1024
  const HIGH_WATERMARK: nat := 2
  const STARTUP_RETRY_LIMIT: nat := 3
  const INTERVAL_MIN: nat := 16
  const INTERVAL_MAX: nat := 50

  // ------------------------------------------------------- adaptive profile

  datatype Profile = Profile(width: nat, height: nat, interval: nat)

  const BEST: Profile := Profile(960, 540, 16)
  const WORST: Profile := Profile(704, 416, 50)

  ghost predicate InRange(p: Profile) {
    704 <= p.width <= 960 && 416 <= p.height <= 540 && INTERVAL_MIN <= p.interval <= INTERVAL_MAX
  }

  function Degraded(p: Profile): Profile {
    Profile(Max(p.width - 80, 704), Max(p.height - 45, 416), Min(p.interval + 4, INTERVAL_MAX))
  }

  function Restored(p: Profile): Profile {
    Profile(Min(p.width + 80, 960), Min(p.height + 45, 540), Max(p.interval - 4, INTERVAL_MIN))
  }

  function DegradedTimes(p: Profile, n: nat): Profile {
    if n == 0 then p else Degraded(DegradedTimes(p, n - 1))
  }

  function RestoredTimes(p: Profile, n: nat): Profile {
    if n == 0 then p else Restored(RestoredTimes(p, n - 1))
  }

  lemma {:induction false} ManyStepsAtOnce(p: Profile, n: nat)
    requires InRange(p)
    ensures DegradedTimes(p, n)
            == Profile(Max(p.width - 80 * n, 704), Max(p.height - 45 * n, 416), Min(p.interval + 4 * n, INTERVAL_MAX))
    ensures RestoredTimes(p, n)
            == Profile(Min(p.width + 80 * n, 960), Min(p.height + 45 * n, 540), Max(p.interval - 4 * n, INTERVAL_MIN))
  {
    if n == 0 {
    } else {
      ManyStepsAtOnce(p, n - 1);
    }
  }

  /** From any profile in range nine steps down reach the worst and nine steps up the
      best, and no fewer do between the two. */
  lemma NineStepsReachTheEnd(p: Profile, n: nat)
    requires InRange(p)
    ensures n >= 9 ==> DegradedTimes(p, n) == WORST && RestoredTimes(p, n) == BEST
    ensures n < 9 ==> DegradedTimes(BEST, n) != WORST && RestoredTimes(WORST, n) != BEST
  {
    ManyStepsAtOnce(p, n);
    ManyStepsAtOnce(BEST, n);
    ManyStepsAtOnce(WORST, n);
  }

  // --------------------------------------------------------------- the level

  function DivCeil(a: nat, b: nat): nat
    requires b > 0
  {
    (a + b - 1) / b
  }

  function Macroblocks(width: nat, height: nat): nat {
    DivCeil(width, 16) * DivCeil(height, 16)
  }

  /** The shortest frame interval the level allows for frames of this size. */
  function LevelInterval(width: nat, height: nat): nat {
    if width == 0 || height == 0 then INTERVAL_MIN
    else
      var maxFps := Max(LEVEL_3_1_MBS_PER_SEC / Max(Macroblocks(width, height), 1), 1);
      Max(DivCeil(1000, maxFps), INTERVAL_MIN)
  }

  /** Frames that far apart keep to the macroblock rate of level 3.1 exactly when a frame
      has at most as many macroblocks as the level allows in a second. */
  lemma LevelIntervalKeepsRate(width: nat, height: nat)
    ensures Macroblocks(width, height) * 1000 <= LEVEL_3_1_MBS_PER_SEC * LevelInterval(width, height)
            <==> Macroblocks(width, height) <= LEVEL_3_1_MBS_PER_SEC
  {
    var m := Macroblocks(width, height);
    if width == 0 || height == 0 {
      assert m == 0;
    } else {
      var q: nat := LEVEL_3_1_MBS_PER_SEC / Max(m, 1);
      var fps: nat := Max(q, 1);
      var interval := DivCeil(1000, fps);
      CeilingCovers(1000, fps);
      if m <= LEVEL_3_1_MBS_PER_SEC {
        if m > 0 {
          QuotientCovers(LEVEL_3_1_MBS_PER_SEC, m);
          assert fps == q;
          RateIsKept(m, fps, interval);
        }
      } else {
        assert q == 0;
      }
    }
  }

  lemma RateIsKept(m: nat, fps: nat, interval: nat)
    requires m * fps <= LEVEL_3_1_MBS_PER_SEC && fps * interval >= 1000
    ensures m * 1000 <= LEVEL_3_1_MBS_PER_SEC * interval
  {
    assert m * (fps * interval) >= m * 1000 by { MulMonotone(m, 1000, fps * interval); }
    assert m * (fps * interval) == (m * fps) * interval;
    MulMonotone(interval, m * fps, LEVEL_3_1_MBS_PER_SEC);
  }

  lemma CeilingCovers(a: nat, b: nat)
    requires b > 0
    ensures b * DivCeil(a, b) >= a
  {
  }

  lemma QuotientCovers(a: nat, d: nat)
    requires 0 < d <= a
    ensures a / d >= 1 && d * (a / d) <= a
  {
  }

  /** Do so many frames that far apart fill at least a second? */
  predicate FillASecond(frames: nat, interval: nat) {
    frames * interval >= 1000
  }

  /** The interval is no longer than it has to be: it is the least one of at least 16 ms that
      lets through no more frames a second than the level has macroblocks for, counted in
      whole frames; a second for frames the level has no room for, and 16 ms for no frame. */
  lemma LevelIntervalIsLeast(width: nat, height: nat, other: nat)
    ensures var m, interval := Macroblocks(width, height), LevelInterval(width, height);
            if width == 0 || height == 0 then interval == INTERVAL_MIN
            else if m > LEVEL_3_1_MBS_PER_SEC then interval == 1000
            else
              var frames := LEVEL_3_1_MBS_PER_SEC / m;
              && interval >= INTERVAL_MIN && FillASecond(frames, interval)
              && (other >= INTERVAL_MIN && FillASecond(frames, other) ==> interval <= other)
  {
    if width > 0 && height > 0 {
      SomeMacroblocks(width, height);
      var m := Macroblocks(width, height);
      var q: nat := LEVEL_3_1_MBS_PER_SEC / m;
      if m <= LEVEL_3_1_MBS_PER_SEC {
        QuotientCovers(LEVEL_3_1_MBS_PER_SEC, m);
        CeilingCovers(1000, q);
        if FillASecond(q, other) {
          CeilingIsLeast(1000, q, other);
        }
        LongerIsEnough(q, DivCeil(1000, q), LevelInterval(width, height));
      } else {
        assert q == 0;
      }
    }
  }

  lemma SomeMacroblocks(width: nat, height: nat)
    requires width > 0 && height > 0
    ensures Macroblocks(width, height) > 0
  {
    assert DivCeil(width, 16) > 0 && DivCeil(height, 16) > 0;
  }

  lemma CeilingIsLeast(a: nat, b: nat, other: nat)
    requires b > 0 && b * other >= a
    ensures DivCeil(a, b) <= other
  {
    if other < DivCeil(a, b) {
      MulMonotone(b, other + 1, DivCeil(a, b));
      assert false;
    }
  }

  lemma LongerIsEnough(frames: nat, a: nat, b: nat)
    requires FillASecond(frames, a) && a <= b
    ensures FillASecond(frames, b)
  {
    MulMonotone(frames, a, b);
  }

  // --------------------------------------------------------------- the sender

  datatype Pressure = Pressure(maxQueueLen: nat, congestedEvents: nat, droppedFrames: nat)

  datatype Size = Size(width: nat, height: nat)

  /** What encoding a frame came to: its size, and whether the scaled picture was used. */
  datatype Encoded = Encoded(bytes: nat, scaled: bool)

  /** A frame that reaches the sender, with the session events noted since the last one.
      `scaledTo` is the size scaling would give it. */
  datatype Frame = Frame(
    now: nat,
    size: Size,
    refreshEncoder: bool,
    pressure: Pressure,
    scaledTo: Size,
    encoded: Option<Encoded>)

  /** A packet sent: when, when the one before was, and how it was timed and paced. */
  datatype Packet = Packet(at: nat, previous: nat, duration: nat, timestamp: nat, paced: Size)

  datatype Sender = Sender(
    profile: Profile,
    lastSent: nat,
    stableFrames: nat,
    packetTimestamp: nat,
    startupFailures: nat,
    firstPayloadSent: bool,
    hadActiveSession: bool,
    scalingDisabled: bool,
    sourceSize: Size)

  /** Scaling is given up for a source after one failure, so the count of failures never
      outlives the frame that caused it. */
  function Started(lastSent: nat): Sender {
    Sender(BEST, lastSent, 0, 0, 0, false, false, false, Size(0, 0))
  }

  function Reset(s: Sender): Sender {
    s.(hadActiveSession := true, profile := BEST, startupFailures := 0, firstPayloadSent := false,
       stableFrames := 0, packetTimestamp := 0, scalingDisabled := false)
  }

  function AfterTransitions(s: Sender, f: Frame): Sender {
    if !s.hadActiveSession then Reset(s)
    else
      var refreshed :=
        if f.refreshEncoder
        then s.(firstPayloadSent := false, stableFrames := 0, startupFailures := 0, scalingDisabled := false)
        else s;
      if f.size != s.sourceSize then refreshed.(sourceSize := f.size, scalingDisabled := false) else refreshed
  }

  function DegradedUnlessWorst(p: Profile): Profile {
    if p == WORST then p else Degraded(p)
  }

  function UnderPressure(s: Sender, p: Pressure): Sender {
    if p.congestedEvents > 0 || p.droppedFrames > 0
    then s.(profile := DegradedUnlessWorst(s.profile), stableFrames := 0)
    else if p.maxQueueLen >= HIGH_WATERMARK
    then s.(profile := s.profile.(interval := Min(s.profile.interval + 4, INTERVAL_MAX)), stableFrames := 0)
    else s
  }

  /** The size frames are paced at: what scaling gives, when that differs. */
  function PacedSize(f: Frame): Size {
    if f.scaledTo != f.size then f.scaledTo else f.size
  }

  function FrameInterval(p: Profile, paced: Size): nat {
    Max(p.interval, LevelInterval(paced.width, paced.height))
  }

  function SampleDuration(elapsed: nat, interval: nat): nat {
    Max(Max(if elapsed < TWO_POW_64 then elapsed else interval, interval), 1)
  }

  /** 90000 ticks a second, rounded down to a whole tick and cut to 32 bits. */
  function PacketStep(duration: nat): nat {
    Max(90_000 * duration / 1000, 1) % TWO_POW_32
  }

  function Ticks(ms: nat): nat {
    RTP_TICKS_PER_MS * ms % TWO_POW_32
  }

  /** A timestamp so many milliseconds on. */
  function Advanced(timestamp: nat, ms: nat): nat {
    (timestamp + RTP_TICKS_PER_MS * ms) % TWO_POW_32
  }

  /** Keeps what happened to scaling for this source. */
  function AfterScaling(s: Sender, f: Frame): Sender {
    if f.scaledTo == f.size || s.scalingDisabled then s
    else s.(scalingDisabled := f.encoded == None || !f.encoded.value.scaled)
  }

  function AfterSending(s: Sender, now: nat, duration: nat, bytes: nat): Sender {
    var counted := s.(packetTimestamp := (s.packetTimestamp + PacketStep(duration)) % TWO_POW_32,
                      firstPayloadSent := true, startupFailures := 0, stableFrames := s.stableFrames + 1,
                      lastSent := now);
    var restored := if counted.stableFrames % 120 == 0
                    then counted.(profile := Restored(counted.profile), stableFrames := 0) else counted;
    if bytes < MAX_PAYLOAD_BYTES / 2
    then restored.(profile := restored.profile.(interval := Max(restored.profile.interval - 4, INTERVAL_MIN)))
    else restored
  }

  /** The sender once session events and congestion have been taken in. */
  function Prepared(s: Sender, f: Frame): Sender {
    UnderPressure(AfterTransitions(s, f), f.pressure)
  }

  /** The whole milliseconds between two readings of the clock. */
  function Millis(since: nat, now: nat): nat {
    Max(now - since, 0) / NANOS_PER_MS
  }

  function Elapsed(s: Sender, f: Frame): nat {
    Millis(s.lastSent, f.now)
  }

  /** Is it time, and did encoding give a payload that is not too large? */
  predicate Sends(s: Sender, f: Frame) {
    && Elapsed(s, f) >= FrameInterval(s.profile, PacedSize(f))
    && f.encoded != None && f.encoded.value.bytes <= MAX_PAYLOAD_BYTES
  }

  function PacketFor(s: Sender, f: Frame): Packet {
    var paced := PacedSize(f);
    Packet(f.now, s.lastSent, SampleDuration(Elapsed(s, f), FrameInterval(s.profile, paced)), s.packetTimestamp, paced)
  }

  /** The sender after a frame that is not sent: too early, not encoded, or too large. */
  function AfterNotSending(s: Sender, f: Frame): Sender {
    if Elapsed(s, f) < FrameInterval(s.profile, PacedSize(f)) then s
    else
      var t := AfterScaling(s, f);
      if f.encoded == None && !t.firstPayloadSent && t.startupFailures < STARTUP_RETRY_LIMIT
      then t.(startupFailures := t.startupFailures + 1)
      else t.(profile := DegradedUnlessWorst(t.profile))
  }

  /** One frame, from session events to the packet it leads to, if any. */
  function Handle(s0: Sender, f: Frame): (Sender, Option<Packet>) {
    var s := Prepared(s0, f);
    if Sends(s, f) then
      var p := PacketFor(s, f);
      (AfterSending(AfterScaling(s, f), f.now, p.duration, f.encoded.value.bytes), Some(p))
    else (AfterNotSending(s, f), None)
  }

  class FrameSenderState {
    var profile: Profile
    var lastSent: nat
    var stableFrames: nat
    var packetTimestamp: nat
    var startupFailures: nat
    var firstPayloadSent: bool
    var hadActiveSession: bool
    var scalingDisabled: bool
    var sourceSize: Size

    ghost function View(): Sender
      reads this
    {
      Sender(profile, lastSent, stableFrames, packetTimestamp, startupFailures, firstPayloadSent,
             hadActiveSession, scalingDisabled, sourceSize)
    }

    constructor (lastSent: nat)
      ensures View() == Started(lastSent)
    {
      profile, this.lastSent, stableFrames, packetTimestamp, startupFailures := BEST, lastSent, 0, 0, 0;
      firstPayloadSent, hadActiveSession, scalingDisabled, sourceSize := false, false, false, Size(0, 0);
    }

    method HandleSessionTransitions(f: Frame)
      modifies this
      ensures View() == AfterTransitions(old(View()), f)
    {
      if !hadActiveSession {
        hadActiveSession, profile, startupFailures, firstPayloadSent := true, BEST, 0, false;
        stableFrames, packetTimestamp, scalingDisabled := 0, 0, false;
        return;
      }
      if f.refreshEncoder {
        firstPayloadSent, stableFrames, startupFailures, scalingDisabled := false, 0, 0, false;
      }
      if f.size != sourceSize {
        sourceSize, scalingDisabled := f.size, false;
      }
    }

    method Degrade()
      modifies this`profile
      ensures profile == DegradedUnlessWorst(old(profile))
    {
      if profile != WORST {
        profile := Profile(Max(profile.width - 80, 704), Max(profile.height - 45, 416),
                           Min(profile.interval + 4, INTERVAL_MAX));
      }
    }

    method ApplyPressure(p: Pressure)
      modifies this`profile, this`stableFrames
      ensures View() == UnderPressure(old(View()), p)
    {
      if p.congestedEvents > 0 || p.droppedFrames > 0 {
        Degrade();
        stableFrames := 0;
      } else if p.maxQueueLen >= HIGH_WATERMARK {
        profile := profile.(interval := Min(profile.interval + 4, INTERVAL_MAX));
        stableFrames := 0;
      }
    }

    method NoteSent(now: nat, duration: nat, bytes: nat)
      modifies this
      ensures View() == AfterSending(old(View()), now, duration, bytes)
    {
      packetTimestamp := (packetTimestamp + PacketStep(duration)) % TWO_POW_32;
      firstPayloadSent, startupFailures, stableFrames, lastSent := true, 0, stableFrames + 1, now;
      if stableFrames % 120 == 0 {
        profile := Restored(profile);
        stableFrames := 0;
      }
      if bytes < MAX_PAYLOAD_BYTES / 2 {
        profile := profile.(interval := Max(profile.interval - 4, INTERVAL_MIN));
      }
    }

    method HandleFrame(f: Frame) returns (packet: Option<Packet>)
      modifies this
      ensures (View(), packet) == Handle(old(View()), f)
    {
      HandleSessionTransitions(f);
      ApplyPressure(f.pressure);
      var attemptScaled := f.scaledTo != f.size;
      var paced := if attemptScaled then f.scaledTo else f.size;
      var interval := FrameInterval(profile, paced);
      var elapsed := Millis(lastSent, f.now);
      if elapsed < interval {
        return None;
      }
      var duration := SampleDuration(elapsed, interval);
      if attemptScaled && !scalingDisabled {
        scalingDisabled := f.encoded == None || !f.encoded.value.scaled;
      }
      var payload := f.encoded;
      if payload != None {
        if payload.value.bytes > MAX_PAYLOAD_BYTES {
          Degrade();
          payload := None;
        }
      } else if !firstPayloadSent && startupFailures < STARTUP_RETRY_LIMIT {
        startupFailures := startupFailures + 1;
      } else {
        Degrade();
      }
      if payload == None {
        return None;
      }
      packet := Some(Packet(f.now, lastSent, duration, packetTimestamp, paced));
      NoteSent(f.now, duration, payload.value.bytes);
    }
  }

  // ------------------------------------------------------- when frames are sent

  predicate Congested(p: Pressure) {
    p.congestedEvents > 0 || p.droppedFrames > 0
  }

  /** The profile's interval when a frame arrives: the shortest one if the sender starts over,
      and four milliseconds more, up to fifty, under any pressure. */
  function IntervalAtArrival(s: Sender, f: Frame): nat {
    var interval := if s.hadActiveSession then s.profile.interval else INTERVAL_MIN;
    if Congested(f.pressure) || f.pressure.maxQueueLen >= HIGH_WATERMARK then Min(interval + 4, INTERVAL_MAX)
    else interval
  }

  /** A frame is sent exactly when it was encoded to a payload that fits, and both the
      profile's interval and the least one that the level allows have passed since the last
      packet, or more. The packet says when it and the one before were sent. */
  lemma SentExactlyWhen(s: Sender, f: Frame)
    requires InRange(s.profile)
    ensures
      var packet := Handle(s, f).1;
      && (packet != None <==>
            && f.encoded != None && f.encoded.value.bytes <= MAX_PAYLOAD_BYTES
            && s.lastSent + IntervalAtArrival(s, f) * NANOS_PER_MS <= f.now
            && s.lastSent + LevelInterval(f.scaledTo.width, f.scaledTo.height) * NANOS_PER_MS <= f.now)
      && (packet != None ==>
            packet.value.at == f.now && packet.value.previous == s.lastSent && packet.value.paced == f.scaledTo)
  {
    PreparedInterval(s, f);
    var level := LevelInterval(f.scaledTo.width, f.scaledTo.height);
    PassedExactlyWhen(s.lastSent, f.now, IntervalAtArrival(s, f));
    PassedExactlyWhen(s.lastSent, f.now, level);
    assert level >= INTERVAL_MIN;
  }

  lemma PreparedInterval(s: Sender, f: Frame)
    requires InRange(s.profile)
    ensures Prepared(s, f).profile.interval == IntervalAtArrival(s, f) >= INTERVAL_MIN
    ensures Prepared(s, f).lastSent == s.lastSent
  {
  }

  lemma PassedExactlyWhen(since: nat, now: nat, interval: nat)
    requires interval > 0
    ensures Millis(since, now) >= interval <==> since + interval * NANOS_PER_MS <= now
  {
    if since <= now {
      var q, r := (now - since) / NANOS_PER_MS, (now - since) % NANOS_PER_MS;
      assert now - since == q * NANOS_PER_MS + r;
    }
  }

  /** A frame that finds no pressure and no change of session, source or encoder. */
  predicate IsCalm(s: Sender, f: Frame) {
    && s.hadActiveSession && !f.refreshEncoder
    && !Congested(f.pressure) && f.pressure.maxQueueLen < HIGH_WATERMARK
  }

  /** Each packet below half the payload limit makes the profile faster by four milliseconds;
      each 120th calm packet in a row makes it better by a step; and nothing else does. */
  lemma WhatSendingImproves(s: Sender, f: Frame)
    requires InRange(s.profile) && IsCalm(s, f) && Handle(s, f).1 != None && s.stableFrames < 120
    ensures
      var t, p := Handle(s, f).0, s.profile;
      var due, small := s.stableFrames == 119, f.encoded.value.bytes < MAX_PAYLOAD_BYTES / 2;
      && t.stableFrames == (if due then 0 else s.stableFrames + 1)
      && t.profile.width == (if due then Min(p.width + 80, 960) else p.width)
      && t.profile.height == (if due then Min(p.height + 45, 540) else p.height)
      && t.profile.interval
         == Max(p.interval - (if due then 4 else 0) - (if small then 4 else 0), INTERVAL_MIN)
      && t.lastSent == f.now && t.firstPayloadSent && t.startupFailures == 0
  {
  }

  /** A calm frame that is not sent changes nothing if it came too early. Otherwise it makes
      the profile worse by a step, unless it failed to be encoded, as up to three may before
      the first that is sent. */
  lemma WhatNotSendingWorsens(s: Sender, f: Frame)
    requires InRange(s.profile) && IsCalm(s, f) && Handle(s, f).1 == None
    ensures
      var t, p := Handle(s, f).0, s.profile;
      var early := Millis(s.lastSent, f.now) < Max(p.interval, LevelInterval(f.scaledTo.width, f.scaledTo.height));
      var forgiven := f.encoded == None && !s.firstPayloadSent && s.startupFailures < 3;
      && t.lastSent == s.lastSent && t.stableFrames == s.stableFrames && t.firstPayloadSent == s.firstPayloadSent
      && t.startupFailures == s.startupFailures + (if !early && forgiven then 1 else 0)
      && t.profile == if early || forgiven then p
                      else Profile(Max(p.width - 80, 704), Max(p.height - 45, 416), Min(p.interval + 4, INTERVAL_MAX))
  {
  }

  // -------------------------------------------------------------------- runs

  datatype Event =
    | Arrives(frame: Frame)
    | NoSessions

  /** The sender, and the packets it has sent since it last started over. */
  datatype State = State(sender: Sender, sent: seq<Packet>)

  function Step(st: State, e: Event): State {
    match e
    case NoSessions => st.(sender := st.sender.(hadActiveSession := false))
    case Arrives(f) =>
      var (s, packet) := Handle(st.sender, f);
      State(s, if packet == None then KeptBy(st) else KeptBy(st) + [packet.value])
  }

  function After(start: nat, run: seq<Event>): State {
    if run == [] then State(Started(start), []) else Step(After(start, run[..|run| - 1]), run[|run| - 1])
  }

  function SumDurations(sent: seq<Packet>): nat {
    if sent == [] then 0 else SumDurations(sent[..|sent| - 1]) + sent[|sent| - 1].duration
  }

  /** A packet comes no sooner after the one before than the level allows, and lasts the
      whole milliseconds of that gap, or less if there are more than 64 bits hold. */
  ghost predicate WellSpaced(p: Packet) {
    && p.previous + LevelInterval(p.paced.width, p.paced.height) * NANOS_PER_MS <= p.at
    && p.duration > 0 && p.previous + p.duration * NANOS_PER_MS <= p.at
    && (IsShort(p) ==> p.at < p.previous + (p.duration + 1) * NANOS_PER_MS)
  }

  /** Do 64 bits hold the milliseconds of the gap? */
  predicate IsShort(p: Packet) {
    p.at - p.previous < TWO_POW_64 * NANOS_PER_MS
  }

  ghost predicate Spaced(sent: seq<Packet>) {
    && (forall k | 0 <= k < |sent| :: WellSpaced(sent[k]))
    && forall k | 0 < k < |sent| :: sent[k].previous == sent[k - 1].at
  }

  /** Each packet carries 90 ticks for every millisecond sent before it. */
  ghost predicate Stamped(sent: seq<Packet>) {
    sent == [] ||
    var front := sent[..|sent| - 1];
    Stamped(front) && sent[|sent| - 1].timestamp == Ticks(SumDurations(front))
  }

  lemma {:induction false} StampedThroughout(sent: seq<Packet>, k: nat)
    requires Stamped(sent) && k < |sent|
    ensures sent[k].timestamp == Ticks(SumDurations(sent[..k]))
  {
    if k < |sent| - 1 {
      StampedThroughout(sent[..|sent| - 1], k);
      assert sent[..|sent| - 1][..k] == sent[..k];
    }
  }

  ghost predicate Invariant(st: State) {
    && InRange(st.sender.profile)
    && Spaced(st.sent) && Stamped(st.sent)
    && (st.sent != [] ==> st.sent[|st.sent| - 1].at == st.sender.lastSent)
    && (st.sender.hadActiveSession ==> st.sender.packetTimestamp == Ticks(SumDurations(st.sent)))
  }

  lemma RemaindersAdd(a: nat, b: nat)
    ensures (a % TWO_POW_32 + b % TWO_POW_32) % TWO_POW_32 == (a + b) % TWO_POW_32
  {
  }

  lemma StepIsNinetyTicks(duration: nat)
    requires duration > 0
    ensures PacketStep(duration) == Ticks(duration)
  {
    assert 90_000 * duration / 1000 == 90 * duration;
  }

  lemma TicksAdd(sum: nat, duration: nat)
    requires duration > 0
    ensures (Ticks(sum) + PacketStep(duration)) % TWO_POW_32 == Ticks(sum + duration)
  {
    StepIsNinetyTicks(duration);
    RemaindersAdd(90 * sum, 90 * duration);
  }

  lemma PreparedFacts(s: Sender, f: Frame)
    requires InRange(s.profile)
    ensures var t := Prepared(s, f);
            && InRange(t.profile) && t.hadActiveSession && t.lastSent == s.lastSent
            && t.packetTimestamp == if s.hadActiveSession then s.packetTimestamp else 0
  {
  }

  lemma NotSendingFacts(s: Sender, f: Frame)
    requires InRange(s.profile)
    ensures var t := AfterNotSending(s, f);
            && InRange(t.profile) && t.hadActiveSession == s.hadActiveSession
            && t.lastSent == s.lastSent && t.packetTimestamp == s.packetTimestamp
            && t.profile.width <= s.profile.width && t.profile.height <= s.profile.height
  {
  }

  lemma SendingFacts(s: Sender, now: nat, duration: nat, bytes: nat, sum: nat)
    requires InRange(s.profile) && duration > 0 && s.packetTimestamp == Ticks(sum)
    ensures var t := AfterSending(s, now, duration, bytes);
            && InRange(t.profile) && t.hadActiveSession == s.hadActiveSession && t.lastSent == now
            && t.packetTimestamp == Ticks(sum + duration)
  {
    TicksAdd(sum, duration);
  }

  lemma PacketIsWellSpaced(s: Sender, f: Frame)
    requires InRange(s.profile) && Sends(s, f)
    ensures WellSpaced(PacketFor(s, f))
  {
    var gap := f.now - s.lastSent;
    assert gap == NANOS_PER_MS * (gap / NANOS_PER_MS) + gap % NANOS_PER_MS;
  }

  lemma SendingKeepsSpacing(sent: seq<Packet>, p: Packet)
    requires Spaced(sent) && WellSpaced(p) && (sent != [] ==> p.previous == sent[|sent| - 1].at)
    ensures Spaced(sent + [p])
  {
  }

  lemma SendingKeepsStamps(sent: seq<Packet>, p: Packet)
    requires Stamped(sent) && p.timestamp == Ticks(SumDurations(sent))
    ensures Stamped(sent + [p]) && SumDurations(sent + [p]) == SumDurations(sent) + p.duration
  {
    assert (sent + [p])[..|sent|] == sent;
  }

  /** The packets a frame finds sent: none if the sender starts over with it. */
  function KeptBy(st: State): seq<Packet> {
    if st.sender.hadActiveSession then st.sent else []
  }

  lemma ArrivalFindsInvariant(st: State, f: Frame)
    requires Invariant(st)
    ensures Invariant(State(Prepared(st.sender, f), KeptBy(st)))
  {
    PreparedFacts(st.sender, f);
    assert Ticks(SumDurations([])) == 0;
  }

  lemma SendingKeepsInvariant(s: Sender, sent: seq<Packet>, f: Frame)
    requires Invariant(State(s, sent)) && s.hadActiveSession && Sends(s, f)
    ensures var p := PacketFor(s, f);
            Invariant(State(AfterSending(AfterScaling(s, f), f.now, p.duration, f.encoded.value.bytes), sent + [p]))
  {
    var p := PacketFor(s, f);
    PacketIsWellSpaced(s, f);
    SendingFacts(AfterScaling(s, f), f.now, p.duration, f.encoded.value.bytes, SumDurations(sent));
    SendingKeepsSpacing(sent, p);
    SendingKeepsStamps(sent, p);
  }

  lemma NotSendingKeepsInvariant(s: Sender, sent: seq<Packet>, f: Frame)
    requires Invariant(State(s, sent))
    ensures Invariant(State(AfterNotSending(s, f), sent))
  {
    NotSendingFacts(s, f);
  }

  lemma StepKeepsInvariant(st: State, e: Event)
    requires Invariant(st)
    ensures Invariant(Step(st, e))
  {
    if e.Arrives? {
      var s := Prepared(st.sender, e.frame);
      ArrivalFindsInvariant(st, e.frame);
      if Sends(s, e.frame) {
        PreparedFacts(st.sender, e.frame);
        SendingKeepsInvariant(s, KeptBy(st), e.frame);
      } else {
        NotSendingKeepsInvariant(s, KeptBy(st), e.frame);
      }
    }
  }

  /** In every run the profile stays in its ranges, and the packets sent since the sender
      last started over are spaced and stamped as they should be. */
  lemma {:induction false} RunsStayPaced(start: nat, run: seq<Event>)
    ensures Invariant(After(start, run))
  {
    if run == [] {
    } else {
      RunsStayPaced(start, run[..|run| - 1]);
      StepKeepsInvariant(After(start, run[..|run| - 1]), run[|run| - 1]);
    }
  }

  function SumMacroblocks(sent: seq<Packet>): nat {
    if sent == [] then 0
    else
      var p := sent[|sent| - 1];
      SumMacroblocks(sent[..|sent| - 1]) + Macroblocks(p.paced.width, p.paced.height)
  }

  /** May so many macroblocks go out in so many nanoseconds? */
  ghost predicate KeepsLevel(macroblocks: nat, nanos: nat) {
    macroblocks * 1_000_000_000 <= LEVEL_3_1_MBS_PER_SEC * nanos
  }

  lemma LevelsAdd(m: nat, t: nat, m': nat, t': nat)
    requires KeepsLevel(m, t) && KeepsLevel(m', t')
    ensures KeepsLevel(m + m', t + t')
  {
  }

  /** Over any stretch of consecutive packets the macroblock rate of level 3.1 is kept, as
      long as no single frame exceeds what the level allows in a second. */
  lemma LevelIsKeptOverEveryWindow(sent: seq<Packet>, i: nat, j: nat)
    requires Spaced(sent) && i < j <= |sent|
    requires forall k | i < k < j :: Macroblocks(sent[k].paced.width, sent[k].paced.height) <= LEVEL_3_1_MBS_PER_SEC
    ensures sent[i].at <= sent[j - 1].at
    ensures KeepsLevel(SumMacroblocks(sent[i + 1..j]), sent[j - 1].at - sent[i].at)
  {
    forall k | i < k < j ensures KeepsLevelBehind(sent[k - 1], sent[k]) {
      assert WellSpaced(sent[k]);
      OnePacketKeepsLevel(sent[k]);
    }
    WindowKeepsLevel(sent, i, j);
  }

  ghost predicate KeepsLevelBehind(before: Packet, p: Packet) {
    && p.previous == before.at && before.at <= p.at
    && KeepsLevel(Macroblocks(p.paced.width, p.paced.height), p.at - before.at)
  }

  lemma {:induction false} WindowKeepsLevel(sent: seq<Packet>, i: nat, j: nat)
    requires i < j <= |sent| && forall k | i < k < j :: KeepsLevelBehind(sent[k - 1], sent[k])
    ensures sent[i].at <= sent[j - 1].at
    ensures KeepsLevel(SumMacroblocks(sent[i + 1..j]), sent[j - 1].at - sent[i].at)
    decreases j - i
  {
    if j == i + 1 {
      assert sent[i + 1..j] == [];
    } else {
      var before, p := sent[j - 2], sent[j - 1];
      WindowKeepsLevel(sent, i, j - 1);
      MacroblocksGrow(sent, i + 1, j);
      assert KeepsLevelBehind(before, p);
      LevelsAdd(SumMacroblocks(sent[i + 1..j - 1]), before.at - sent[i].at,
                Macroblocks(p.paced.width, p.paced.height), p.at - before.at);
    }
  }

  lemma MacroblocksGrow(sent: seq<Packet>, i: nat, j: nat)
    requires i < j <= |sent|
    ensures SumMacroblocks(sent[i..j])
            == SumMacroblocks(sent[i..j - 1]) + Macroblocks(sent[j - 1].paced.width, sent[j - 1].paced.height)
  {
    assert sent[i..j][..j - 1 - i] == sent[i..j - 1];
  }

  lemma OnePacketKeepsLevel(p: Packet)
    requires WellSpaced(p) && Macroblocks(p.paced.width, p.paced.height) <= LEVEL_3_1_MBS_PER_SEC
    ensures KeepsLevel(Macroblocks(p.paced.width, p.paced.height), p.at - p.previous)
  {
    LevelIntervalKeepsRate(p.paced.width, p.paced.height);
  }

  // --------------------------------------------------- timestamps and the clock

  /** What the duration leaves of the gap before a packet. */
  function Rest(p: Packet): int {
    p.at - p.previous - p.duration * NANOS_PER_MS
  }

  function Lost(sent: seq<Packet>): int {
    if sent == [] then 0 else Lost(sent[..|sent| - 1]) + Rest(sent[|sent| - 1])
  }

  ghost predicate ShortGaps(sent: seq<Packet>) {
    forall p <- sent :: IsShort(p)
  }

  predicate IsWhole(p: Packet) {
    (p.at - p.previous) % NANOS_PER_MS == 0
  }

  ghost predicate WholeGaps(sent: seq<Packet>) {
    forall p <- sent :: IsWhole(p)
  }

  /** The duration is the gap in milliseconds, cut to a whole number. */
  lemma RestIsCutOff(p: Packet)
    requires WellSpaced(p)
    ensures Rest(p) >= 0
    ensures IsShort(p) ==> Rest(p) == (p.at - p.previous) % NANOS_PER_MS
  {
    if IsShort(p) {
      RemainderIsUnique(p.at - p.previous, NANOS_PER_MS, p.duration, Rest(p));
    }
  }

  /** Less than a millisecond is lost for each packet, and nothing exactly when every gap is
      a whole number of milliseconds. */
  lemma {:induction false} LostIsBounded(sent: seq<Packet>)
    requires forall p <- sent :: WellSpaced(p)
    ensures Lost(sent) >= 0
    ensures ShortGaps(sent) ==> Lost(sent) <= |sent| * (NANOS_PER_MS - 1) && (Lost(sent) == 0 <==> WholeGaps(sent))
  {
    if sent == [] {
    } else {
      var front, p := sent[..|sent| - 1], sent[|sent| - 1];
      assert sent == front + [p];
      LostIsBounded(front);
      RestIsCutOff(p);
      assert WholeGaps(sent) <==> WholeGaps(front) && IsWhole(p);
    }
  }

  lemma SumsGrow(sent: seq<Packet>, i: nat, j: nat)
    requires i < j <= |sent|
    ensures SumDurations(sent[..j]) == SumDurations(sent[..j - 1]) + sent[j - 1].duration
    ensures Lost(sent[i..j]) == Lost(sent[i..j - 1]) + Rest(sent[j - 1])
  {
    assert sent[..j][..j - 1] == sent[..j - 1];
    assert sent[i..j][..j - 1 - i] == sent[i..j - 1];
  }

  /** The durations of packets i to j add up to the time from the packet before the first
      to the packet before the second, less what was lost. */
  lemma {:induction false} DurationsAndLossFillTheGaps(sent: seq<Packet>, i: nat, j: nat)
    requires Spaced(sent) && i <= j < |sent|
    ensures sent[j].previous - sent[i].previous
            == (SumDurations(sent[..j]) - SumDurations(sent[..i])) * NANOS_PER_MS + Lost(sent[i..j])
    decreases j - i
  {
    if i < j {
      DurationsAndLossFillTheGaps(sent, i, j - 1);
      SumsGrow(sent, i, j);
      assert sent[j].previous == sent[j - 1].at;
    }
  }

  lemma {:induction false} SumsAreMonotone(sent: seq<Packet>, i: nat, j: nat)
    requires i <= j <= |sent|
    ensures SumDurations(sent[..i]) <= SumDurations(sent[..j])
    decreases j - i
  {
    if i < j {
      SumsAreMonotone(sent, i, j - 1);
      SumsGrow(sent, i, j);
    }
  }

  /** Between two packets timestamps advance by 90 ticks for every millisecond of their
      durations. These never run ahead of the clock, and fall short of it by what was lost:
      less than a millisecond for each packet, and nothing exactly when every gap is a
      whole number of milliseconds. */
  lemma TimestampsLagTheClock(sent: seq<Packet>, i: nat, j: nat) returns (sum: nat, lost: nat)
    requires Spaced(sent) && Stamped(sent) && i < j < |sent|
    ensures sum == SumDurations(sent[..j]) - SumDurations(sent[..i]) && lost == Lost(sent[i..j])
    ensures sent[j].timestamp == Advanced(sent[i].timestamp, sum)
    ensures sent[j].previous == sent[i].previous + sum * NANOS_PER_MS + lost
    ensures ShortGaps(sent[i..j]) ==> lost <= (j - i) * (NANOS_PER_MS - 1) && (lost == 0 <==> WholeGaps(sent[i..j]))
  {
    DurationsAndLossFillTheGaps(sent, i, j);
    SumsAreMonotone(sent, i, j);
    LostIsBounded(sent[i..j]);
    sum, lost := SumDurations(sent[..j]) - SumDurations(sent[..i]), Lost(sent[i..j]);
    StampsAdvance(sent, i, j, sum);
  }

  /** k turns of the 32-bit timestamp, in millionths of a tick. */
  function Turns(k: int): int {
    k * (NANOS_PER_MS * TWO_POW_32)
  }

  ghost predicate WholeTurns(x: int) {
    exists k :: Turns(k) == x
  }

  /** Counted in millionths of a tick, and but for whole turns, two timestamps are as far
      apart as the clock says. */
  ghost predicate FollowsClock(before: nat, after: nat, gap: nat) {
    WholeTurns(NANOS_PER_MS * before + RTP_TICKS_PER_MS * gap - NANOS_PER_MS * after)
  }

  /** Timestamps follow the clock exactly when what was lost is whole turns of the
      timestamp; so, up to 47 million packets, when every gap is a whole number of
      milliseconds. */
  lemma TimestampsFollowTheClockExactlyWhen(sent: seq<Packet>, i: nat, j: nat)
    requires Spaced(sent) && Stamped(sent) && i < j < |sent| && ShortGaps(sent[i..j])
    ensures sent[i].previous <= sent[j].previous
    ensures
      var follows := FollowsClock(sent[i].timestamp, sent[j].timestamp, sent[j].previous - sent[i].previous);
      && (follows <==> WholeTurns(RTP_TICKS_PER_MS * Lost(sent[i..j])))
      && (RTP_TICKS_PER_MS * (j - i) <= TWO_POW_32 ==> (follows <==> WholeGaps(sent[i..j])))
  {
    var sum, lost := TimestampsLagTheClock(sent, i, j);
    var before, after, gap := sent[i].timestamp, sent[j].timestamp, sent[j].previous - sent[i].previous;
    StampsFollowExactlyWhen(before, after, gap, sum, lost, j - i);
  }

  lemma StampsFollowExactlyWhen(before: nat, after: nat, gap: nat, sum: nat, lost: nat, n: nat)
    requires after == Advanced(before, sum)
    requires gap == sum * NANOS_PER_MS + lost && n > 0 && lost <= n * (NANOS_PER_MS - 1)
    ensures FollowsClock(before, after, gap) <==> WholeTurns(RTP_TICKS_PER_MS * lost)
    ensures RTP_TICKS_PER_MS * n <= TWO_POW_32 ==> (FollowsClock(before, after, gap) <==> lost == 0)
  {
    var q := (before + RTP_TICKS_PER_MS * sum) / TWO_POW_32;
    var x := RTP_TICKS_PER_MS * lost;
    assert NANOS_PER_MS * before + RTP_TICKS_PER_MS * gap - NANOS_PER_MS * after == x + Turns(q);
    TurnsCancel(x, q);
    assert Turns(0) == 0;
    if RTP_TICKS_PER_MS * n <= TWO_POW_32 && WholeTurns(x) {
      var k :| Turns(k) == x;
      assert 0 <= x < Turns(1);
    }
  }

  lemma TurnsCancel(x: int, q: int)
    ensures WholeTurns(x + Turns(q)) <==> WholeTurns(x)
  {
    if k :| Turns(k) == x {
      assert Turns(k + q) == x + Turns(q);
    }
    if k :| Turns(k) == x + Turns(q) {
      assert Turns(k - q) == x;
    }
  }

  lemma StampsAdvance(sent: seq<Packet>, i: nat, j: nat, gap: nat)
    requires Stamped(sent) && i < j < |sent| && SumDurations(sent[..j]) == SumDurations(sent[..i]) + gap
    ensures sent[j].timestamp == Advanced(sent[i].timestamp, gap)
  {
    StampedThroughout(sent, i);
    StampedThroughout(sent, j);
    TicksAdvance(SumDurations(sent[..i]), gap);
  }

  lemma TicksAdvance(a: nat, b: nat)
    ensures Ticks(a + b) == Advanced(Ticks(a), b)
  {
    var ahead := Ticks(a) + RTP_TICKS_PER_MS * b;
    RemainderIsUnique(RTP_TICKS_PER_MS * (a + b), TWO_POW_32,
                      RTP_TICKS_PER_MS * a / TWO_POW_32 + ahead / TWO_POW_32, ahead % TWO_POW_32);
  }

  // ------------------------------------------------------------ an input that drifts

  /** 16.9 milliseconds. */
  const DRIFTING_GAP: nat := 16_900_000

  const SMALL: Size := Size(640, 480)

  /** An encoded frame that needs no scaling and meets no congestion. */
  function CalmFrame(now: nat): Frame {
    Frame(now, SMALL, false, Pressure(0, 0, 0), SMALL, Some(Encoded(1000, false)))
  }

  /** A sender that found nothing but calm frames. */
  ghost predicate Calm(s: Sender) {
    s.profile == BEST && !s.scalingDisabled
  }

  lemma CalmFrameIsSent(s: Sender, now: nat) returns (t: Sender, p: Packet)
    requires Calm(s) && now == s.lastSent + DRIFTING_GAP
    ensures Handle(s, CalmFrame(now)) == (t, Some(p))
    ensures p.at == now && p.previous == s.lastSent && p.duration == 16
    ensures Calm(t) && t.lastSent == now && t.hadActiveSession
  {
    var f := CalmFrame(now);
    var u := Prepared(s, f);
    CalmFrameLeavesCalm(s, f);
    CalmFrameIsDue(u, now);
    p := PacketFor(u, f);
    t := AfterSending(u, now, 16, 1000);
  }

  lemma CalmFrameLeavesCalm(s: Sender, f: Frame)
    requires Calm(s) && f.pressure == Pressure(0, 0, 0)
    ensures var u := Prepared(s, f); Calm(u) && u.lastSent == s.lastSent && u.hadActiveSession
  {
  }

  lemma CalmFrameIsDue(u: Sender, now: nat)
    requires Calm(u) && now == u.lastSent + DRIFTING_GAP
    ensures var f := CalmFrame(now);
            Sends(u, f) && PacketFor(u, f).duration == 16 && AfterScaling(u, f) == u
  {
    SmallFramesAreFast();
    RemainderIsUnique(DRIFTING_GAP, NANOS_PER_MS, 16, 900_000);
  }

  lemma SmallFramesAreFast()
    ensures LevelInterval(640, 480) == 16
  {
    assert Macroblocks(640, 480) == 40 * 30;
    assert LEVEL_3_1_MBS_PER_SEC / 1200 == 90;
    assert DivCeil(1000, 90) == 12;
  }

  /** The packets sent at every 16.9 ms. */
  ghost predicate Drifting(st: State, start: nat, n: nat) {
    && |st.sent| == n && SumDurations(st.sent) == 16 * n && st.sender.lastSent == start + DRIFTING_GAP * n
    && Calm(st.sender) && (n > 0 ==> st.sender.hadActiveSession)
    && (forall k | 0 <= k < n :: st.sent[k].previous == start + DRIFTING_GAP * k)
    && (forall p <- st.sent :: p.at == p.previous + DRIFTING_GAP && p.duration == 16)
  }

  lemma SendingStep(st: State, f: Frame, t: Sender, p: Packet)
    requires Handle(st.sender, f) == (t, Some(p)) && (st.sender.hadActiveSession || st.sent == [])
    ensures Step(st, Arrives(f)) == State(t, st.sent + [p])
  {
  }

  lemma DriftingGrows(st: State, t: Sender, p: Packet, start: nat, n: nat)
    requires Drifting(st, start, n) && Calm(t) && t.hadActiveSession && t.lastSent == p.at
    requires p.previous == st.sender.lastSent && p.at == p.previous + DRIFTING_GAP && p.duration == 16
    ensures Drifting(State(t, st.sent + [p]), start, n + 1)
  {
    assert (st.sent + [p])[..n] == st.sent;
  }

  lemma DriftsOneMore(start: nat, run: seq<Event>, n: nat) returns (longer: seq<Event>)
    requires Drifting(After(start, run), start, n)
    ensures Drifting(After(start, longer), start, n + 1)
  {
    var st, f := After(start, run), CalmFrame(start + DRIFTING_GAP * (n + 1));
    var t, p := CalmFrameIsSent(st.sender, f.now);
    SendingStep(st, f, t, p);
    DriftingGrows(st, t, p, start, n);
    longer := OneMoreEvent(start, run, f, State(t, st.sent + [p]));
  }

  lemma OneMoreEvent(start: nat, run: seq<Event>, f: Frame, next: State) returns (longer: seq<Event>)
    requires Step(After(start, run), Arrives(f)) == next
    ensures After(start, longer) == next
  {
    longer := run + [Arrives(f)];
    assert longer[..|run|] == run;
  }

  lemma {:induction false} DriftingRun(start: nat, n: nat) returns (run: seq<Event>)
    ensures Drifting(After(start, run), start, n)
  {
    run := [];
    if n > 0 {
      var before := DriftingRun(start, n - 1);
      run := DriftsOneMore(start, before, n - 1);
    }
  }

  /** n packets at every 16.9 ms that carry 16 ms each. Between the first and the last,
      timestamps follow the clock only when the number of gaps is a multiple of 2^32: then
      what was lost is whole turns of the timestamp. */
  ghost predicate Lags(sent: seq<Packet>, n: nat) {
    && |sent| == n >= 2 && SumDurations(sent) == 16 * n
    && sent[n - 1].previous == sent[0].previous + DRIFTING_GAP * (n - 1)
    && (FollowsClock(sent[0].timestamp, sent[n - 1].timestamp, sent[n - 1].previous - sent[0].previous)
        <==> (n - 1) % TWO_POW_32 == 0)
  }

  /** A sender can lag for ever. */
  lemma TimestampsMayDrift(start: nat, n: nat) returns (run: seq<Event>)
    requires n >= 2
    ensures Lags(After(start, run).sent, n)
  {
    run := DriftingRun(start, n);
    RunsStayPaced(start, run);
    DriftingLags(After(start, run), start, n);
  }

  lemma DriftingLags(st: State, start: nat, n: nat)
    requires Drifting(st, start, n) && Invariant(st) && n >= 2
    ensures Lags(st.sent, n)
  {
    EqualGapsShow(st.sent, n - 1);
  }

  /** 16.9 ms gaps lose 900000 ns each. */
  lemma EqualGapsShow(sent: seq<Packet>, j: nat)
    requires Spaced(sent) && Stamped(sent) && 0 < j < |sent|
    requires forall p <- sent :: p.at == p.previous + DRIFTING_GAP && p.duration == 16
    ensures sent[0].previous <= sent[j].previous
    ensures FollowsClock(sent[0].timestamp, sent[j].timestamp, sent[j].previous - sent[0].previous)
            <==> j % TWO_POW_32 == 0
  {
    EqualLoss(sent[0..j], 900_000);
    TimestampsFollowTheClockExactlyWhen(sent, 0, j);
    LossInTurns(j);
  }

  lemma {:induction false} EqualLoss(sent: seq<Packet>, rest: int)
    requires forall p <- sent :: Rest(p) == rest
    ensures Lost(sent) == rest * |sent|
  {
    if sent == [] {
    } else {
      EqualLoss(sent[..|sent| - 1], rest);
    }
  }

  /** The inverse of 81 modulo 2^32. */
  const INVERSE_81: nat := 2_014_922_929

  /** 90 ticks for 900000 ns are 81 million millionths of a tick, and 81 is odd. */
  lemma LossInTurns(j: nat)
    ensures WholeTurns(RTP_TICKS_PER_MS * (900_000 * j)) <==> j % TWO_POW_32 == 0
  {
    assert INVERSE_81 * 81 == TWO_POW_32 * 38 + 1;
    if k :| Turns(k) == RTP_TICKS_PER_MS * (900_000 * j) {
      assert 81 * j == TWO_POW_32 * k;
      assert j == INVERSE_81 * (81 * j) - TWO_POW_32 * (38 * j);
      assert INVERSE_81 * (TWO_POW_32 * k) == TWO_POW_32 * (INVERSE_81 * k);
      RemainderIsUnique(j, TWO_POW_32, INVERSE_81 * k - 38 * j, 0);
    }
    if j % TWO_POW_32 == 0 {
      assert Turns(81 * (j / TWO_POW_32)) == RTP_TICKS_PER_MS * (900_000 * j);
    }
  }

  // ------------------------------------------------------ sessions and congestion

  /** Session events leave the pace alone: only starting over zeroes the timestamp and puts
      the profile back; a refresh keeps both. Scaling that was given up stays so exactly
      while the session, the encoder and the source stay the same. */
  lemma OnlyStartingOverZeroesTheTimestamp(s: Sender, f: Frame)
    ensures
      var t := AfterTransitions(s, f);
      && t.hadActiveSession && t.lastSent == s.lastSent
      && (if s.hadActiveSession then t.packetTimestamp == s.packetTimestamp && t.profile == s.profile
          else t.packetTimestamp == 0 && t.profile == BEST)
      && (t.scalingDisabled <==>
            s.scalingDisabled && s.hadActiveSession && !f.refreshEncoder && f.size == s.sourceSize)
  {
  }

  /** Pressure only ever makes pictures smaller and rarer, and changes nothing exactly when
      there is none or the profile is as far down as this kind of pressure takes it. */
  lemma PressureOnlyDegrades(s: Sender, p: Pressure)
    requires InRange(s.profile)
    ensures
      var a, b := s.profile, UnderPressure(s, p).profile;
      && InRange(b) && b.width <= a.width && b.height <= a.height && a.interval <= b.interval
      && (b == a <==>
            if Congested(p) then a == WORST
            else p.maxQueueLen < HIGH_WATERMARK || a.interval == INTERVAL_MAX)
  {
  }

  /** How many of the last frames met congestion, since a frame found no session. */
  function CongestedInARow(run: seq<Event>): nat {
    if run == [] then 0
    else
      match run[|run| - 1]
      case NoSessions => 0
      case Arrives(f) => if Congested(f.pressure) then CongestedInARow(run[..|run| - 1]) + 1 else 0
  }

  /** The size limits after n congested frames in a row. */
  ghost predicate Lowered(s: Sender, n: nat) {
    && InRange(s.profile) && (n > 0 ==> s.hadActiveSession)
    && s.profile.width <= Max(960 - 80 * n, 704) && s.profile.height <= Max(540 - 45 * n, 416)
  }

  lemma CongestedFrameLowers(st: State, f: Frame, n: nat)
    requires Lowered(st.sender, n) && Congested(f.pressure)
    ensures Lowered(Step(st, Arrives(f)).sender, n + 1)
  {
    CongestedFrameShrinks(st.sender, f);
  }

  lemma {:induction false} CongestionLowers(start: nat, run: seq<Event>)
    ensures Lowered(After(start, run).sender, CongestedInARow(run))
  {
    RunsStayPaced(start, run);
    if run == [] {
    } else {
      var front, e := run[..|run| - 1], run[|run| - 1];
      if e.Arrives? && Congested(e.frame.pressure) {
        CongestionLowers(start, front);
        CongestedFrameLowers(After(start, front), e.frame, CongestedInARow(front));
      }
    }
  }

  /** In every run, four congested frames in a row bring the size limits of the profile down
      to the smallest, whatever encoding gives and whichever sessions join; a frame that
      finds no session lifts them again. */
  lemma CongestionLowersTheLimits(start: nat, run: seq<Event>)
    requires CongestedInARow(run) >= 4
    ensures var p := After(start, run).sender.profile; p.width == 704 && p.height == 416
  {
    CongestionLowers(start, run);
  }

  /** ... and a frame after one that found none starts over: at most one step below the
      largest limits. */
  lemma NoSessionLiftsTheLimits(start: nat, run: seq<Event>, f: Frame)
    ensures var before := After(start, run + [NoSessions]).sender;
            var p := Prepared(before, f).profile;
            p.width >= 880 && p.height >= 495
  {
    assert (run + [NoSessions])[..|run|] == run;
  }

  lemma CongestedFrameShrinks(s: Sender, f: Frame)
    requires InRange(s.profile) && Congested(f.pressure)
    ensures
      var a, t := if s.hadActiveSession then s.profile else BEST, Handle(s, f).0;
      && t.hadActiveSession && InRange(t.profile)
      && t.profile.width <= Max(a.width - 80, 704) && t.profile.height <= Max(a.height - 45, 416)
  {
    var u := Prepared(s, f);
    CongestionDegrades(s, f);
    if Sends(u, f) {
      SendingKeepsTheSize(AfterScaling(u, f), f.now, PacketFor(u, f).duration, f.encoded.value.bytes);
    } else {
      NotSendingFacts(u, f);
    }
  }

  lemma CongestionDegrades(s: Sender, f: Frame)
    requires InRange(s.profile) && Congested(f.pressure)
    ensures
      var a, u := if s.hadActiveSession then s.profile else BEST, Prepared(s, f);
      && u.stableFrames == 0 && u.hadActiveSession && InRange(u.profile)
      && u.profile.width <= Max(a.width - 80, 704) && u.profile.height <= Max(a.height - 45, 416)
  {
  }

  /** The profile is put back only after 120 packets without congestion. */
  lemma SendingKeepsTheSize(s: Sender, now: nat, duration: nat, bytes: nat)
    requires InRange(s.profile) && s.stableFrames == 0
    ensures
      var t := AfterSending(s, now, duration, bytes);
      && InRange(t.profile) && t.hadActiveSession == s.hadActiveSession
      && t.profile.width == s.profile.width && t.profile.height == s.profile.height
  {
  }
}
