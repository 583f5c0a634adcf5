/** The per-session video queue and the task that drains it into a track. */
module VideoQueue {
  import opened Wrappers
  import opened Subsequences

  datatype Sample = Sample(id: int, isKeyframe: bool)

  datatype PushResult = PushResult(lenAfter: nat, wasFull: bool, droppedExisting: nat, droppedIncoming: bool)

  ghost predicate HoldsKeyframe(buffer: seq<Sample>) {
    exists i | 0 <= i < |buffer| :: buffer[i].isKeyframe
  }

  /** What a push leaves in the queue. A full queue makes room by the kind of frame that
      arrives and the kind at the front: a keyframe replaces the whole backlog; a delta
      frame pushes out the oldest delta frame, or the frame after a leading keyframe; and
      it is itself refused when a lone keyframe fills the queue. */
  function Pushed(capacity: nat, closed: bool, buffer: seq<Sample>, sample: Sample): (seq<Sample>, PushResult)
    requires capacity > 0
  {
    if closed then (buffer, PushResult(0, false, 0, true))
    else if |buffer| < capacity then (buffer + [sample], PushResult(|buffer| + 1, false, 0, false))
    else if sample.isKeyframe then ([sample], PushResult(1, true, |buffer|, false))
    else if !buffer[0].isKeyframe then (buffer[1..] + [sample], PushResult(|buffer|, true, 1, false))
    else if |buffer| == 1 then (buffer, PushResult(1, true, 0, true))
    else ([buffer[0]] + buffer[2..] + [sample], PushResult(|buffer|, true, 1, false))
  }

  /** What may become of a queue when a sample comes in. It is refused exactly by a closed
      queue, or as a delta frame by a queue that a lone keyframe fills; and then nothing
      changes. Otherwise it is the last in the queue, behind all that was there if there was
      room; behind nothing if it is a keyframe and there was none; and else behind all but
      one, the oldest, or the second if the oldest is a keyframe. */
  ghost predicate KeepsPolicy(capacity: nat, closed: bool, before: seq<Sample>, sample: Sample,
                              after: seq<Sample>, r: PushResult)
    requires 0 < capacity
  {
    var full := |before| >= capacity;
    && (r.droppedIncoming <==> closed || (!sample.isKeyframe && full && |before| == 1 && before[0].isKeyframe))
    && (r.wasFull <==> !closed && full)
    && (if r.droppedIncoming then after == before && r.droppedExisting == 0
        else
          && after != [] && after[|after| - 1] == sample && r.lenAfter == |after|
          && r.droppedExisting == |before| + 1 - |after|
          && IsKept(before, after[..|after| - 1], full, sample.isKeyframe))
  }

  ghost predicate IsKept(before: seq<Sample>, kept: seq<Sample>, full: bool, forKeyframe: bool) {
    if !full then kept == before
    else if forKeyframe then kept == []
    else before != [] && kept == Without(before, if before[0].isKeyframe then 1 else 0)
  }

  /** All but the sample at position k. */
  function Without(samples: seq<Sample>, k: nat): seq<Sample> {
    if k < |samples| then samples[..k] + samples[k + 1..] else samples
  }

  lemma PushKeepsPolicy(capacity: nat, closed: bool, buffer: seq<Sample>, sample: Sample)
    requires capacity > 0
    ensures var (buffer', r) := Pushed(capacity, closed, buffer, sample);
            KeepsPolicy(capacity, closed, buffer, sample, buffer', r)
  {
    if buffer != [] {
      assert Without(buffer, 0) == buffer[1..];
      assert |buffer| > 1 ==> Without(buffer, 1) == [buffer[0]] + buffer[2..];
    }
  }

  /** No push takes the last keyframe out of a queue, and what goes in or is dropped adds
      up with what was there. */
  lemma PushKeepsAKeyframe(capacity: nat, closed: bool, buffer: seq<Sample>, sample: Sample)
    requires capacity > 0 && |buffer| <= capacity
    ensures var (buffer', r) := Pushed(capacity, closed, buffer, sample);
            && (HoldsKeyframe(buffer) ==> HoldsKeyframe(buffer'))
            && |buffer'| <= capacity
            && |buffer| + 1 == |buffer'| + r.droppedExisting + (if r.droppedIncoming then 1 else 0)
  {
    var buffer' := Pushed(capacity, closed, buffer, sample).0;
    if k :| 0 <= k < |buffer| && buffer[k].isKeyframe {
      if closed || |buffer| < capacity {
        assert buffer'[k].isKeyframe;
      } else if sample.isKeyframe || buffer[0].isKeyframe {
        assert buffer'[0].isKeyframe;
      } else {
        assert buffer'[k - 1].isKeyframe;
      }
    }
  }

  class VideoSampleQueue {
    const capacity: nat
    var closed: bool
    var buffer: seq<Sample>
    var permit: bool
    var waiting: bool

    ghost predicate Valid()
      reads this
    {
      0 < capacity && |buffer| <= capacity
    }

    constructor (requested: nat)
      ensures Valid() && !closed && buffer == [] && !permit && !waiting
      ensures capacity == if requested == 0 then 1 else requested
    {
      capacity := if requested == 0 then 1 else requested;
      closed, buffer, permit, waiting := false, [], false, false;
    }

    /** Closing wakes the sender if it waits, and leaves nothing for it if it does not. */
    method Close()
      modifies this`closed, this`waiting
      ensures closed && !waiting
    {
      closed := true;
      waiting := false;
    }

    /** Wakes the sender if it waits, or else leaves a permit for its next wait. */
    method NotifyOne()
      modifies this`permit, this`waiting
      ensures !waiting && permit == (old(permit) || !old(waiting))
    {
      if waiting {
        waiting := false;
      } else {
        permit := true;
      }
    }

    /** Takes a permit if there is one, or else waits. */
    method Await()
      modifies this`permit, this`waiting
      ensures !permit && waiting == !old(permit)
    {
      waiting := !permit;
      permit := false;
    }

    method Push(sample: Sample) returns (r: PushResult)
      requires Valid()
      modifies this`buffer, this`permit, this`waiting
      ensures Valid()
      ensures (buffer, r) == Pushed(capacity, closed, old(buffer), sample)
      ensures KeepsPolicy(capacity, closed, old(buffer), sample, buffer, r)
      ensures if r.droppedIncoming then permit == old(permit) && waiting == old(waiting)
              else !waiting && permit == (old(permit) || !old(waiting))
      ensures HoldsKeyframe(old(buffer)) ==> HoldsKeyframe(buffer)
      ensures |old(buffer)| + 1 == |buffer| + r.droppedExisting + (if r.droppedIncoming then 1 else 0)
      ensures closed || r.lenAfter == |buffer|
    {
      PushKeepsAKeyframe(capacity, closed, buffer, sample);
      PushKeepsPolicy(capacity, closed, buffer, sample);
      r := Store(sample);
      if !r.droppedIncoming {
        NotifyOne();
      }
    }

    /** The part under the lock. */
    method Store(sample: Sample) returns (r: PushResult)
      requires Valid()
      modifies this`buffer
      ensures (buffer, r) == Pushed(capacity, closed, old(buffer), sample)
    {
      r := PushResult(0, false, 0, false);
      if closed {
        return r.(droppedIncoming := true);
      }
      if |buffer| >= capacity {
        r := r.(wasFull := true);
        if sample.isKeyframe {
          r := r.(droppedExisting := |buffer|);
          buffer := [];
          assert buffer + [sample] == [sample];
        } else if buffer[0].isKeyframe {
          if |buffer| == 1 {
            return r.(droppedIncoming := true, lenAfter := |buffer|);
          }
          buffer := [buffer[0]] + buffer[2..];
          r := r.(droppedExisting := 1);
        } else {
          buffer := buffer[1..];
          r := r.(droppedExisting := 1);
        }
      }
      buffer := buffer + [sample];
      r := r.(lenAfter := |buffer|);
    }

    /** One look at the queue under its lock. Whether the queue is closed is only looked at
        after that, when nothing was found. */
    method TryPop() returns (sample: Option<Sample>)
      requires Valid()
      modifies this`buffer
      ensures Valid()
      ensures if old(buffer) == [] then sample == None && buffer == []
              else sample == Some(old(buffer)[0]) && buffer == old(buffer)[1..]
    {
      if buffer != [] {
        sample, buffer := Some(buffer[0]), buffer[1..];
      } else {
        sample := None;
      }
    }
  }

  // ------------------------------------------------------ queue and consumer

  /** Where the sender is: about to look into the queue; having seen it empty, about to look
      at whether it is closed; having seen it open, about to wait; waiting; or ended. */
  datatype Phase = Looking | SawEmpty | SawOpen | Waiting | Ended

  /** The queue and the task that drains it. */
  datatype Core = Core(
    closed: bool,
    buffer: seq<Sample>,
    permit: bool,
    sentKeyframe: bool,
    phase: Phase,
    written: seq<Sample>)

  /** Everything a run of one session touches, with a record of what went in and where it
      ended up. A push puts its sample in and notifies after that, a close sets the flag and
      wakes after that; `notifying` and `waking` count what has still to be done. */
  datatype Session = Session(
    capacity: nat,
    core: Core,
    notifying: nat,
    waking: nat,
    pushed: seq<Sample>,
    skipped: nat,
    failed: nat,
    droppedExisting: nat,
    droppedIncoming: nat)

  /** A push looks at whether the queue is closed before it takes the lock: `early` says
      that it did so before a close that has happened since. */
  datatype Event =
    | Push(sample: Sample, early: bool)
    | Notify
    | Close
    | Wake
    | Drain(writeSucceeds: bool)

  const FIRST: Core := Core(false, [], false, false, Looking, [])

  function Started(capacity: nat): Session {
    Session(capacity, FIRST, 0, 0, [], 0, 0, 0, 0)
  }

  /** One turn of the sender task. With something queued: take the front sample, skip delta
      frames until the first keyframe, write, and close the queue when a write fails. With
      nothing queued the next turn ends the task if the queue is closed, and else the turn
      after that waits, unless a push has left a permit. */
  function Turned(c: Core, writeSucceeds: bool): Core {
    match c.phase
    case Ended => c
    case Waiting => c
    case SawEmpty => c.(phase := if c.closed then Ended else SawOpen)
    case SawOpen => c.(permit := false, phase := if c.permit then Looking else Waiting)
    case Looking =>
      if c.buffer == [] then c.(phase := SawEmpty)
      else if Skips(c) then c.(buffer := c.buffer[1..])
      else if writeSucceeds then
        c.(buffer := c.buffer[1..], sentKeyframe := true, written := c.written + [c.buffer[0]])
      else c.(buffer := c.buffer[1..], sentKeyframe := true, phase := Ended, closed := true)
  }

  predicate Skips(c: Core) {
    c.phase == Looking && c.buffer != [] && !c.sentKeyframe && !c.buffer[0].isKeyframe
  }

  predicate Fails(c: Core, writeSucceeds: bool) {
    c.phase == Looking && c.buffer != [] && !Skips(c) && !writeSucceeds
  }

  function Drained(s: Session, writeSucceeds: bool): Session {
    s.(core := Turned(s.core, writeSucceeds),
       skipped := s.skipped + (if Skips(s.core) then 1 else 0),
       failed := s.failed + (if Fails(s.core, writeSucceeds) then 1 else 0))
  }

  function Woken(phase: Phase): Phase {
    if phase == Waiting then Looking else phase
  }

  function Notified(c: Core): Core {
    c.(phase := Woken(c.phase), permit := c.permit || c.phase != Waiting)
  }

  function Step(s: Session, e: Event): Session
    requires s.capacity > 0
  {
    match e
    case Close => s.(core := s.core.(closed := true), waking := s.waking + 1)
    case Wake =>
      if s.waking == 0 then s else s.(waking := s.waking - 1, core := s.core.(phase := Woken(s.core.phase)))
    case Notify => if s.notifying == 0 then s else s.(notifying := s.notifying - 1, core := Notified(s.core))
    case Drain(ok) => Drained(s, ok)
    case Push(sample, early) => PushedTo(s, s.core.closed && !early, sample)
  }

  function PushedTo(s: Session, closed: bool, sample: Sample): Session
    requires s.capacity > 0
  {
    var (buffer, r) := Pushed(s.capacity, closed, s.core.buffer, sample);
    s.(core := s.core.(buffer := buffer),
       notifying := s.notifying + (if r.droppedIncoming then 0 else 1),
       pushed := s.pushed + [sample],
       droppedExisting := s.droppedExisting + r.droppedExisting,
       droppedIncoming := s.droppedIncoming + (if r.droppedIncoming then 1 else 0))
  }

  function After(capacity: nat, run: seq<Event>): (s: Session)
    requires capacity > 0
    ensures s.capacity == capacity
  {
    if run == [] then Started(capacity) else Step(After(capacity, run[..|run| - 1]), run[|run| - 1])
  }

  /** The sender task, turn by turn, over a queue it shares with the encoder. */
  class SenderTask {
    const queue: VideoSampleQueue
    var sentKeyframe: bool
    var phase: Phase
    var written: seq<Sample>

    /** Only this task ever waits for the queue. */
    ghost predicate Valid()
      reads this, queue
    {
      queue.Valid() && (queue.waiting ==> phase == Waiting)
    }

    constructor (queue: VideoSampleQueue)
      requires queue.Valid() && !queue.waiting
      ensures Valid() && this.queue == queue && !sentKeyframe && phase == Looking && written == []
    {
      this.queue := queue;
      sentKeyframe, phase, written := false, Looking, [];
    }

    /** A task that waited and was woken is about to look. */
    ghost function View(): Core
      reads this, queue
    {
      var now := if queue.waiting then phase else Woken(phase);
      Core(queue.closed, queue.buffer, queue.permit, sentKeyframe, now, written)
    }

    method Turn(writeSucceeds: bool)
      requires Valid()
      modifies this, queue
      ensures Valid() && View() == Turned(old(View()), writeSucceeds)
    {
      if phase == Ended || queue.waiting {
        return;
      }
      if phase == SawEmpty {
        if queue.closed {
          queue.Close();
          phase := Ended;
        } else {
          phase := SawOpen;
        }
      } else if phase == SawOpen {
        queue.Await();
        phase := if queue.waiting then Waiting else Looking;
      } else {
        phase := Looking;
        Look(writeSucceeds);
      }
    }

    method Look(writeSucceeds: bool)
      requires Valid() && phase == Looking
      modifies this, queue
      ensures Valid() && View() == Turned(old(View()), writeSucceeds)
    {
      var next := queue.TryPop();
      if next == None {
        phase := SawEmpty;
        return;
      }
      var sample := next.value;
      if !sentKeyframe && !sample.isKeyframe {
        return;
      }
      if sample.isKeyframe {
        sentKeyframe := true;
      }
      if !writeSucceeds {
        queue.Close();
        phase := Ended;
        return;
      }
      written := written + [sample];
    }
  }

  // -------------------------------------------------------------- properties

  ghost predicate Invariant(s: Session) {
    && s.capacity > 0
    && |s.core.buffer| <= s.capacity
    && IsSubsequence(s.core.written + s.core.buffer, s.pushed)
    && (s.core.written != [] ==> s.core.written[0].isKeyframe)
    && (s.core.sentKeyframe <==> s.core.written != [] || s.failed > 0)
    && (s.failed > 0 ==> s.core.phase == Ended)
    && |s.pushed| == |s.core.written| + s.skipped + s.failed + s.droppedExisting + s.droppedIncoming + |s.core.buffer|
    && (s.core.phase == Ended ==> s.core.closed)
  }

  /** What is written and queued came in that order, and there is room for it. */
  ghost predicate IsInOrder(s: Session) {
    && s.capacity > 0 && |s.core.buffer| <= s.capacity
    && IsSubsequence(s.core.written + s.core.buffer, s.pushed)
  }

  lemma PushKeepsOrder(s: Session, closed: bool, sample: Sample)
    requires IsInOrder(s)
    ensures IsSubsequence(s.core.written + Pushed(s.capacity, closed, s.core.buffer, sample).0, s.pushed + [sample])
  {
    var w, n := |s.core.written|, |s.core.buffer|;
    var buffer := Pushed(s.capacity, closed, s.core.buffer, sample).0;
    if closed {
      AppendToWhole(s.core.written + s.core.buffer, s.pushed, sample);
    } else if n < s.capacity {
      CutAndAppend(s, w, w, sample);
      assert s.core.buffer[..0] + s.core.buffer[0..] + [sample] == buffer;
    } else if sample.isKeyframe {
      CutAndAppend(s, w, w + n, sample);
      assert s.core.buffer[..0] + s.core.buffer[n..] + [sample] == buffer;
    } else if !s.core.buffer[0].isKeyframe {
      CutAndAppend(s, w, w + 1, sample);
      assert s.core.buffer[..0] + s.core.buffer[1..] + [sample] == buffer;
    } else if n == 1 {
      AppendToWhole(s.core.written + s.core.buffer, s.pushed, sample);
    } else {
      CutAndAppend(s, w + 1, w + 2, sample);
      assert s.core.buffer[..1] + s.core.buffer[2..] + [sample] == buffer;
    }
  }

  /** A stretch of the queue is cut out and the sample goes on the end. */
  lemma CutAndAppend(s: Session, lo: nat, hi: nat, sample: Sample)
    requires IsInOrder(s) && |s.core.written| <= lo <= hi <= |s.core.written| + |s.core.buffer|
    ensures var w, b := |s.core.written|, s.core.buffer;
            IsSubsequence(s.core.written + (b[..lo - w] + b[hi - w..] + [sample]), s.pushed + [sample])
  {
    var a := s.core.written + s.core.buffer;
    CutOut(a, s.pushed, lo, hi);
    AppendToBoth(a[..lo] + a[hi..], s.pushed, sample);
    CutBehind(s.core.written, s.core.buffer, lo, hi, [sample]);
  }

  lemma CutBehind(w: seq<Sample>, b: seq<Sample>, lo: nat, hi: nat, tail: seq<Sample>)
    requires |w| <= lo <= hi <= |w| + |b|
    ensures w + (b[..lo - |w|] + b[hi - |w|..] + tail) == (w + b)[..lo] + (w + b)[hi..] + tail
  {
    assert (w + b)[..lo] == w + b[..lo - |w|];
    assert (w + b)[hi..] == b[hi - |w|..];
  }

  lemma DrainKeepsOrder(s: Session, writeSucceeds: bool)
    requires IsInOrder(s)
    ensures var t := Drained(s, writeSucceeds); IsSubsequence(t.core.written + t.core.buffer, t.pushed)
  {
    if s.core.buffer != [] {
      FrontIsWrittenOrCutOut(s.core.written, s.core.buffer, s.pushed);
    }
  }

  lemma FrontIsWrittenOrCutOut(written: seq<Sample>, buffer: seq<Sample>, pushed: seq<Sample>)
    requires IsSubsequence(written + buffer, pushed) && buffer != []
    ensures IsSubsequence((written + [buffer[0]]) + buffer[1..], pushed)
    ensures IsSubsequence(written + buffer[1..], pushed)
  {
    var a, w := written + buffer, |written|;
    assert (written + [buffer[0]]) + buffer[1..] == a;
    CutOut(a, pushed, w, w + 1);
    assert written + buffer[1..] == a[..w] + a[w + 1..];
  }

  lemma StepKeepsInvariant(s: Session, e: Event)
    requires Invariant(s)
    ensures Invariant(Step(s, e))
  {
    match e
    case Drain(ok) => DrainKeepsInvariant(s, ok);
    case Push(sample, early) => PushKeepsInvariant(s, s.core.closed && !early, sample);
    case _ => SignalsKeepInvariant(s, e);
  }

  lemma SignalsKeepInvariant(s: Session, e: Event)
    requires Invariant(s) && (e.Notify? || e.Close? || e.Wake?)
    ensures Invariant(Step(s, e))
  {
  }

  lemma DrainKeepsInvariant(s: Session, writeSucceeds: bool)
    requires Invariant(s)
    ensures Invariant(Drained(s, writeSucceeds))
  {
    DrainKeepsOrder(s, writeSucceeds);
    DrainCounts(s.core, writeSucceeds);
  }

  lemma DrainCounts(c: Core, writeSucceeds: bool)
    ensures var d := Turned(c, writeSucceeds);
            |d.written| + |d.buffer| + (if Skips(c) || Fails(c, writeSucceeds) then 1 else 0)
            == |c.written| + |c.buffer|
  {
  }

  lemma PushKeepsInvariant(s: Session, closed: bool, sample: Sample)
    requires Invariant(s)
    ensures Invariant(PushedTo(s, closed, sample))
  {
    PushKeepsOrder(s, closed, sample);
    PushKeepsAKeyframe(s.capacity, closed, s.core.buffer, sample);
  }

  lemma {:induction false} RunsKeepInvariant(capacity: nat, run: seq<Event>)
    requires capacity > 0
    ensures Invariant(After(capacity, run))
  {
    if run == [] {
      SubsequenceOfItself<Sample>([]);
      assert Started(capacity).core.written + Started(capacity).core.buffer == [];
    } else {
      RunsKeepInvariant(capacity, run[..|run| - 1]);
      StepKeepsInvariant(After(capacity, run[..|run| - 1]), run[|run| - 1]);
    }
  }

  /** The samples pushed in a run are recorded in push order. */
  function PushesOf(run: seq<Event>): seq<Sample> {
    if run == [] then []
    else PushesOf(run[..|run| - 1]) + (match run[|run| - 1] case Push(x, _) => [x] case _ => [])
  }

  lemma {:induction false} RecordsPushes(capacity: nat, run: seq<Event>)
    requires capacity > 0
    ensures After(capacity, run).pushed == PushesOf(run)
  {
    if run == [] {
    } else {
      RecordsPushes(capacity, run[..|run| - 1]);
    }
  }

  /** In every interleaving of pushes, closing and sender turns, what reaches the track is
      a subsequence of what was pushed, in push order, and begins with a keyframe; and
      every sample pushed is accounted for. */
  lemma TrackGetsAnOrderedKeyframeFirstSubsequence(capacity: nat, run: seq<Event>)
    requires capacity > 0
    ensures
      var s := After(capacity, run);
      && IsSubsequence(s.core.written, PushesOf(run))
      && (s.core.written != [] ==> s.core.written[0].isKeyframe)
      && |s.core.buffer| <= capacity
      && |PushesOf(run)|
         == |s.core.written| + s.skipped + s.failed + s.droppedExisting + s.droppedIncoming + |s.core.buffer|
      && s.failed <= 1
  {
    RunsKeepInvariant(capacity, run);
    AtMostOneFailure(capacity, run);
    RecordsPushes(capacity, run);
    var s := After(capacity, run);
    var a := s.core.written + s.core.buffer;
    CutOut(a, s.pushed, |s.core.written|, |a|);
    assert a[..|s.core.written|] + a[|a|..] == s.core.written;
  }

  lemma {:induction false} AtMostOneFailure(capacity: nat, run: seq<Event>)
    requires capacity > 0
    ensures After(capacity, run).failed <= 1
  {
    if run == [] {
    } else {
      AtMostOneFailure(capacity, run[..|run| - 1]);
      RunsKeepInvariant(capacity, run[..|run| - 1]);
      FailsOnlyWhileRunning(After(capacity, run[..|run| - 1]), run[|run| - 1]);
    }
  }

  lemma FailsOnlyWhileRunning(s: Session, e: Event)
    requires s.capacity > 0
    ensures Step(s, e).failed <= s.failed + 1 && (s.core.phase == Ended ==> Step(s, e).failed == s.failed)
  {
  }

  function FirstKeyframe(buffer: seq<Sample>): (k: nat)
    ensures k <= |buffer| && (k < |buffer| ==> buffer[k].isKeyframe)
    ensures forall i | 0 <= i < k :: !buffer[i].isKeyframe
  {
    if buffer == [] || buffer[0].isKeyframe then 0 else 1 + FirstKeyframe(buffer[1..])
  }

  /** Where in the backlog writing starts. */
  function StartsAt(c: Core): (k: nat)
    ensures k <= |c.buffer|
  {
    if c.sentKeyframe then 0 else FirstKeyframe(c.buffer)
  }

  function WithBacklogWritten(c: Core): Core {
    var k := StartsAt(c);
    c.(written := c.written + c.buffer[k..], sentKeyframe := c.sentKeyframe || k < |c.buffer|, buffer := [],
       phase := Ended)
  }

  function TurnedTimes(c: Core, turns: nat): Core
    decreases turns
  {
    if turns == 0 then c else TurnedTimes(Turned(c, true), turns - 1)
  }

  /** Will the sender of a closed queue wait for a notice that has come and gone? */
  predicate IsStuck(c: Core) {
    c.phase == Waiting || (c.phase == SawOpen && !c.permit)
  }

  /** Is the sender about to look, now or thanks to a permit? */
  predicate WillLook(c: Core) {
    c.phase == Looking || (c.phase == SawOpen && c.permit)
  }

  /** With the queue closed, writes that succeed and nothing else going on: a sender that is
      about to look writes the whole backlog, in order, from its first keyframe on unless one
      has gone out before, skips what comes before that, and ends. One that has seen the queue
      empty ends without another look. One that has seen the queue open before it closed, and
      finds no permit, waits and does not end. */
  lemma ClosedQueueDrainsExactlyWhen(c: Core)
    requires c.closed
    ensures
      var d := TurnedTimes(c, |c.buffer| + 3);
      && d == (if c.phase == Looking then WithBacklogWritten(c)
               else if WillLook(c) then WithBacklogWritten(c.(permit := false))
               else if c.phase == SawEmpty then c.(phase := Ended)
               else if IsStuck(c) then c.(phase := Waiting)
               else c)
      && (d.phase == Ended <==> !IsStuck(c))
      && (d.buffer == [] <==> c.buffer == [] || WillLook(c))
  {
    var n := |c.buffer| + 3;
    if c.phase == Looking {
      BacklogIsWritten(c, n);
    } else if WillLook(c) {
      BacklogIsWritten(c.(permit := false, phase := Looking), n - 1);
    } else if c.phase == SawOpen || c.phase == SawEmpty {
      RestsStill(Turned(c, true), n - 1);
    } else {
      RestsStill(c, n);
    }
  }

  lemma {:induction false} RestsStill(c: Core, turns: nat)
    requires c.phase == Ended || c.phase == Waiting
    ensures TurnedTimes(c, turns) == c
    decreases turns
  {
    if turns == 0 {
    } else {
      RestsStill(c, turns - 1);
    }
  }

  lemma {:induction false} BacklogIsWritten(c: Core, turns: nat)
    requires c.closed && c.phase == Looking && turns >= |c.buffer| + 2
    ensures TurnedTimes(c, turns) == WithBacklogWritten(c)
    decreases |c.buffer|
  {
    var d := Turned(c, true);
    if c.buffer == [] {
      assert c.written + [] == c.written;
      RestsStill(Turned(d, true), turns - 2);
    } else {
      BacklogIsWritten(d, turns - 1);
      BacklogMovesOn(c);
    }
  }

  lemma BacklogMovesOn(c: Core)
    requires c.phase == Looking && c.buffer != []
    ensures WithBacklogWritten(Turned(c, true)) == WithBacklogWritten(c)
  {
    var rest, k := c.buffer[1..], StartsAt(c);
    if k == 0 {
      FrontThenRest(c.written, c.buffer);
    } else {
      assert c.buffer[k..] == rest[k - 1..];
    }
  }

  lemma FrontThenRest(written: seq<Sample>, buffer: seq<Sample>)
    requires buffer != []
    ensures (written + [buffer[0]]) + buffer[1..][0..] == written + buffer[0..]
  {
  }

  /** What is skipped on the way is what comes before the first keyframe. */
  function SkippedIn(c: Core, turns: nat): nat
    decreases turns
  {
    if turns == 0 then 0 else (if Skips(c) then 1 else 0) + SkippedIn(Turned(c, true), turns - 1)
  }

  lemma {:induction false} SkipsBeforeTheFirstKeyframe(c: Core, turns: nat)
    requires c.closed && c.phase == Looking && turns >= |c.buffer| + 2
    ensures SkippedIn(c, turns) == StartsAt(c)
    decreases |c.buffer|
  {
    var d := Turned(c, true);
    if c.buffer == [] {
      EndsWithoutSkipping(d, turns - 1);
    } else {
      SkipsBeforeTheFirstKeyframe(d, turns - 1);
    }
  }

  lemma {:induction false} EndsWithoutSkipping(c: Core, turns: nat)
    requires c.phase == Ended || (c.closed && c.phase == SawEmpty)
    ensures SkippedIn(c, turns) == 0
    decreases turns
  {
    if turns == 0 {
    } else {
      EndsWithoutSkipping(Turned(c, true), turns - 1);
    }
  }

  // --------------------------------------------- what a keyframe makes obsolete

  function Continued(s: Session, more: seq<Event>): (t: Session)
    requires s.capacity > 0
    ensures t.capacity == s.capacity
  {
    if more == [] then s else Step(Continued(s, more[..|more| - 1]), more[|more| - 1])
  }

  lemma AfterOneMore(capacity: nat, run: seq<Event>, e: Event)
    requires capacity > 0
    ensures After(capacity, run + [e]) == Step(After(capacity, run), e)
  {
    assert (run + [e])[..|run|] == run;
  }

  lemma {:induction false} RunsContinue(capacity: nat, run: seq<Event>, more: seq<Event>)
    requires capacity > 0
    ensures After(capacity, run + more) == Continued(After(capacity, run), more)
  {
    if more == [] {
      assert run + more == run;
    } else {
      var front, e := more[..|more| - 1], more[|more| - 1];
      RunsContinue(capacity, run, front);
      Regroup(run, more);
      AfterOneMore(capacity, run + front, e);
    }
  }

  lemma Regroup(a: seq<Event>, b: seq<Event>)
    requires b != []
    ensures a + b == (a + b[..|b| - 1]) + [b[|b| - 1]]
  {
  }

  lemma StepKeepsOrder(s: Session, e: Event)
    requires IsInOrder(s)
    ensures IsInOrder(Step(s, e))
  {
    match e
    case Drain(ok) => DrainKeepsOrder(s, ok);
    case Push(sample, early) =>
      PushKeepsOrder(s, s.core.closed && !early, sample);
      PushKeepsAKeyframe(s.capacity, s.core.closed && !early, s.core.buffer, sample);
    case _ =>
  }

  /** The session as if it had begun with the first w samples written and p pushed. */
  function Later(s: Session, w: nat, p: nat): Session
    requires w <= |s.core.written| && p <= |s.pushed|
  {
    s.(core := s.core.(written := s.core.written[w..]), pushed := s.pushed[p..])
  }

  lemma StepsLater(s: Session, e: Event, w: nat, p: nat)
    requires s.capacity > 0 && w <= |s.core.written| && p <= |s.pushed|
    ensures var t := Step(s, e);
            && w <= |t.core.written| && p <= |t.pushed| && t.core.written[..w] == s.core.written[..w]
            && Later(t, w, p) == Step(Later(s, w, p), e)
  {
    match e
    case Drain(ok) => TurnsLater(s.core, ok, w);
    case Push(sample, early) => CutThenPut(s.pushed, sample, p);
    case _ =>
  }

  lemma TurnsLater(c: Core, writeSucceeds: bool, w: nat)
    requires w <= |c.written|
    ensures var d := Turned(c, writeSucceeds);
            && w <= |d.written| && d.written[..w] == c.written[..w]
            && d.(written := d.written[w..]) == Turned(c.(written := c.written[w..]), writeSucceeds)
  {
    if c.buffer != [] {
      CutThenPut(c.written, c.buffer[0], w);
    }
  }

  lemma CutThenPut(a: seq<Sample>, x: Sample, k: nat)
    requires k <= |a|
    ensures (a + [x])[k..] == a[k..] + [x] && (a + [x])[..k] == a[..k]
  {
  }

  /** What goes on after some point is in the order of what is pushed from there on, if it
      starts so. */
  lemma {:induction false} ContinuesInOrder(s: Session, more: seq<Event>, w: nat, p: nat)
    requires s.capacity > 0 && w <= |s.core.written| && p <= |s.pushed| && IsInOrder(Later(s, w, p))
    ensures var t := Continued(s, more);
            && w <= |t.core.written| && p <= |t.pushed| && t.core.written[..w] == s.core.written[..w]
            && t.pushed == s.pushed + PushesOf(more)
            && IsInOrder(Later(t, w, p))
  {
    if more == [] {
    } else {
      var front, e := more[..|more| - 1], more[|more| - 1];
      ContinuesInOrder(s, front, w, p);
      StepsLater(Continued(s, front), e, w, p);
      StepKeepsOrder(Later(Continued(s, front), w, p), e);
    }
  }

  /** Is event i a keyframe that meets a full queue, and found it open? */
  predicate MakesObsolete(capacity: nat, run: seq<Event>, i: nat)
    requires capacity > 0
  {
    && i < |run| && run[i].Push? && run[i].sample.isKeyframe
    && var s := After(capacity, run[..i]);
       |s.core.buffer| >= capacity && (!s.core.closed || run[i].early)
  }

  lemma ObsoleteSamplesGo(s: Session, e: Event)
    requires s.capacity > 0 && e.Push? && e.sample.isKeyframe
    requires |s.core.buffer| >= s.capacity && (!s.core.closed || e.early)
    ensures
      var t := Step(s, e);
      && t.core.written == s.core.written && t.pushed == s.pushed + [e.sample]
      && IsInOrder(Later(t, |s.core.written|, |s.pushed|))
  {
    SubsequenceOfItself([e.sample]);
    var t := Step(s, e);
    assert t.core.written[|s.core.written|..] + t.core.buffer == [e.sample];
    assert t.pushed[|s.pushed|..] == [e.sample];
  }

  /** In every run, once a keyframe has met a full queue, all that is written from then on is
      that keyframe and what was pushed after it, in that order: nothing that was queued
      before it is written any more. */
  lemma ObsoleteSamplesAreNotWritten(capacity: nat, run: seq<Event>, i: nat)
    requires capacity > 0 && MakesObsolete(capacity, run, i)
    ensures
      var before, written := After(capacity, run[..i]).core.written, After(capacity, run).core.written;
      && before <= written
      && IsSubsequence(written[|before|..], PushesOf(run[i..]))
  {
    var s := After(capacity, run[..i]);
    var t := After(capacity, run[..i] + [run[i]]);
    AfterOneMore(capacity, run[..i], run[i]);
    ObsoleteSamplesGo(s, run[i]);
    assert run == run[..i] + [run[i]] + run[i + 1..];
    RunsContinue(capacity, run[..i] + [run[i]], run[i + 1..]);
    PushesFromHere(run, i);
    WritesWhatComesLater(t, run[i + 1..], |s.core.written|, s.pushed, run[i].sample);
  }

  lemma WritesWhatComesLater(t: Session, more: seq<Event>, w: nat, pushed: seq<Sample>, sample: Sample)
    requires t.capacity > 0 && w == |t.core.written| && t.pushed == pushed + [sample]
    requires IsInOrder(Later(t, w, |pushed|))
    ensures var u := Continued(t, more);
            t.core.written <= u.core.written && IsSubsequence(u.core.written[w..], [sample] + PushesOf(more))
  {
    var u := Continued(t, more);
    ContinuesInOrder(t, more, w, |pushed|);
    WrittenIsInOrder(Later(u, w, |pushed|));
    assert u.pushed[|pushed|..] == [sample] + PushesOf(more);
    assert t.core.written == u.core.written[..w];
  }

  lemma WrittenIsInOrder(s: Session)
    requires IsInOrder(s)
    ensures IsSubsequence(s.core.written, s.pushed)
  {
    var a := s.core.written + s.core.buffer;
    CutOut(a, s.pushed, |s.core.written|, |a|);
    assert a[..|s.core.written|] + a[|a|..] == s.core.written;
  }

  lemma PushesFromHere(run: seq<Event>, i: nat)
    requires i < |run| && run[i].Push?
    ensures PushesOf(run[i..]) == [run[i].sample] + PushesOf(run[i + 1..])
  {
    assert run[i..] == [run[i]] + run[i + 1..];
    PushesAppend([run[i]], run[i + 1..]);
    assert PushesOf([run[i]]) == [run[i].sample];
  }

  lemma {:induction false} PushesAppend(a: seq<Event>, b: seq<Event>)
    ensures PushesOf(a + b) == PushesOf(a) + PushesOf(b)
  {
    if b == [] {
      assert a + b == a;
    } else {
      assert (a + b)[..|a + b| - 1] == a + b[..|b| - 1];
      PushesAppend(a, b[..|b| - 1]);
    }
  }

  // ---------------------------------------------------- senders that never end

  /** The sessions before, between and after the events of a run. */
  function Trace(capacity: nat, run: seq<Event>): (states: seq<Session>)
    requires capacity > 0
    ensures |states| == |run| + 1 && states[|run|] == After(capacity, run)
  {
    if run == [] then [After(capacity, run)]
    else Trace(capacity, run[..|run| - 1]) + [After(capacity, run)]
  }

  /** Does the event wake a sender that waits? */
  predicate WakesUp(s: Session, e: Event) {
    (e.Wake? && s.waking > 0) || (e.Notify? && s.notifying > 0)
  }

  /** What an event does to the phase, as far as waiting goes. */
  ghost predicate Moves(s: Session, e: Event, t: Session) {
    && (t.core.phase == SawOpen ==>
          if e.Drain? then s.core.phase == SawEmpty && !s.core.closed else s.core.phase == SawOpen)
    && (t.core.phase == Waiting ==>
          if s.core.phase == Waiting
          then !WakesUp(s, e) && (t.core.closed && t.waking == 0 ==> s.core.closed && s.waking == 0)
          else e.Drain? && s.core.phase == SawOpen && !s.core.permit && t.core.closed == s.core.closed)
    && (s.core.phase == Waiting && !WakesUp(s, e) ==> t.core.phase == Waiting)
    && (s.core.phase == SawOpen && !s.core.permit && e.Drain? ==> t.core.phase == Waiting)
  }

  lemma StepMoves(s: Session, e: Event)
    requires s.capacity > 0
    ensures Moves(s, e, Step(s, e))
  {
  }

  ghost predicate IsTrace(states: seq<Session>, run: seq<Event>) {
    && |states| == |run| + 1 && states[0].core.phase == Looking
    && forall i | 0 <= i < |run| :: Moves(states[i], run[i], states[i + 1])
  }

  lemma {:induction false} TraceMoves(capacity: nat, run: seq<Event>)
    requires capacity > 0
    ensures IsTrace(Trace(capacity, run), run)
  {
    if run == [] {
    } else {
      var n := |run| - 1;
      TraceMoves(capacity, run[..n]);
      StepMoves(After(capacity, run[..n]), run[n]);
      var states, before := Trace(capacity, run), Trace(capacity, run[..n]);
      assert states[n] == before[n] && states[n + 1] == After(capacity, run);
      forall i | 0 <= i < |run| ensures Moves(states[i], run[i], states[i + 1]) {
        if i < n {
          assert states[i] == before[i] && states[i + 1] == before[i + 1] && run[i] == run[..n][i];
        }
      }
    }
  }

  /** With event l the sender looks at whether the queue is closed and finds it open, and
      before event i it does nothing else. */
  ghost predicate LooksBefore(states: seq<Session>, run: seq<Event>, l: nat, i: nat) {
    && l < i <= |run| < |states| && run[l].Drain?
    && states[l].core.phase == SawEmpty && !states[l].core.closed
    && forall m | l < m < i :: !run[m].Drain?
  }

  ghost predicate StartsToWait(states: seq<Session>, run: seq<Event>, i: nat) {
    i < |run| < |states| && run[i].Drain? && states[i].core.phase == SawOpen && !states[i].core.permit
  }

  ghost predicate NoWakeUp(states: seq<Session>, run: seq<Event>, i: nat, j: nat)
    requires j <= |run| < |states|
  {
    forall k | i < k < j :: !WakesUp(states[k], run[k])
  }

  /** With event l the sender looks at whether the queue is closed and finds it open; with
      event i, its next, it goes to wait, although the queue is closed by then and there is
      no permit; and no event after that wakes it. */
  ghost predicate WaitsInVain(states: seq<Session>, run: seq<Event>, l: nat, i: nat) {
    && StartsToWait(states, run, i) && LooksBefore(states, run, l, i)
    && states[i].core.closed && NoWakeUp(states, run, i, |run|)
  }

  ghost predicate MissesTheClose(states: seq<Session>, run: seq<Event>) {
    exists l: nat, i: nat :: WaitsInVain(states, run, l, i)
  }

  lemma {:induction false} OpenWasLookedAt(states: seq<Session>, run: seq<Event>, i: nat) returns (l: nat)
    requires IsTrace(states, run) && i <= |run| && states[i].core.phase == SawOpen
    ensures LooksBefore(states, run, l, i)
  {
    if i == 0 {
      assert false;
    } else {
      assert Moves(states[i - 1], run[i - 1], states[i]);
      if run[i - 1].Drain? {
        l := i - 1;
      } else {
        l := OpenWasLookedAt(states, run, i - 1);
      }
    }
  }

  /** A sender that waits went to wait with some event and was not woken since; and a close
      that has done its waking came before that. */
  lemma {:induction false} WaitHasStarted(states: seq<Session>, run: seq<Event>, j: nat) returns (i: nat)
    requires IsTrace(states, run) && j <= |run| && states[j].core.phase == Waiting
    ensures StartsToWait(states, run, i) && i < j && NoWakeUp(states, run, i, j)
    ensures states[j].core.closed && states[j].waking == 0 ==> states[i].core.closed
  {
    if j == 0 {
      assert false;
    } else {
      assert Moves(states[j - 1], run[j - 1], states[j]);
      if states[j - 1].core.phase == Waiting {
        i := WaitHasStarted(states, run, j - 1);
      } else {
        i := j - 1;
      }
    }
  }

  lemma {:induction false} UnwokenSenderWaits(states: seq<Session>, run: seq<Event>, i: nat, j: nat)
    requires IsTrace(states, run) && i < j <= |run| && StartsToWait(states, run, i) && NoWakeUp(states, run, i, j)
    ensures states[j].core.phase == Waiting
    decreases j
  {
    assert Moves(states[j - 1], run[j - 1], states[j]);
    if i == j - 1 {
    } else {
      UnwokenSenderWaits(states, run, i, j - 1);
    }
  }

  lemma WaitsExactlyWhen(states: seq<Session>, run: seq<Event>)
    requires IsTrace(states, run) && states[|run|].core.closed && states[|run|].waking == 0
    ensures states[|run|].core.phase == Waiting <==> MissesTheClose(states, run)
  {
    if states[|run|].core.phase == Waiting {
      var i := WaitHasStarted(states, run, |run|);
      var l := OpenWasLookedAt(states, run, i);
      assert WaitsInVain(states, run, l, i);
    }
    forall l: nat, i: nat | WaitsInVain(states, run, l, i) ensures states[|run|].core.phase == Waiting {
      UnwokenSenderWaits(states, run, i, |run|);
    }
  }

  /** In every run in which each close has done its waking, the sender of the closed queue
      waits exactly when it looked before the close and went to wait after it, and found no
      permit: the close and its waking fell between the look and the wait. */
  lemma SenderIsLeftWaitingExactlyWhen(capacity: nat, run: seq<Event>)
    requires capacity > 0
    requires var s := After(capacity, run); s.core.closed && s.waking == 0
    ensures After(capacity, run).core.phase == Waiting
            <==> MissesTheClose(Trace(capacity, run), run)
  {
    TraceMoves(capacity, run);
    WaitsExactlyWhen(Trace(capacity, run), run);
  }

  /** Does the sender of a closed queue wait, with nobody about to wake it? */
  predicate IsForsaken(s: Session) {
    s.core.closed && s.core.phase == Waiting && s.waking == 0 && s.notifying == 0
  }

  /** ... and then it never ends: only a second close, or a push that read the flag before
      the first, could wake it. */
  lemma {:induction false} WaitingIsForEver(s: Session, more: seq<Event>)
    requires s.capacity > 0 && IsForsaken(s) && forall e <- more :: !e.Close? && !(e.Push? && e.early)
    ensures IsForsaken(Continued(s, more)) && Continued(s, more).core.written == s.core.written
  {
    if more == [] {
    } else {
      WaitingIsForEver(s, more[..|more| - 1]);
      assert more[|more| - 1] in more;
      ForsakenStays(Continued(s, more[..|more| - 1]), more[|more| - 1]);
    }
  }

  lemma ForsakenStays(s: Session, e: Event)
    requires s.capacity > 0 && IsForsaken(s) && !e.Close? && !(e.Push? && e.early)
    ensures IsForsaken(Step(s, e)) && Step(s, e).core.written == s.core.written
  {
  }

  /** Is something queued that the sender did not see, and that nothing will make it see? */
  predicate IsStranded(s: Session) {
    && s.core.buffer != [] && s.notifying == 0
    && (s.core.phase == Waiting || ((s.core.phase == SawEmpty || s.core.phase == SawOpen) && !s.core.permit))
  }

  lemma StepStrandsNothing(s: Session, e: Event)
    requires s.capacity > 0 && !IsStranded(s)
    ensures !IsStranded(Step(s, e))
  {
  }

  /** In every run in which each push has notified, the sender does not wait while something
      is queued, nor goes to wait without a permit: the notice of a push is never lost. */
  lemma {:induction false} NoSampleIsStranded(capacity: nat, run: seq<Event>)
    requires capacity > 0
    ensures !IsStranded(After(capacity, run))
  {
    if run == [] {
    } else {
      NoSampleIsStranded(capacity, run[..|run| - 1]);
      StepStrandsNothing(After(capacity, run[..|run| - 1]), run[|run| - 1]);
    }
  }

  /** A sender only ends when its queue is closed or a write fails, so one whose queue nobody
      closes may wait for ever. */
  lemma {:induction false} OnlyClosingEnds(capacity: nat, run: seq<Event>)
    requires capacity > 0 && After(capacity, run).failed == 0 && Close !in run
    ensures !After(capacity, run).core.closed && After(capacity, run).core.phase != Ended
  {
    if run == [] {
    } else {
      var front, e := run[..|run| - 1], run[|run| - 1];
      assert run == front + [e];
      FailuresStay(After(capacity, front), e);
      OnlyClosingEnds(capacity, front);
    }
  }

  lemma FailuresStay(s: Session, e: Event)
    requires s.capacity > 0
    ensures s.failed <= Step(s, e).failed
    ensures Step(s, e).failed == s.failed && !e.Close? && !s.core.closed ==>
              !Step(s, e).core.closed && (s.core.phase != Ended ==> Step(s, e).core.phase != Ended)
  {
  }

  // ------------------------------------------------------- what is left behind

  /** What the pushes since the sender last saw the queue empty make of an empty queue. */
  function Behind(capacity: nat, run: seq<Event>): seq<Sample>
    requires capacity > 0
  {
    if run == [] then []
    else BehindAfter(After(capacity, run[..|run| - 1]), Behind(capacity, run[..|run| - 1]), run[|run| - 1])
  }

  function BehindAfter(s: Session, behind: seq<Sample>, e: Event): seq<Sample>
    requires s.capacity > 0
  {
    match e
    case Drain(_) => if s.core.phase == Looking && s.core.buffer == [] then [] else behind
    case Push(sample, early) => Pushed(s.capacity, s.core.closed && !early, behind, sample).0
    case _ => behind
  }

  /** How many of those pushes found the queue open. */
  function OpenPushesBehind(capacity: nat, run: seq<Event>): nat
    requires capacity > 0
  {
    if run == [] then 0
    else
      var s, n := After(capacity, run[..|run| - 1]), OpenPushesBehind(capacity, run[..|run| - 1]);
      match run[|run| - 1]
      case Drain(_) => if s.core.phase == Looking && s.core.buffer == [] then 0 else n
      case Push(_, early) => if s.core.closed && !early then n else n + 1
      case _ => n
  }

  lemma {:induction false} NothingBehindExactlyWhen(capacity: nat, run: seq<Event>)
    requires capacity > 0
    ensures Behind(capacity, run) == [] <==> OpenPushesBehind(capacity, run) == 0
  {
    if run == [] {
    } else {
      NothingBehindExactlyWhen(capacity, run[..|run| - 1]);
    }
  }

  lemma BehindKeepsUp(s: Session, behind: seq<Sample>, e: Event)
    requires s.capacity > 0 && Step(s, e).failed == s.failed
    requires s.core.phase != Looking ==> s.core.buffer == behind
    ensures var t := Step(s, e); t.core.phase != Looking ==> t.core.buffer == BehindAfter(s, behind, e)
  {
  }

  lemma {:induction false} QueueHoldsWhatIsBehind(capacity: nat, run: seq<Event>)
    requires capacity > 0 && After(capacity, run).failed == 0
    ensures var s := After(capacity, run); s.core.phase != Looking ==> s.core.buffer == Behind(capacity, run)
  {
    if run == [] {
    } else {
      var front, e := run[..|run| - 1], run[|run| - 1];
      FailuresStay(After(capacity, front), e);
      QueueHoldsWhatIsBehind(capacity, front);
      BehindKeepsUp(After(capacity, front), Behind(capacity, front), e);
    }
  }

  /** In every run without a failed write, a sender that has ended leaves exactly what was
      pushed since it last saw the queue empty, and that is nothing exactly when none of
      those pushes found the queue open. */
  lemma EndedSenderLeavesExactly(capacity: nat, run: seq<Event>)
    requires capacity > 0
    requires var s := After(capacity, run); s.core.phase == Ended && s.failed == 0
    ensures var s := After(capacity, run);
            && s.core.buffer == Behind(capacity, run)
            && (s.core.buffer == [] <==> OpenPushesBehind(capacity, run) == 0)
  {
    QueueHoldsWhatIsBehind(capacity, run);
    NothingBehindExactlyWhen(capacity, run);
  }

  // ------------------------------------------------------------- such runs

  lemma OneMore(capacity: nat, run: seq<Event>, e: Event) returns (longer: seq<Event>)
    requires capacity > 0
    ensures After(capacity, longer) == Step(After(capacity, run), e)
  {
    longer := run + [e];
    assert longer[..|run|] == run;
  }

  /** Did the sender end without writing anything, and leave the sample in a closed queue? */
  predicate Leaves(s: Session, sample: Sample) {
    s.core.closed && s.core.phase == Ended && s.core.buffer == [sample] && s.core.written == []
  }

  /** A sample comes in, and the queue is closed, between the sender's two looks. */
  lemma SampleBehindTheLastLook(capacity: nat, sample: Sample) returns (run: seq<Event>)
    requires capacity > 0
    ensures Leaves(After(capacity, run), sample)
  {
    run := OneMore(capacity, [], Drain(true));
    run := OneMore(capacity, run, Push(sample, false));
    run := OneMore(capacity, run, Close);
    run := OneMore(capacity, run, Drain(true));
  }

  /** A push that found the queue open comes in after the sender has ended. */
  lemma SampleAfterTheEnd(capacity: nat, sample: Sample) returns (run: seq<Event>)
    requires capacity > 0
    ensures Leaves(After(capacity, run), sample)
  {
    run := OneMore(capacity, [], Close);
    run := OneMore(capacity, run, Drain(true));
    run := OneMore(capacity, run, Drain(true));
    run := OneMore(capacity, run, Push(sample, true));
  }

  /** The queue is closed between the sender's look at that and its wait. */
  lemma CloseIsMissed(capacity: nat) returns (run: seq<Event>)
    requires capacity > 0
    ensures IsForsaken(After(capacity, run))
  {
    run := OneMore(capacity, [], Drain(true));
    run := OneMore(capacity, run, Drain(true));
    run := OneMore(capacity, run, Close);
    run := OneMore(capacity, run, Wake);
    run := OneMore(capacity, run, Drain(true));
  }
}
