/** A movie playback session on the drive: two global pointers, to the open movie and to its
    schedule, changed by start and stop requests and by the schedule's own callback. */
module PlaybackSession {
  import opened Bytes
  import opened AviIndex
  import opened AviCursor
  import opened AviPlayback
  import SC = Schedules

  /** An open movie. */
  datatype Playing = Playing(movie: Movie, cursor: Cursor)

  /** What a start request began: its movie, the frame it asked for, and the frames queued since, each as the
      look-up that its packet is built from. */
  datatype Begun = Begun(movie: Movie, asked: nat, sent: seq<Cursor>)

  /** The two pointers and the scheduler. The other fields are history: which of its schedules playback
      registered, what the latest start request began, and what ran to the end of its movie. */
  datatype Session = Session(
    context: Option<Playing>,
    schedule: Option<nat>,
    scheduler: SC.State,
    playback: set<nat>,
    begun: Option<Begun>,
    finished: seq<Begun>)

  const NO_SESSION := Session(None, None, SC.NO_SCHEDULES, {}, None, [])

  function FreshCursor(m: Movie): (c: Cursor)
    ensures CursorOk(m, c)
  {
    Cursor(0, 0, 0, 0, seq(m.trackCount, _ => NO_TRACK))
  }

  /** Where a session begins: the frame asked for is a signed 32-bit number to the seek. */
  function Origin(b: Begun): (c: Cursor)
    ensures CursorOk(b.movie, c)
  {
    SeekTo(b.movie, FreshCursor(b.movie), Wrap32(b.asked)).0
  }

  /** Where it has come to. */
  function Reached(b: Begun): (c: Cursor)
    ensures CursorOk(b.movie, c)
  {
    Take(b.movie, Origin(b), |b.sent|)
  }

  predicate Live(s: Session, id: nat) {
    id < |s.scheduler.items| && s.scheduler.items[id].next > 0
  }

  // ---------- the handlers

  lemma ProductMonotone(a: nat, b: nat, d: nat)
    requires a <= b
    ensures a * d <= b * d
  {
  }

  lemma QuotientAtLeast(n: nat, d: nat, q: nat)
    requires d > 0 && q * d <= n
    ensures q <= n / d
  {
    if n / d + 1 <= q {
      ProductMonotone(n / d + 1, q, d);
    }
  }

  lemma QuotientBounds(n: nat, d: nat)
    requires d > 0
    ensures n / d * d <= n < (n / d + 1) * d
  {
    assert n == n / d * d + n % d;
    assert (n / d + 1) * d == n / d * d + d;
  }

  /** Milliseconds between frames: as many as the rate asked for, at most 40 a second, allows in a second, rounded
      down; so never less than 25. A rate of 0 stands for 30 a second. */
  function Interval(framesPerSec: nat): (ms: nat)
    ensures ms >= 25
    ensures framesPerSec == 0 ==> ms == 33
    ensures framesPerSec > 0 ==> ms * Min(framesPerSec, 40) <= 1000 < (ms + 1) * Min(framesPerSec, 40)
  {
    if framesPerSec > 0 then
      var rate := if framesPerSec > 40 then 40 else framesPerSec;
      QuotientAtLeast(1000, rate, 25);
      QuotientBounds(1000, rate);
      1000 / rate
    else
      1000 / 30
  }

  /** `od_handler_movie_command_start`: nothing while a session is live; otherwise the open movie,
      if any, is closed and the requested one, if it opens, is played from the start frame. */
  function Start(s: Session, movie: Option<Movie>, startFrame: nat, framesPerSec: nat, clock: nat): Session {
    if s.schedule.Some? && Live(s, s.schedule.value) then s
    else if movie.None? then s.(context := None)
    else
      var m := movie.value;
      var id := |s.scheduler.items|;
      s.(context := Some(Playing(m, Origin(Begun(m, startFrame, [])))),
         begun := Some(Begun(m, startFrame, [])),
         schedule := Some(id),
         scheduler := SC.Apply(s.scheduler, SC.Register(clock, 0, Interval(framesPerSec), true)),
         playback := s.playback + {id})
  }

  /** `od_handler_movie_command_stop` */
  function Stop(s: Session): Session {
    var cancelled :=
      if s.schedule.Some? && Live(s, s.schedule.value) then
        s.(scheduler := SC.Apply(s.scheduler, SC.Cancel(s.schedule.value)), schedule := None)
      else s;
    cancelled.(context := None)
  }

  predicate AtEnd(p: Playing) {
    Total(p.movie) <= p.cursor.frameNo
  }

  function Queued(b: Option<Begun>, r: Cursor): Option<Begun> {
    if b.None? then None else Some(b.value.(sent := b.value.sent + [r]))
  }

  function Played(b: Option<Begun>): seq<Begun> {
    if b.None? then [] else [b.value]
  }

  /** `demo_movie_playback_schedule_callback`: send a frame, or end the session. */
  function Tick(s: Session): (r: (Session, seq<SC.Action>))
    requires s.context.Some? && CursorOk(s.context.value.movie, s.context.value.cursor)
  {
    var p := s.context.value;
    if AtEnd(p) then
      (s.(context := None, finished := s.finished + Played(s.begun)),
       if s.schedule.Some? then [SC.Cancel(s.schedule.value)] else [])
    else
      (s.(context := Some(p.(cursor := TakeFrame(p.movie, p.cursor))),
          begun := Queued(s.begun, Lookup(p.movie, p.cursor))), [])
  }

  /** The i-th schedule is due: playback's callback ticks, others leave the session alone. */
  function FireOne(s: Session, i: nat, now: nat): (t: Session)
    requires Ok(s) && i < |s.scheduler.items| && SC.Due(s.scheduler.items[i], now)
    ensures |t.scheduler.items| == |s.scheduler.items|
  {
    if i in s.playback then
      var (t, effects) := Tick(s);
      t.(scheduler := SC.Fire(s.scheduler, i, now, effects))
    else
      s.(scheduler := SC.Fire(s.scheduler, i, now, []))
  }

  /** A scheduler pass from element `i` on. */
  function WalkFrom(s: Session, i: nat, now: nat): (t: Session)
    requires Ok(s)
    ensures Ok(t)
    decreases |s.scheduler.items| - i
  {
    if |s.scheduler.items| <= i then s
    else if SC.Due(s.scheduler.items[i], now) then
      FireOneKeeps(s, i, now);
      WalkFrom(FireOne(s, i, now), i + 1, now)
    else WalkFrom(s, i + 1, now)
  }

  datatype Event =
    | DoStart(movie: Option<Movie>, startFrame: nat, framesPerSec: nat, clock: nat)
    | DoStop
    | DoPass(now: nat)
    | DoRegister(clock: nat, initial: nat, interval: nat, repeatable: bool)

  /** The monotonic clock has started, and a parsed movie has fewer than 2^31 frames. */
  predicate Proper(ev: Event) {
    ev.DoStart? ==> ev.clock > 0 && (ev.movie.Some? ==> Total(ev.movie.value) < TWO_31)
  }

  function Step(s: Session, ev: Event): Session
    requires Ok(s)
  {
    match ev
    case DoStart(movie, startFrame, framesPerSec, clock) => Start(s, movie, startFrame, framesPerSec, clock)
    case DoStop => Stop(s)
    case DoPass(now) => WalkFrom(s, 0, now)
    case DoRegister(clock, initial, interval, repeatable) =>
      s.(scheduler := SC.Apply(s.scheduler, SC.Register(clock, initial, interval, repeatable)))
  }

  // ---------- the invariant

  /** Every frame queued was the one the incremental cursor stood on, and none was past the end. */
  predicate InOrder(b: Begun) {
    && Origin(b).frameNo + |b.sent| == Reached(b).frameNo
    && forall k :: 0 <= k < |b.sent| ==> b.sent[k] == Lookup(b.movie, Take(b.movie, Origin(b), k))
  }

  /** The open movie is the one asked for, and its cursor is where the queued frames end. */
  predicate Plays(p: Playing, b: Begun) {
    p.movie == b.movie && p.cursor == Reached(b) && InOrder(b)
  }

  /** A movie is open exactly while a playback schedule is live, and that is the one pointed to. */
  predicate OneLive(s: Session) {
    && (forall id :: id in s.playback && Live(s, id) ==> s.schedule == Some(id))
    && (s.context.Some? ==> s.schedule.Some? && s.schedule.value in s.playback && Live(s, s.schedule.value))
    && (s.context.None? ==> forall id :: id in s.playback ==> !Live(s, id))
  }

  predicate Known(s: Session) {
    && (forall id :: id in s.playback ==> id < |s.scheduler.items|)
    && (s.schedule.Some? ==> s.schedule.value in s.playback)
    && (forall id :: id in s.playback && id < |s.scheduler.items| ==>
          s.scheduler.items[id].repeatable && s.scheduler.items[id].interval > 0)
  }

  /** Everything up to the last frame was queued. */
  predicate Complete(b: Begun) {
    InOrder(b) && Reached(b).frameNo == Total(b.movie)
  }

  predicate Progress(s: Session) {
    && (s.context.Some? ==> s.begun.Some? && Plays(s.context.value, s.begun.value))
    && (forall k :: 0 <= k < |s.finished| ==> Complete(s.finished[k]))
  }

  predicate Ok(s: Session) {
    Known(s) && OneLive(s) && Progress(s)
  }

  /** One more frame queued, from where the queued ones end. */
  lemma InOrderPush(b: Begun)
    requires InOrder(b) && Reached(b).frameNo < Total(b.movie)
    ensures var next := b.(sent := b.sent + [Lookup(b.movie, Reached(b))]);
      InOrder(next) && Reached(next) == TakeFrame(b.movie, Reached(b))
  {
    hide Lookup, SeekTo, CursorOk;
    assert Origin(b.(sent := b.sent + [Lookup(b.movie, Reached(b))])) == Origin(b);
    LookupStays(b.movie, Reached(b));
  }

  lemma TickProgresses(s: Session)
    requires Ok(s) && s.context.Some?
    ensures CursorOk(s.context.value.movie, s.context.value.cursor) && Progress(Tick(s).0)
  {
    hide InOrder, Reached, Lookup, TakeFrame, Known, OneLive, CursorOk;
    if !AtEnd(s.context.value) {
      InOrderPush(s.begun.value);
    } else {
      EndIsComplete(s.begun.value);
    }
  }

  lemma EndIsComplete(b: Begun)
    requires InOrder(b) && Total(b.movie) <= Reached(b).frameNo
    ensures Complete(b)
  {
  }

  lemma FireOneKeeps(s: Session, i: nat, now: nat)
    requires Ok(s) && i < |s.scheduler.items| && SC.Due(s.scheduler.items[i], now)
    ensures Ok(FireOne(s, i, now))
  {
    hide Plays, Complete, Lookup, TakeFrame, CursorOk, SC.Fire;
    if i in s.playback {
      assert Live(s, i);
      TickProgresses(s);
      SC.FireByItself(s.scheduler, i, now, Tick(s).1);
    } else {
      SC.FireByItself(s.scheduler, i, now, []);
    }
  }

  lemma StartKeeps(s: Session, movie: Option<Movie>, startFrame: nat, framesPerSec: nat, clock: nat)
    requires Ok(s) && Proper(DoStart(movie, startFrame, framesPerSec, clock))
    ensures Ok(Start(s, movie, startFrame, framesPerSec, clock))
  {
  }

  /** With no live session, a start request whose file opens plays it from the frame asked for, or
      from its end if there is no such frame, with a new schedule of its own that is due at once and then at
      the interval of the rate asked for. */
  lemma StartBegins(s: Session, movie: Movie, startFrame: nat, framesPerSec: nat, clock: nat)
    requires Ok(s) && s.context.None? && 0 < clock && startFrame < TWO_31 && Total(movie) < TWO_31
    ensures var t := Start(s, Some(movie), startFrame, framesPerSec, clock);
      && t.context.Some? && t.schedule.Some?
      && t.begun == Some(Begun(movie, startFrame, [])) && t.finished == s.finished
      && t.context.value.movie == movie && t.context.value.cursor.frameNo == Min(startFrame, Total(movie))
      && t.context.value.cursor.fragmentNo == Select(movie.index, Min(startFrame, Total(movie)))
      && t.schedule == Some(|s.scheduler.items|) && t.playback == s.playback + {t.schedule.value}
      && t.scheduler.log == s.scheduler.log
      && t.scheduler.items
         == s.scheduler.items + [SC.Schedule(clock, Interval(framesPerSec), true, clock, 0)]
      && t.schedule.value !in s.playback && SC.Due(t.scheduler.items[t.schedule.value], clock)
  {
    assert s.schedule.Some? ==> !Live(s, s.schedule.value);
  }

  /** A start request while a session is live changes nothing; with none live, one whose file does not open
      changes nothing either. */
  lemma StartWhenNothingBegins(s: Session, movie: Option<Movie>, startFrame: nat, framesPerSec: nat, clock: nat)
    requires Ok(s) && (s.context.Some? || movie.None?)
    ensures Start(s, movie, startFrame, framesPerSec, clock) == s
  {
  }

  lemma StopKeeps(s: Session)
    requires Ok(s)
    ensures Ok(Stop(s)) && Stop(s).context.None?
    ensures var t := Stop(s).scheduler;
      && t.log == s.scheduler.log && |t.items| == |s.scheduler.items|
      && forall id :: 0 <= id < |t.items| && id !in s.playback ==> t.items[id] == s.scheduler.items[id]
    ensures Stop(s).begun == s.begun && Stop(s).finished == s.finished && Stop(s).playback == s.playback
    ensures forall id :: id in Stop(s).playback ==> !Live(Stop(s), id)
  {
  }

  lemma StepKeeps(s: Session, ev: Event)
    requires Ok(s) && Proper(ev)
    ensures Ok(Step(s, ev))
  {
    match ev {
      case DoStart(movie, startFrame, framesPerSec, clock) => StartKeeps(s, movie, startFrame, framesPerSec, clock);
      case DoStop => StopKeeps(s);
      case DoPass(now) =>
      case DoRegister(clock, initial, interval, repeatable) =>
    }
  }

  function Run(s: Session, events: seq<Event>): (t: Session)
    requires Ok(s) && forall i :: 0 <= i < |events| ==> Proper(events[i])
    ensures Ok(t)
    decreases |events|
  {
    if events == [] then s
    else
      StepKeeps(s, events[0]);
      Run(Step(s, events[0]), events[1..])
  }

  /** The callback by itself, its cancellation included. */
  function TickAlone(s: Session): Session
    requires Ok(s) && s.context.Some?
  {
    Tick(s).0.(scheduler := SC.ApplyAll(s.scheduler, Tick(s).1))
  }

  lemma TickAloneKeeps(s: Session)
    requires Ok(s) && s.context.Some?
    ensures Ok(TickAlone(s))
  {
    TickProgresses(s);
    hide Plays, Complete, Lookup, TakeFrame, CursorOk, AtEnd, SC.ApplyAll;
    SC.ApplyOne(s.scheduler, SC.Cancel(s.schedule.value));
  }

  // ---------- the theorems

  lemma NoSessionOk()
    ensures Ok(NO_SESSION)
  {
  }

  predicate AllProper(events: seq<Event>) {
    forall i :: 0 <= i < |events| ==> Proper(events[i])
  }

  /** Over every run of starts, stops, passes and other registrations: at most one playback
      schedule is live, and one is live exactly while a movie is open. */
  lemma OneLiveSession(events: seq<Event>, i: nat, j: nat)
    requires AllProper(events)
    ensures Ok(NO_SESSION)
    ensures var s := Run(NO_SESSION, events);
      && (i in s.playback && j in s.playback && Live(s, i) && Live(s, j) ==> i == j)
      && (s.context.Some? <==> s.schedule.Some? && s.schedule.value in s.playback && Live(s, s.schedule.value))
  {
    NoSessionOk();
  }

  lemma NumbersRunOn(b: Begun, k: nat)
    requires InOrder(b) && k < |b.sent|
    ensures b.sent[k].frameNo == Origin(b).frameNo + k < Total(b.movie)
  {
    hide CursorOk, SeekTo, Lookup, Take;
    TakeNumbers(b.movie, Origin(b), |b.sent|);
    TakeNumbers(b.movie, Origin(b), k);
    LookupStays(b.movie, Take(b.movie, Origin(b), k));
    CursorInMovie(b.movie, Reached(b));
  }

  /** The frame numbers a session has queued run on from its first frame without gap or
      repetition, and a session that ended by itself has queued them up to the last one. */
  lemma FramesAreConsecutive(events: seq<Event>)
    requires AllProper(events)
    ensures Ok(NO_SESSION)
    ensures var s := Run(NO_SESSION, events);
      && (s.context.Some? ==>
            && s.begun.Some? && s.begun.value.movie == s.context.value.movie
            && var b := s.begun.value;
               forall k :: 0 <= k < |b.sent| ==> b.sent[k].frameNo == Origin(b).frameNo + k < Total(b.movie))
      && (forall f :: 0 <= f < |s.finished| ==>
            var b := s.finished[f];
            && |b.sent| == Total(b.movie) - Origin(b).frameNo
            && forall k :: 0 <= k < |b.sent| ==> b.sent[k].frameNo == Origin(b).frameNo + k)
  {
    NoSessionOk();
    hide InOrder, Run, Known, OneLive, Origin, Reached, Total;
    var s := Run(NO_SESSION, events);
    if s.context.Some? {
      var b := s.begun.value;
      forall k | 0 <= k < |b.sent|
        ensures b.sent[k].frameNo == Origin(b).frameNo + k < Total(b.movie)
      {
        NumbersRunOn(b, k);
      }
    }
    forall f | 0 <= f < |s.finished|
      ensures var b := s.finished[f];
        && |b.sent| == Total(b.movie) - Origin(b).frameNo
        && forall k :: 0 <= k < |b.sent| ==> b.sent[k].frameNo == Origin(b).frameNo + k
    {
      var b := s.finished[f];
      assert Complete(b);
      CompleteCounts(b);
      forall k | 0 <= k < |b.sent|
        ensures b.sent[k].frameNo == Origin(b).frameNo + k
      {
        NumbersRunOn(b, k);
      }
    }
  }

  lemma CompleteCounts(b: Begun)
    requires Complete(b)
    ensures |b.sent| == Total(b.movie) - Origin(b).frameNo
  {
  }

  /** A session that asked for frame `n` begins there, or at the end; with an interleaved movie its cursor
      stands, at every moment, where a scan finds the frame it is at. */
  lemma CursorIsLocated(b: Begun)
    requires InOrder(b) && b.asked < TWO_31
    ensures Origin(b).frameNo == Min(b.asked, Total(b.movie))
    ensures Interleaved(b.movie) ==> Locates(b.movie, Reached(b), Reached(b).frameNo)
  {
    hide FreshCursor, SeekTo, TakeFrame, CursorOk;
    var m, c := b.movie, FreshCursor(b.movie);
    SeekLocates(m, c, b.asked);
    if Interleaved(m) {
      TakesLocate(m, Origin(b), b.asked, |b.sent|);
    }
  }

  // ---------- what a session queues is what the movie plays

  /** These look-ups carry the first of these frames. */
  predicate Carry(m: Movie, sent: seq<Cursor>, frames: seq<Frame>) {
    && |sent| <= |frames|
    && forall k :: 0 <= k < |sent| ==>
         && sent[k].trackCount <= |sent[k].tracks| && AllInFile(m, sent[k].tracks[..sent[k].trackCount])
         && frames[k] == AsFrame(m, sent[k])
  }

  /** Numbers and payloads: with every fragment in the file, what a session has queued is the beginning of
      what playing the movie from its first frame sends, and all of it once it has ended by itself. */
  lemma QueuedIsPlay(b: Begun)
    requires InOrder(b) && AllThere(b.movie)
    ensures Carry(b.movie, b.sent, Play(b.movie, Origin(b)))
    ensures Complete(b) ==> |b.sent| == |Play(b.movie, Origin(b))|
  {
    hide CursorOk, SeekTo, Lookup, Take, AllInFile, Play, FramesFrom;
    var m, c := b.movie, Origin(b);
    PlayCounts(m, c);
    CursorInMovie(m, Reached(b));
    forall k | 0 <= k < |b.sent|
      ensures var r := b.sent[k];
        && r.trackCount <= |r.tracks| && AllInFile(m, r.tracks[..r.trackCount])
        && k < |Play(m, c)| && Play(m, c)[k] == AsFrame(m, r)
    {
      PlayAt(m, c, k);
    }
  }

  /** ... in every run. */
  lemma SessionsPlay(events: seq<Event>)
    requires AllProper(events)
    ensures Ok(NO_SESSION)
    ensures var s := Run(NO_SESSION, events);
      && (s.context.Some? && AllThere(s.context.value.movie) ==>
            && s.begun.Some?
            && Carry(s.context.value.movie, s.begun.value.sent, Play(s.context.value.movie, Origin(s.begun.value))))
      && (forall f :: 0 <= f < |s.finished| && AllThere(s.finished[f].movie) ==>
            var b := s.finished[f];
            Carry(b.movie, b.sent, Play(b.movie, Origin(b))) && |b.sent| == |Play(b.movie, Origin(b))|)
  {
    NoSessionOk();
    hide InOrder, Run, Known, OneLive, Origin, Reached, Carry, AllInFile, Play;
    var s := Run(NO_SESSION, events);
    if s.context.Some? && AllThere(s.context.value.movie) {
      QueuedIsPlay(s.begun.value);
    }
    forall f | 0 <= f < |s.finished| && AllThere(s.finished[f].movie)
      ensures var b := s.finished[f];
        Carry(b.movie, b.sent, Play(b.movie, Origin(b))) && |b.sent| == |Play(b.movie, Origin(b))|
    {
      assert Complete(s.finished[f]);
      QueuedIsPlay(s.finished[f]);
    }
  }

  /** A tick inside the movie queues exactly the frame under the cursor. */
  lemma TickSendsNext(s: Session, i: nat, now: nat)
    requires Ok(s) && i in s.playback && SC.Due(s.scheduler.items[i], now)
    ensures s.context.Some? && s.begun.Some?
    ensures var p := s.context.value;
      var t := FireOne(s, i, now);
      if AtEnd(p) then t.context.None? && !Live(t, i) && t.finished == s.finished + [s.begun.value]
      else t.context.Some? && t.begun == Queued(s.begun, Lookup(p.movie, p.cursor)) && Live(t, i)
  {
    FireOneKeeps(s, i, now);
    assert Live(s, i);
  }

  // ---------- a pass of the session is a pass of the scheduler

  /** What the callbacks do to the schedule list in a pass from element `i` on, in the order they are entered. */
  function Effects(s: Session, i: nat, now: nat): seq<seq<SC.Action>>
    requires Ok(s)
    decreases |s.scheduler.items| - i
  {
    if |s.scheduler.items| <= i then []
    else if SC.Due(s.scheduler.items[i], now) then
      FireOneKeeps(s, i, now);
      [if i in s.playback then Tick(s).1 else []] + Effects(FireOne(s, i, now), i + 1, now)
    else Effects(s, i + 1, now)
  }

  /** The session's walk is the scheduler's, with what the ticks do. */
  lemma {:induction false} WalkIsPass(s: Session, i: nat, now: nat)
    requires Ok(s)
    ensures WalkFrom(s, i, now).scheduler == SC.Walk(s.scheduler, i, now, Effects(s, i, now))
    decreases |s.scheduler.items| - i
  {
    hide Ok, Tick, SC.Fire;
    if i < |s.scheduler.items| {
      if SC.Due(s.scheduler.items[i], now) {
        FireOneKeeps(s, i, now);
        var rest := Effects(FireOne(s, i, now), i + 1, now);
        assert Effects(s, i, now)[1..] == rest;
        SC.UnfoldWalk(s.scheduler, i, now, Effects(s, i, now));
        WalkIsPass(FireOne(s, i, now), i + 1, now);
      } else {
        SC.UnfoldWalk(s.scheduler, i, now, Effects(s, i, now));
        WalkIsPass(s, i + 1, now);
      }
    }
  }

  /** A tick cancels its own schedule at the end of the movie, and does nothing to the list before. */
  lemma TickEffects(s: Session)
    requires Ok(s) && s.context.Some?
    ensures CursorOk(s.context.value.movie, s.context.value.cursor) && s.schedule.Some?
    ensures Tick(s).1 == if AtEnd(s.context.value) then [SC.Cancel(s.schedule.value)] else []
  {
  }

  /** No playback schedule at or behind `i` is live and due. */
  predicate NoTickFrom(s: Session, i: nat, now: nat) {
    forall id :: id in s.playback && i <= id < |s.scheduler.items| ==> !(0 < s.scheduler.items[id].next <= now)
  }

  /** The open movie, what was begun and what is finished. */
  predicate SameShow(s: Session, t: Session) {
    t.context == s.context && t.begun == s.begun && t.finished == s.finished && t.schedule == s.schedule
  }

  lemma OtherFires(s: Session, i: nat, now: nat)
    requires Ok(s) && i < |s.scheduler.items| && SC.Due(s.scheduler.items[i], now) && i !in s.playback
    ensures var t := FireOne(s, i, now);
      && SameShow(s, t) && t.playback == s.playback && |t.scheduler.items| == |s.scheduler.items|
      && forall id :: 0 <= id < |s.scheduler.items| && id != i ==> t.scheduler.items[id] == s.scheduler.items[id]
  {
    hide Ok, SC.Fire;
    SC.FireByItself(s.scheduler, i, now, []);
  }

  lemma {:induction false} WalkWithoutTick(s: Session, i: nat, now: nat)
    requires Ok(s) && NoTickFrom(s, i, now)
    ensures SameShow(s, WalkFrom(s, i, now))
    decreases |s.scheduler.items| - i
  {
    hide Ok;
    if i < |s.scheduler.items| {
      if SC.Due(s.scheduler.items[i], now) {
        FireOneKeeps(s, i, now);
        OtherFires(s, i, now);
        hide FireOne;
        WalkWithoutTick(FireOne(s, i, now), i + 1, now);
      } else {
        WalkWithoutTick(s, i + 1, now);
      }
    }
  }

  /** After the live session's tick, no other playback schedule is live. */
  lemma TickAlonePlays(s: Session, id: nat, now: nat)
    requires Ok(s) && s.context.Some? && s.schedule == Some(id) && id < |s.scheduler.items|
    requires SC.Due(s.scheduler.items[id], now)
    ensures Ok(FireOne(s, id, now)) && NoTickFrom(FireOne(s, id, now), id + 1, now)
  {
    FireOneKeeps(s, id, now);
    hide Plays, Complete, FireOne, Progress;
    SamePlayback(s, id, now);
  }

  lemma SamePlayback(s: Session, i: nat, now: nat)
    requires Ok(s) && i < |s.scheduler.items| && SC.Due(s.scheduler.items[i], now)
    ensures FireOne(s, i, now).playback == s.playback && FireOne(s, i, now).schedule == s.schedule
  {
    hide Plays, Complete, SC.Fire, Lookup, TakeFrame;
  }

  lemma UnfoldWalkFrom(s: Session, i: nat, now: nat)
    requires Ok(s) && i < |s.scheduler.items|
    ensures SC.Due(s.scheduler.items[i], now) ==>
      Ok(FireOne(s, i, now)) && WalkFrom(s, i, now) == WalkFrom(FireOne(s, i, now), i + 1, now)
    ensures !SC.Due(s.scheduler.items[i], now) ==> WalkFrom(s, i, now) == WalkFrom(s, i + 1, now)
  {
    hide Ok, FireOne;
    if SC.Due(s.scheduler.items[i], now) {
      FireOneKeeps(s, i, now);
    }
  }

  /** The walk comes to the live session's schedule and ticks, once. */
  lemma {:induction false} WalkTicks(s: Session, i: nat, now: nat)
    requires Ok(s) && s.context.Some? && s.schedule.Some? && i <= s.schedule.value < |s.scheduler.items|
    requires 0 < s.scheduler.items[s.schedule.value].next <= now
    ensures CursorOk(s.context.value.movie, s.context.value.cursor) && SameShow(Tick(s).0, WalkFrom(s, i, now))
    decreases |s.scheduler.items| - i
  {
    hide Ok, FireOne, Tick, WalkFrom, CursorOk, SameShow, NoTickFrom;
    var id := s.schedule.value;
    LiveIsScheduled(s);
    TickProgresses(s);
    UnfoldWalkFrom(s, i, now);
    if i == id {
      TickAlonePlays(s, id, now);
      WalkWithoutTick(FireOne(s, id, now), id + 1, now);
      ShowOfTick(s, id, now);
      SameIsTransitive(Tick(s).0, FireOne(s, id, now), WalkFrom(s, i, now));
    } else if SC.Due(s.scheduler.items[i], now) {
      OnlyItsOwn(s, i);
      OtherFires(s, i, now);
      var t := FireOne(s, i, now);
      SameShowIs(s, t);
      WalkTicks(t, i + 1, now);
      SameTick(s, t);
      SameIsTransitive(Tick(s).0, Tick(t).0, WalkFrom(s, i, now));
    } else {
      WalkTicks(s, i + 1, now);
    }
  }

  lemma SameShowIs(s: Session, t: Session)
    requires SameShow(s, t)
    ensures t.context == s.context && t.schedule == s.schedule
  {
  }

  lemma SameIsTransitive(s: Session, t: Session, u: Session)
    requires SameShow(s, t) && SameShow(t, u)
    ensures SameShow(s, u)
  {
  }

  /** One pass, whatever else is scheduled: with a session live and its deadline reached, exactly one tick; and
      otherwise none. */
  lemma PassTicksOnce(s: Session, now: nat)
    requires Ok(s)
    ensures s.context.Some? ==> s.schedule.Some? && s.schedule.value < |s.scheduler.items|
    ensures if s.context.Some? && s.scheduler.items[s.schedule.value].next <= now then
        CursorOk(s.context.value.movie, s.context.value.cursor) && SameShow(Tick(s).0, WalkFrom(s, 0, now))
      else
        SameShow(s, WalkFrom(s, 0, now))
  {
    LiveIsScheduled(s);
    hide Ok, Tick, WalkFrom, CursorOk, SameShow, NoTickFrom;
    if s.context.Some? && s.scheduler.items[s.schedule.value].next <= now {
      WalkTicks(s, 0, now);
    } else {
      NoneDue(s, 0, now);
      WalkWithoutTick(s, 0, now);
    }
  }

  lemma LiveIsScheduled(s: Session)
    requires Ok(s)
    ensures s.context.Some? ==> s.schedule.Some? && s.schedule.value in s.playback && Live(s, s.schedule.value)
  {
  }

  lemma OnlyItsOwn(s: Session, i: nat)
    requires Ok(s) && s.context.Some? && s.schedule != Some(i) && i < |s.scheduler.items|
    requires s.scheduler.items[i].next > 0
    ensures i !in s.playback
  {
    assert Live(s, i);
  }

  lemma NoneDue(s: Session, i: nat, now: nat)
    requires Ok(s)
    requires s.context.Some? ==> s.schedule.Some? && s.schedule.value < |s.scheduler.items|
    requires s.context.Some? ==> s.schedule.value < i || now < s.scheduler.items[s.schedule.value].next
    ensures NoTickFrom(s, i, now)
  {
    forall id | id in s.playback && i <= id < |s.scheduler.items|
      ensures !(0 < s.scheduler.items[id].next <= now)
    {
      assert Live(s, id) ==> s.schedule == Some(id);
    }
  }

  lemma ShowOfTick(s: Session, id: nat, now: nat)
    requires Ok(s) && s.context.Some? && id in s.playback && id < |s.scheduler.items|
    requires SC.Due(s.scheduler.items[id], now)
    ensures CursorOk(s.context.value.movie, s.context.value.cursor) && SameShow(Tick(s).0, FireOne(s, id, now))
  {
    TickProgresses(s);
    hide Ok, SC.Fire, Lookup, TakeFrame;
  }

  lemma SameTick(s: Session, t: Session)
    requires s.context.Some? && CursorOk(s.context.value.movie, s.context.value.cursor) && SameShow(s, t)
    ensures SameShow(Tick(s).0, Tick(t).0)
  {
    hide CursorOk, Lookup, TakeFrame;
  }

  // ---------- get-info requests

  /** `od_handler_movie_get_info`: the open movie is replaced, the schedule is not. */
  function GetInfo(s: Session, movie: Option<Movie>): Session {
    s.(context := if movie.None? then None else Some(Playing(movie.value, FreshCursor(movie.value))))
  }

  /** Nothing is queued yet, and the cursor of a movie that was just opened is where this session begins: at
      frame 0, with no entry before its base entry unless the seek was to a negative number. */
  predicate AtVeryBeginning(b: Begun) {
    && b.sent == []
    && (Wrap32(b.asked) <= 0 || Total(b.movie) == 0)
    && (Wrap32(b.asked) >= 0 ==> Select(b.movie.index, 0) == 0)
  }

  /** A get-info request leaves playback intact exactly when, with no session live, its file does not
      open, or when it reopens the very movie of a live session that is at the very beginning of it; and in
      that case it changes nothing. */
  lemma GetInfoKeepsExactlyWhen(s: Session, movie: Option<Movie>)
    requires Ok(s)
    ensures Ok(GetInfo(s, movie)) <==>
      if movie.None? then s.context.None?
      else s.context.Some? && s.begun.value.movie == movie.value && AtVeryBeginning(s.begun.value)
    ensures Ok(GetInfo(s, movie)) ==> GetInfo(s, movie) == s
  {
    if movie.Some? && s.context.Some? && s.begun.value.movie == movie.value {
      FreshIsReached(s.begun.value);
      hide InOrder, Reached, FreshCursor, AtVeryBeginning;
    }
  }

  lemma FreshIsReached(b: Begun)
    requires InOrder(b)
    ensures Reached(b) == FreshCursor(b.movie) <==> AtVeryBeginning(b)
  {
    if b.sent == [] {
      assert Reached(b) == Origin(b);
    } else {
      assert Reached(b).frameNo > 0;
    }
  }

  /** How it fails: a live session goes on from frame 0 of the movie asked about, or is left with a
      schedule whose callback finds no movie; an idle one gets a movie that no schedule plays. */
  lemma WhatGetInfoBreaks(s: Session, movie: Option<Movie>)
    requires Ok(s)
    ensures var t := GetInfo(s, movie);
      && (s.context.Some? && movie.Some? && Total(movie.value) > 0 ==>
            && s.begun.Some?
            && var r := Lookup(movie.value, FreshCursor(movie.value));
               r.frameNo == 0 && Tick(t).0.begun == Queued(s.begun, r))
      && (s.context.Some? && movie.None? ==> t.context.None? && t.schedule.Some? && Live(t, t.schedule.value))
      && (s.context.None? && movie.Some? ==> t.context.Some? && forall id :: id in t.playback ==> !Live(t, id))
  {
    hide Plays, Complete, InOrder;
    if movie.Some? {
      LookupStays(movie.value, FreshCursor(movie.value));
    }
  }

  /** A first pass right after a start from frame 0 queues frame 0. */
  lemma FirstTick(m: Movie)
    requires 0 < Total(m) < TWO_31
    ensures var events := [DoStart(Some(m), 0, 40, 1), DoPass(1)];
      && Ok(NO_SESSION) && AllProper(events)
      && var s := Run(NO_SESSION, events);
        && s.context.Some? && s.begun.Some? && s.begun.value.movie == m
        && |s.begun.value.sent| == 1 && s.begun.value.sent[0].frameNo == 0
  {
    var start, pass := DoStart(Some(m), 0, 40, 1), DoPass(1);
    NoSessionOk();
    StepKeeps(NO_SESSION, start);
    StartBegins(NO_SESSION, m, 0, 40, 1);
    var s := Start(NO_SESSION, Some(m), 0, 40, 1);
    TickSendsNext(s, 0, 1);
    LookupStays(m, s.context.value.cursor);
    assert s.context.value.cursor.frameNo == 0;
    hide Ok, Start, FireOne, Total, Lookup;
    var t := FireOne(s, 0, 1);
    assert [start, pass][1..] == [pass] && [pass][1..] == [];
    assert WalkFrom(s, 0, 1) == WalkFrom(t, 1, 1) == t;
    assert Step(NO_SESSION, start) == s && Step(s, pass) == t;
    assert Run(s, [pass]) == Run(t, []) == t;
  }

  /** An input that fails: start a movie of two frames, let it tick, ask about the same file, let it tick
      again; frame 0 has been queued twice. */
  lemma GetInfoRepeatsAFrame()
    ensures var frame := IndexEntry([48, 48, 100, 99], 0, 0, 0);
      var m := Movie([frame, frame], 1, [], 0);
      var events := [DoStart(Some(m), 0, 40, 1), DoPass(1)];
      && Ok(NO_SESSION) && AllProper(events)
      && var s := Run(NO_SESSION, events);
        && s.context.Some? && s.begun.Some?
        && var again := Tick(GetInfo(s, Some(m))).0.begun;
          again.Some? && |again.value.sent| == 2
          && again.value.sent[0].frameNo == 0 == again.value.sent[1].frameNo
  {
    var frame := IndexEntry([48, 48, 100, 99], 0, 0, 0);
    var m := Movie([frame, frame], 1, [], 0);
    assert FramesFrom(m.index, 1) == 1 && Total(m) == 2;
    FirstTick(m);
    hide Ok, Step, Tick, Total, Lookup;
    WhatGetInfoBreaks(Run(NO_SESSION, [DoStart(Some(m), 0, 40, 1), DoPass(1)]), Some(m));
  }

  /** Another: a movie whose index begins with an entry of another track, asked about before its first tick;
      the cursor goes back from the base entry to the one before it. */
  lemma GetInfoMovesTheFragment()
    ensures var base, other := IndexEntry([48, 48, 100, 99], 0, 0, 0), IndexEntry([48, 49, 119, 98], 0, 0, 0);
      var m := Movie([other, base], 2, [], 0);
      && Ok(NO_SESSION) && Interleaved(m)
      && var s := Start(NO_SESSION, Some(m), 0, 40, 1);
        && Ok(s) && !Ok(GetInfo(s, Some(m)))
        && s.context.Some? && s.context.value.cursor.fragmentNo == 1
        && GetInfo(s, Some(m)).context.value.cursor.fragmentNo == 0
  {
    var base, other := IndexEntry([48, 48, 100, 99], 0, 0, 0), IndexEntry([48, 49, 119, 98], 0, 0, 0);
    var m := Movie([other, base], 2, [], 0);
    assert FramesFrom(m.index, 2) == 0 && FramesFrom(m.index, 1) == 1 && Total(m) == 1;
    assert SelectFrom(m.index, 1, 0) == 1 && Select(m.index, 0) == 1;
    NoSessionOk();
    StartKeeps(NO_SESSION, Some(m), 0, 40, 1);
    StartBegins(NO_SESSION, m, 0, 40, 1);
    GetInfoKeepsExactlyWhen(Start(NO_SESSION, Some(m), 0, 40, 1), Some(m));
  }
}
