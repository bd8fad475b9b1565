/** The drive's playback handlers in place: the pointers to the open movie and to its schedule,
    proved against PlaybackSession. */
module DriveMovie {
  import opened Bytes
  import opened LinkedList
  import opened AviCursor
  import opened AviIndex
  import opened MovieFrame
  import SC = Schedules
  import SL = Scheduler
  import PS = PlaybackSession

  class Playback {
    const scheduler: SL.Scheduler
    var context: MovieContext?
    var schedule: SL.Schedule?

    /** The session on values that this object implements. */
    ghost var model: PS.Session

    ghost predicate Runs()
      reads scheduler, scheduler.Repr
      ensures Runs() ==> scheduler in scheduler.Repr && scheduler.list in scheduler.Repr
    {
      scheduler.Valid()
    }

    ghost predicate Valid()
      reads this, scheduler, scheduler.Repr, context, if context == null then {} else {context.track}
    {
      && Runs() && this !in scheduler.Repr
      && model.scheduler == scheduler.model && PS.Ok(model)
      && (context == null <==> model.context.None?)
      && (context != null ==>
            && context !in scheduler.Repr && context.track !in scheduler.Repr && context.Valid()
            && context.movie == model.context.value.movie && context.At() == model.context.value.cursor)
      && PointsTo()
    }

    /** The schedule pointer is the session's. */
    ghost predicate PointsTo()
      reads this, scheduler, scheduler.list
    {
      && (schedule == null <==> model.schedule.None?)
      && (schedule != null ==>
            && model.schedule.value < |scheduler.list.nodes|
            && scheduler.list.nodes[model.schedule.value].data == schedule
            && schedule in scheduler.Repr)
    }

    constructor ()
      ensures Valid() && model == PS.NO_SESSION
    {
      var s := new SL.Scheduler();
      scheduler := s;
      context, schedule, model := null, null, PS.NO_SESSION;
    }

    lemma ScheduleHolds()
      requires Valid() && schedule != null
      ensures model.schedule.value < |model.scheduler.items|
      ensures schedule.next == model.scheduler.items[model.schedule.value].next
    {
      scheduler.ItemAt(model.schedule.value);
    }

    static lemma StopStays(s: PS.Session)
      requires PS.Ok(s)
      ensures PS.Ok(PS.Stop(s))
    {
      PS.StopKeeps(s);
    }

    /** `od_handler_movie_command_stop` */
    method Stop()
      requires Valid()
      modifies this, scheduler.Repr
      ensures Valid() && model == PS.Stop(old(model))
    {
      hide Runs, PS.Ok;
      ghost var stopped := PS.Stop(model);
      StopStays(model);
      if schedule != null {
        ScheduleHolds();
        if schedule.next != 0 {
          CancelSchedule();
          schedule := null;
        }
      }
      context := null;
      hide PS.Stop;
      model := stopped;
    }

    /** What the callback needs of the movie to build a frame packet from it. */
    ghost predicate Sendable()
      requires Valid() && context != null
      reads this, scheduler, scheduler.Repr, context, context.track
    {
      var r := Lookup(context.movie, context.At());
      && Total(context.movie) < TWO_31
      && IdsOk(r.tracks[..r.trackCount])
      && AfterTracks(r.trackCount) + r.frameLength < TWO_31
    }

    /** `demo_movie_playback_schedule_callback`; `packet` is what it hands to `dx_write`. */
    method Tick(path: seq<uint8>) returns (packet: array?<uint8>)
      requires Valid() && context != null && Sendable()
      modifies this, context, context.track, scheduler.Repr
      ensures Valid() && old(model).context.Some? && model == PS.TickAlone(old(model))
      ensures packet == null <==> PS.AtEnd(old(model).context.value)
      ensures packet != null ==>
        IsFramePacket(old(model).context.value.movie,
                      Lookup(old(model).context.value.movie, old(model).context.value.cursor), path, packet[..])
    {
      hide PS.Ok, PS.AtEnd, List.Valid, IsFramePacket, Lookup, Advance, CursorOk, FramesFrom;
      EndIsAtEnd();
      if context.totalFrame > context.frameNo {
        packet := SendFrame(path);
      } else {
        packet := null;
        EndSession();
      }
    }

    lemma EndIsAtEnd()
      requires Valid() && context != null
      ensures model.context.Some? && (context.totalFrame > context.frameNo <==> !PS.AtEnd(model.context.value))
    {
    }

    method SendFrame(path: seq<uint8>) returns (packet: array<uint8>)
      requires Valid() && context != null && Sendable() && !PS.AtEnd(model.context.value)
      modifies this`model, context, context.track
      ensures Valid() && old(model).context.Some? && model == PS.TickAlone(old(model))
      ensures IsFramePacket(old(model).context.value.movie,
                            Lookup(old(model).context.value.movie, old(model).context.value.cursor), path, packet[..])
    {
      hide Runs, PS.Ok, PS.AtEnd, PS.TickAlone, IsFramePacket, Lookup, TakeFrame;
      packet := Pack(path);
      Ticked();
    }

    /** The cursor has moved; so does the session. */
    ghost method Ticked()
      requires PS.Ok(model) && model.context.Some? && !PS.AtEnd(model.context.value)
      requires context != null && context.movie == model.context.value.movie && Apart()
      requires Runs() && model.scheduler == scheduler.model && context.Valid()
      requires context.At() == TakeFrame(model.context.value.movie, model.context.value.cursor)
      modifies this`model
      ensures Valid() && model == PS.TickAlone(old(model))
    {
      hide Runs, PS.Ok, PS.AtEnd, PS.TickAlone, TakeFrame;
      PS.TickAloneKeeps(model);
      TickMoves(model);
      model := PS.TickAlone(model);
    }

    /** The objects are distinct, with a movie open. */
    ghost predicate Apart()
      reads this, scheduler, scheduler.list, context
      requires context != null
    {
      && this !in scheduler.Repr && context !in scheduler.Repr && context.track !in scheduler.Repr
      && PointsTo()
    }

    static lemma TickMoves(s: PS.Session)
      requires PS.Ok(s) && s.context.Some? && !PS.AtEnd(s.context.value)
      ensures var t := PS.TickAlone(s);
        && t.scheduler == s.scheduler && t.schedule == s.schedule && t.context.Some?
        && t.context.value.movie == s.context.value.movie
        && t.context.value.cursor == TakeFrame(s.context.value.movie, s.context.value.cursor)
    {
    }

    /** The frame under the cursor as a packet; nothing but the cursor changes. */
    method Pack(path: seq<uint8>) returns (packet: array<uint8>)
      requires Valid() && context != null && Sendable()
      modifies context, context.track
      ensures fresh(packet) && Runs() && context.Valid() && Apart()
      ensures context.At() == TakeFrame(context.movie, old(context.At()))
      ensures IsFramePacket(context.movie, Lookup(context.movie, old(context.At())), path, packet[..])
    {
      hide PS.Ok, IsFramePacket, Lookup, TakeFrame;
      packet := BuildFrame(context, path);
    }

    method EndSession()
      requires Valid() && context != null && PS.AtEnd(model.context.value)
      modifies this`model, this`context, scheduler.Repr
      ensures Valid() && old(model).context.Some? && model == PS.TickAlone(old(model))
    {
      hide Runs, PS.Ok, PS.AtEnd, PS.TickAlone;
      HasSchedule();
      PS.TickAloneKeeps(model);
      TickEnds(model);
      context := null;
      CancelSchedule();
      model := PS.TickAlone(model);
    }

    /** The scheduler's half of a cancellation. */
    method CancelSchedule()
      requires Runs() && this !in scheduler.Repr && PointsTo() && schedule != null && model.schedule.Some?
      modifies scheduler.Repr
      ensures Runs() && scheduler.Repr == old(scheduler.Repr) && PointsTo()
      ensures scheduler.model == SC.Apply(old(scheduler.model), SC.Cancel(model.schedule.value))
    {
      scheduler.Cancel(schedule, model.schedule.value);
    }

    static lemma TickEnds(s: PS.Session)
      requires PS.Ok(s) && s.context.Some? && PS.AtEnd(s.context.value) && s.schedule.Some?
      ensures var t := PS.TickAlone(s);
        && t.context.None? && t.schedule == s.schedule
        && t.scheduler == SC.Apply(s.scheduler, SC.Cancel(s.schedule.value))
    {
      hide PS.Ok, PS.AtEnd;
      SC.ApplyOne(s.scheduler, SC.Cancel(s.schedule.value));
    }

    lemma HasSchedule()
      requires Valid() && context != null
      ensures schedule != null && model.schedule.Some?
    {
    }

    /** A movie is open exactly while the schedule is live. */
    lemma SessionIsLive()
      requires Valid()
      ensures model.context.Some? <==> model.schedule.Some? && PS.Live(model, model.schedule.value)
    {
    }

    /** `od_handler_movie_command_start`; `movie` is what opening and parsing the file gave. */
    method Start(movie: Option<Movie>, startFrame: nat, framesPerSec: nat, clock: nat) returns (ret: int)
      requires Valid() && PS.Proper(PS.DoStart(movie, startFrame, framesPerSec, clock))
      modifies this, scheduler.Repr
      ensures Valid() && model == PS.Start(old(model), movie, startFrame, framesPerSec, clock)
      ensures ret == if old(model).context.None? && movie.Some? then 0 else -1
    {
      SessionIsLive();
      PS.StartKeeps(model, movie, startFrame, framesPerSec, clock);
      hide PS.Ok;
      if schedule != null {
        ScheduleHolds();
        if schedule.next != 0 {
          return -1;
        }
      }
      context := null;
      if movie.None? {
        model := PS.Start(model, movie, startFrame, framesPerSec, clock);
        return -1;
      }
      Begin(movie.value, startFrame, framesPerSec, clock);
      ret := 0;
    }

    /** Open, seek and register, with no movie open and no live schedule. */
    method Begin(movie: Movie, startFrame: nat, framesPerSec: nat, clock: nat)
      requires ValidBut() && Total(movie) < TWO_31 && clock > 0
      requires model.schedule.None? || !PS.Live(model, model.schedule.value)
      modifies this, scheduler.Repr
      ensures Valid() && model == PS.Start(old(model), Some(movie), startFrame, framesPerSec, clock)
    {
      hide Runs, PS.Ok, PS.FreshCursor, SeekTo;
      PS.StartKeeps(model, Some(movie), startFrame, framesPerSec, clock);
      var m := OpenAt(movie, startFrame);
      context := m;
      RegisterTick(framesPerSec, clock);
      model := PS.Start(model, Some(movie), startFrame, framesPerSec, clock);
    }

    /** Valid, but for the movie that was just closed. */
    ghost predicate ValidBut()
      reads this, scheduler, scheduler.Repr
    {
      Runs() && this !in scheduler.Repr && model.scheduler == scheduler.model && PS.Ok(model)
    }

    method OpenAt(movie: Movie, startFrame: nat) returns (m: MovieContext)
      ensures fresh(m) && fresh(m.track) && m.Valid() && m.movie == movie
      ensures m.At() == SeekTo(movie, PS.FreshCursor(movie), Wrap32(startFrame)).0
    {
      m := new MovieContext(movie);
      var _ := m.SeekFrame(Wrap32(startFrame), SeekSet);
    }

    method RegisterTick(framesPerSec: nat, clock: nat)
      requires Runs() && this !in scheduler.Repr
      modifies this`schedule, scheduler.Repr
      ensures Runs() && forall o :: o in scheduler.Repr ==> o in old(scheduler.Repr) || fresh(o)
      ensures scheduler.model
           == SC.Apply(old(scheduler.model), SC.Register(clock, 0, PS.Interval(framesPerSec), true))
      ensures |old(scheduler.model).items| < |scheduler.list.nodes| && schedule != null
      ensures scheduler.list.nodes[|old(scheduler.model).items|].data == schedule && schedule in scheduler.Repr
    {
      scheduler.ItemAt(0);
      schedule := scheduler.Register(clock, 0, PS.Interval(framesPerSec), true);
    }
  }
}
