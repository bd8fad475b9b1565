/** Timed callbacks as a state machine on values. A pass walks the schedule list once;
    callbacks may register and cancel schedules while it is being walked. */
module Schedules {

  /** A registered schedule; its identity is its place in the list, which never shrinks.
      `first` is registration time plus initial interval, `fired` counts callbacks. */
  datatype Schedule = Schedule(first: nat, interval: nat, repeatable: bool, next: nat, fired: nat)

  datatype Firing = Firing(id: nat, deadline: nat, at: nat)

  datatype State = State(items: seq<Schedule>, log: seq<Firing>)

  /** What a caller or a callback does: `clock` is what the clock shows it. */
  datatype Action =
    | Register(clock: nat, initial: nat, interval: nat, repeatable: bool)
    | Cancel(id: nat)

  // ---------- the operations

  /** `dx_schedule_register`, `dx_schedule_cancel` */
  function Apply(s: State, a: Action): (t: State)
    ensures |s.items| <= |t.items| && t.log == s.log
  {
    match a
    case Register(clock, initial, interval, repeatable) =>
      s.(items := s.items + [Schedule(clock + initial, interval, repeatable, clock + initial, 0)])
    case Cancel(id) =>
      if id < |s.items| then s.(items := s.items[id := s.items[id].(next := 0)]) else s
  }

  function ApplyAll(s: State, actions: seq<Action>): (t: State)
    ensures |s.items| <= |t.items| && t.log == s.log
    ensures actions == [] ==> t == s
    decreases |actions|
  {
    if actions == [] then s else ApplyAll(Apply(s, actions[0]), actions[1..])
  }

  lemma ApplyOne(s: State, a: Action)
    ensures ApplyAll(s, [a]) == Apply(s, a)
  {
    assert [a][1..] == [];
  }

  predicate Due(item: Schedule, now: nat) {
    0 < item.next <= now
  }

  /** The callback is entered: it is counted and logged. */
  function Enter(s: State, i: nat, now: nat): State
    requires i < |s.items|
  {
    State(s.items[i := s.items[i].(fired := s.items[i].fired + 1)],
          s.log + [Firing(i, s.items[i].next, now)])
  }

  /** After the callback: a repeatable schedule that was not cancelled moves on, any other ends. */
  function Leave(s: State, i: nat): State
    requires i < |s.items|
  {
    var it := s.items[i];
    s.(items := s.items[i := it.(next := if it.repeatable && it.next > 0 then it.next + it.interval else 0)])
  }

  /** One due schedule of `dx_scheduler_do_callback`, whose callback does `effects`. */
  function Fire(s: State, i: nat, now: nat, effects: seq<Action>): (t: State)
    requires i < |s.items|
    ensures |s.items| <= |t.items|
    ensures effects == [] ==> |t.items| == |s.items|
  {
    Leave(ApplyAll(Enter(s, i, now), effects), i)
  }

  /** A callback that does nothing to the list, or only cancels its own schedule. */
  lemma FireByItself(s: State, i: nat, now: nat, effects: seq<Action>)
    requires i < |s.items| && Due(s.items[i], now) && (effects == [] || effects == [Cancel(i)])
    ensures var t := Fire(s, i, now, effects);
      && |t.items| == |s.items| && (forall id :: 0 <= id < |s.items| && id != i ==> t.items[id] == s.items[id])
      && t.items[i].repeatable == s.items[i].repeatable && t.items[i].interval == s.items[i].interval
      && (t.items[i].next > 0 <==> effects == [] && s.items[i].repeatable)
  {
    ApplyOne(Enter(s, i, now), Cancel(i));
  }

  function Head(script: seq<seq<Action>>): seq<Action> {
    if script == [] then [] else script[0]
  }

  function Tail(script: seq<seq<Action>>): seq<seq<Action>> {
    if script == [] then [] else script[1..]
  }

  /** The walk of `dx_scheduler_do` from element `i` on; `script` says what the callbacks
      entered from now on do, in order. */
  function Walk(s: State, i: nat, now: nat, script: seq<seq<Action>>): State
    decreases |script|, |s.items| - i
  {
    if |s.items| <= i then s
    else if Due(s.items[i], now) then Walk(Fire(s, i, now, Head(script)), i + 1, now, Tail(script))
    else Walk(s, i + 1, now, script)
  }

  lemma UnfoldWalk(s: State, i: nat, now: nat, script: seq<seq<Action>>)
    requires i < |s.items|
    ensures Walk(s, i, now, script) ==
      if Due(s.items[i], now) then Walk(Fire(s, i, now, Head(script)), i + 1, now, Tail(script))
      else Walk(s, i + 1, now, script)
  {
  }

  function Pass(s: State, now: nat, script: seq<seq<Action>>): State {
    Walk(s, 0, now, script)
  }

  datatype Event = Do(action: Action) | PassAt(now: nat, script: seq<seq<Action>>)

  function Step(s: State, ev: Event): State {
    match ev
    case Do(a) => Apply(s, a)
    case PassAt(now, script) => Pass(s, now, script)
  }

  function Run(s: State, events: seq<Event>): State
    decreases |events|
  {
    if events == [] then s else Run(Step(s, events[0]), events[1..])
  }

  const NO_SCHEDULES := State([], [])

  // ---------- cancellation is permanent

  predicate Dead(s: State, id: nat) {
    id < |s.items| && s.items[id].next == 0
  }

  /** The firings of one schedule, in order. */
  function FiringsOf(log: seq<Firing>, id: nat): seq<Firing> {
    if log == [] then []
    else
      var last := log[|log| - 1];
      FiringsOf(log[..|log| - 1], id) + if last.id == id then [last] else []
  }

  /** Nothing about schedule `id` has changed, and it has not fired. */
  predicate Frozen(s: State, t: State, id: nat) {
    && id < |s.items| <= |t.items| && t.items[id] == s.items[id]
    && FiringsOf(t.log, id) == FiringsOf(s.log, id)
  }

  lemma {:induction false} ApplyAllFreezes(s: State, actions: seq<Action>, id: nat)
    requires Dead(s, id)
    ensures Frozen(s, ApplyAll(s, actions), id)
    decreases |actions|
  {
    if actions != [] {
      ApplyAllFreezes(Apply(s, actions[0]), actions[1..], id);
    }
  }

  lemma LogPush(log: seq<Firing>, f: Firing, id: nat)
    ensures FiringsOf(log + [f], id) == FiringsOf(log, id) + if f.id == id then [f] else []
  {
    assert (log + [f])[..|log|] == log;
  }

  lemma FireFreezes(s: State, i: nat, now: nat, effects: seq<Action>, id: nat)
    requires i < |s.items| && Due(s.items[i], now) && Dead(s, id)
    ensures Frozen(s, Fire(s, i, now, effects), id)
  {
    ApplyAllFreezes(Enter(s, i, now), effects, id);
    LogPush(s.log, Firing(i, s.items[i].next, now), id);
  }

  lemma {:induction false} WalkFreezes(s: State, i: nat, now: nat, script: seq<seq<Action>>, id: nat)
    requires Dead(s, id)
    ensures Frozen(s, Walk(s, i, now, script), id)
    decreases |script|, |s.items| - i
  {
    if i < |s.items| {
      if Due(s.items[i], now) {
        FireFreezes(s, i, now, Head(script), id);
        WalkFreezes(Fire(s, i, now, Head(script)), i + 1, now, Tail(script), id);
      } else {
        WalkFreezes(s, i + 1, now, script, id);
      }
    }
  }

  /** Once its `next_schedule` is 0, a schedule never fires again, in any later run. */
  lemma {:induction false} CancellationIsPermanent(s: State, events: seq<Event>, id: nat)
    requires Dead(s, id)
    ensures Frozen(s, Run(s, events), id)
    decreases |events|
  {
    if events != [] {
      match events[0] {
        case Do(a) => ApplyAllFreezes(s, [a], id); ApplyOne(s, a);
        case PassAt(now, script) => WalkFreezes(s, 0, now, script, id);
      }
      CancellationIsPermanent(Step(s, events[0]), events[1..], id);
    }
  }

  lemma {:induction false} CancelledIsDead(s: State, actions: seq<Action>, id: nat)
    requires Cancel(id) in actions && id < |s.items|
    ensures Dead(ApplyAll(s, actions), id)
    decreases |actions|
  {
    if actions[0] == Cancel(id) {
      ApplyAllFreezes(Apply(s, actions[0]), actions[1..], id);
    } else {
      CancelledIsDead(Apply(s, actions[0]), actions[1..], id);
    }
  }

  /** Also within a pass: what a callback cancels, itself included, is dead when it returns, and
      the rest of the pass leaves it alone. */
  lemma CancelledInPass(s: State, i: nat, now: nat, script: seq<seq<Action>>, id: nat)
    requires i < |s.items| && Due(s.items[i], now) && id < |s.items| && Cancel(id) in Head(script)
    ensures var fired := Fire(s, i, now, Head(script));
      Dead(fired, id) && Frozen(fired, Walk(s, i, now, script), id)
  {
    CancelledIsDead(Enter(s, i, now), Head(script), id);
    WalkFreezes(Fire(s, i, now, Head(script)), i + 1, now, Tail(script), id);
  }

  // ---------- no drift, never early, at most once per pass

  /** A live repeatable schedule is due at its first deadline plus its interval for each firing;
      a live one-shot schedule has not fired. */
  predicate OnTime(item: Schedule) {
    && (item.next > 0 && item.repeatable ==> item.next == item.first + item.interval * item.fired)
    && (item.next > 0 && !item.repeatable ==> item.next == item.first && item.fired == 0)
  }

  /** The j-th firing had deadline `first + interval * j` and did not come before it. */
  predicate Punctual(item: Schedule, firings: seq<Firing>) {
    && |firings| == item.fired
    && (forall j :: 0 <= j < |firings| ==>
          firings[j].deadline == item.first + item.interval * j && firings[j].deadline <= firings[j].at)
    && (!item.repeatable ==> item.fired <= 1)
  }

  predicate ItemOk(s: State, id: nat)
    requires id < |s.items|
  {
    OnTime(s.items[id]) && Punctual(s.items[id], FiringsOf(s.log, id))
  }

  predicate Ok(s: State) {
    && (forall id :: 0 <= id < |s.items| ==> ItemOk(s, id))
    && (forall k :: 0 <= k < |s.log| ==> s.log[k].id < |s.items|)
  }

  /** Inside schedule `i`'s own callback: the firing is counted, the deadline not yet moved. */
  predicate Calling(item: Schedule) {
    && 0 < item.fired
    && (item.next > 0 && item.repeatable ==> item.next == item.first + item.interval * (item.fired - 1))
    && (!item.repeatable ==> item.fired == 1)
  }

  predicate OkCalling(s: State, i: nat) {
    && i < |s.items| && Calling(s.items[i]) && Punctual(s.items[i], FiringsOf(s.log, i))
    && (forall id :: 0 <= id < |s.items| && id != i ==> ItemOk(s, id))
    && (forall k :: 0 <= k < |s.log| ==> s.log[k].id < |s.items|)
  }

  lemma {:induction false} NoFirings(log: seq<Firing>, id: nat)
    requires forall k :: 0 <= k < |log| ==> log[k].id < id
    ensures FiringsOf(log, id) == []
  {
    if log != [] {
      NoFirings(log[..|log| - 1], id);
    }
  }

  lemma ApplyOk(s: State, a: Action)
    requires Ok(s)
    ensures Ok(Apply(s, a))
  {
    var t := Apply(s, a);
    NoFirings(s.log, |s.items|);
    forall id | 0 <= id < |t.items|
      ensures ItemOk(t, id)
    {
      assert id < |s.items| ==> ItemOk(s, id);
    }
  }

  lemma ApplyOkCalling(s: State, i: nat, a: Action)
    requires OkCalling(s, i)
    ensures OkCalling(Apply(s, a), i)
  {
    var t := Apply(s, a);
    NoFirings(s.log, |s.items|);
    forall id | 0 <= id < |t.items| && id != i
      ensures ItemOk(t, id)
    {
      assert id < |s.items| ==> ItemOk(s, id);
    }
  }

  lemma {:induction false} EffectsOk(s: State, i: nat, effects: seq<Action>)
    requires OkCalling(s, i)
    ensures OkCalling(ApplyAll(s, effects), i)
    decreases |effects|
  {
    if effects != [] {
      ApplyOkCalling(s, i, effects[0]);
      EffectsOk(Apply(s, effects[0]), i, effects[1..]);
    }
  }

  /** Entering schedule `i` touches no other schedule's firings. */
  lemma EnterOther(s: State, i: nat, now: nat, id: nat)
    requires Ok(s) && i < |s.items| && id < |s.items| && id != i
    ensures ItemOk(Enter(s, i, now), id)
  {
    LogPush(s.log, Firing(i, s.items[i].next, now), id);
    assert ItemOk(s, id);
  }

  lemma EnterItself(s: State, i: nat, now: nat)
    requires i < |s.items| && ItemOk(s, i) && Due(s.items[i], now)
    ensures var t := Enter(s, i, now); Calling(t.items[i]) && Punctual(t.items[i], FiringsOf(t.log, i))
  {
    LogPush(s.log, Firing(i, s.items[i].next, now), i);
  }

  lemma EnterOk(s: State, i: nat, now: nat)
    requires Ok(s) && i < |s.items| && Due(s.items[i], now)
    ensures OkCalling(Enter(s, i, now), i)
  {
    var t := Enter(s, i, now);
    assert ItemOk(s, i);
    EnterItself(s, i, now);
    forall id | 0 <= id < |t.items| && id != i
      ensures ItemOk(t, id)
    {
      EnterOther(s, i, now, id);
    }
    hide Calling, Punctual, OnTime, FiringsOf;
  }

  lemma LeaveOk(s: State, i: nat)
    requires OkCalling(s, i)
    ensures Ok(Leave(s, i))
  {
    var t, it := Leave(s, i), s.items[i];
    assert it.interval * it.fired == it.interval * (it.fired - 1) + it.interval;
    forall id | 0 <= id < |t.items|
      ensures ItemOk(t, id)
    {
      assert id != i ==> ItemOk(s, id);
    }
  }

  lemma {:induction false} WalkOk(s: State, i: nat, now: nat, script: seq<seq<Action>>)
    requires Ok(s)
    ensures Ok(Walk(s, i, now, script))
    decreases |script|, |s.items| - i
  {
    hide Ok, OkCalling;
    if i < |s.items| {
      if Due(s.items[i], now) {
        EnterOk(s, i, now);
        EffectsOk(Enter(s, i, now), i, Head(script));
        LeaveOk(ApplyAll(Enter(s, i, now), Head(script)), i);
        WalkOk(Fire(s, i, now, Head(script)), i + 1, now, Tail(script));
      } else {
        WalkOk(s, i + 1, now, script);
      }
    }
  }

  /** In every run, every schedule is on time and every firing was punctual. */
  lemma {:induction false} NoDriftNeverEarly(s: State, events: seq<Event>)
    requires Ok(s)
    ensures Ok(Run(s, events))
    decreases |events|
  {
    hide Ok;
    if events != [] {
      match events[0] {
        case Do(a) => ApplyOk(s, a);
        case PassAt(now, script) => WalkOk(s, 0, now, script);
      }
      NoDriftNeverEarly(Step(s, events[0]), events[1..]);
    }
  }

  lemma NoDriftFromStart(events: seq<Event>, id: nat)
    requires id < |Run(NO_SCHEDULES, events).items|
    ensures var s := Run(NO_SCHEDULES, events);
      OnTime(s.items[id]) && Punctual(s.items[id], FiringsOf(s.log, id))
  {
    NoDriftNeverEarly(NO_SCHEDULES, events);
    assert ItemOk(Run(NO_SCHEDULES, events), id);
  }

  /** The firings a pass adds: in walking order, no schedule twice. */
  predicate Once(log: seq<Firing>, from: nat, i: nat) {
    && from <= |log|
    && (forall k :: from <= k < |log| ==> i <= log[k].id)
    && (forall j, k :: from <= j < k < |log| ==> log[j].id < log[k].id)
  }

  /** A pass only appends to the log, and fires no schedule more than once. */
  lemma {:induction false} AtMostOncePerPass(s: State, i: nat, now: nat, script: seq<seq<Action>>)
    ensures var t := Walk(s, i, now, script);
      && |s.log| <= |t.log| && t.log[..|s.log|] == s.log
      && Once(t.log, |s.log|, i)
    decreases |script|, |s.items| - i
  {
    if i < |s.items| {
      if Due(s.items[i], now) {
        var u := Fire(s, i, now, Head(script));
        var t := Walk(u, i + 1, now, Tail(script));
        AtMostOncePerPass(u, i + 1, now, Tail(script));
        assert u.log == s.log + [Firing(i, s.items[i].next, now)];
        assert t.log[..|s.log|] == t.log[..|u.log|][..|s.log|] == s.log;
        assert t.log[|s.log|] == t.log[..|u.log|][|s.log|];
      } else {
        AtMostOncePerPass(s, i + 1, now, script);
      }
    }
  }

  // ---------- a pass fires exactly what is due

  /** A callback that this pass enters before it reaches schedule `id` cancels it. */
  predicate CancelledBefore(s: State, i: nat, now: nat, script: seq<seq<Action>>, id: nat)
    decreases |script|, |s.items| - i
  {
    i < id && i < |s.items| &&
    if 0 < s.items[i].next <= now then
      Cancel(id) in Head(script) || CancelledBefore(Fire(s, i, now, Head(script)), i + 1, now, Tail(script), id)
    else
      CancelledBefore(s, i + 1, now, script, id)
  }

  lemma {:induction false} EffectsSpare(s: State, actions: seq<Action>, id: nat)
    requires id < |s.items| && Cancel(id) !in actions
    ensures ApplyAll(s, actions).items[id] == s.items[id]
    decreases |actions|
  {
    if actions != [] {
      EffectsSpare(Apply(s, actions[0]), actions[1..], id);
    }
  }

  /** Callbacks neither count firings nor undo them. */
  lemma {:induction false} EffectsKeepFired(s: State, actions: seq<Action>, id: nat)
    requires id < |s.items|
    ensures ApplyAll(s, actions).items[id].fired == s.items[id].fired
    decreases |actions|
  {
    if actions != [] {
      EffectsKeepFired(Apply(s, actions[0]), actions[1..], id);
    }
  }

  /** The walk leaves what is behind it unfired. */
  lemma {:induction false} WalkPassesBy(s: State, i: nat, now: nat, script: seq<seq<Action>>, id: nat)
    requires id < i && id < |s.items|
    ensures |s.items| <= |Walk(s, i, now, script).items|
    ensures Walk(s, i, now, script).items[id].fired == s.items[id].fired
    decreases |script|, |s.items| - i
  {
    if i < |s.items| {
      if Due(s.items[i], now) {
        EffectsKeepFired(Enter(s, i, now), Head(script), id);
        WalkPassesBy(Fire(s, i, now, Head(script)), i + 1, now, Tail(script), id);
      } else {
        WalkPassesBy(s, i + 1, now, script, id);
      }
    }
  }

  lemma DeadStaysUnfired(s: State, i: nat, now: nat, script: seq<seq<Action>>, id: nat)
    requires i < id < |s.items| && Due(s.items[i], now) && Cancel(id) in Head(script)
    ensures |s.items| <= |Walk(s, i, now, script).items|
    ensures Walk(s, i, now, script).items[id].fired == s.items[id].fired
  {
    CancelledInPass(s, i, now, script, id);
    EffectsKeepFired(Enter(s, i, now), Head(script), id);
  }

  /** A pass fires a schedule exactly if it is live, its deadline is not after the time of the pass, however
      long past, and no callback entered before it cancels it: what later callbacks do, and its own, does
      not matter. */
  lemma {:induction false} PassFiresExactlyTheDue(s: State, i: nat, now: nat, script: seq<seq<Action>>, id: nat)
    requires i <= id < |s.items|
    ensures |s.items| <= |Walk(s, i, now, script).items|
    ensures Walk(s, i, now, script).items[id].fired == s.items[id].fired
      + if 0 < s.items[id].next <= now && !CancelledBefore(s, i, now, script, id) then 1 else 0
    decreases |script|, |s.items| - i
  {
    hide Walk;
    UnfoldWalk(s, i, now, script);
    if !Due(s.items[i], now) {
      if i == id {
        WalkPassesBy(s, i + 1, now, script, id);
      } else {
        PassFiresExactlyTheDue(s, i + 1, now, script, id);
      }
    } else if i == id {
      EffectsKeepFired(Enter(s, i, now), Head(script), id);
      WalkPassesBy(Fire(s, i, now, Head(script)), i + 1, now, Tail(script), id);
    } else if Cancel(id) in Head(script) {
      DeadStaysUnfired(s, i, now, script, id);
    } else {
      EffectsSpare(Enter(s, i, now), Head(script), id);
      PassFiresExactlyTheDue(Fire(s, i, now, Head(script)), i + 1, now, Tail(script), id);
    }
  }

  // ---------- nothing due is left over

  /** What is behind the walk stays fired, or not due, to the end of the pass. */
  lemma {:induction false} EffectsKeepRest(s: State, actions: seq<Action>, id: nat)
    requires id < |s.items|
    ensures ApplyAll(s, actions).items[id].next == s.items[id].next || ApplyAll(s, actions).items[id].next == 0
    decreases |actions|
  {
    if actions != [] {
      EffectsKeepRest(Apply(s, actions[0]), actions[1..], id);
    }
  }

  lemma {:induction false} WalkKeepsRest(s: State, i: nat, now: nat, script: seq<seq<Action>>, id: nat)
    requires id < i && id < |s.items|
    ensures |s.items| <= |Walk(s, i, now, script).items|
    ensures var t := Walk(s, i, now, script); t.items[id].next == s.items[id].next || t.items[id].next == 0
    decreases |script|, |s.items| - i
  {
    if i < |s.items| {
      if Due(s.items[i], now) {
        EffectsKeepRest(Enter(s, i, now), Head(script), id);
        WalkKeepsRest(Fire(s, i, now, Head(script)), i + 1, now, Tail(script), id);
      } else {
        WalkKeepsRest(s, i + 1, now, script, id);
      }
    }
  }

  lemma {:induction false} EffectsStartUnfired(s: State, actions: seq<Action>, id: nat)
    requires |s.items| <= id < |ApplyAll(s, actions).items|
    ensures ApplyAll(s, actions).items[id].fired == 0
    decreases |actions|
  {
    if id < |Apply(s, actions[0]).items| {
      EffectsKeepFired(Apply(s, actions[0]), actions[1..], id);
    } else {
      EffectsStartUnfired(Apply(s, actions[0]), actions[1..], id);
    }
  }

  /** How often a schedule had fired when the pass began; one that callbacks register in it, never. */
  function FiredBefore(s: State, id: nat): nat {
    if id < |s.items| then s.items[id].fired else 0
  }

  lemma FireCounts(s: State, i: nat, now: nat, effects: seq<Action>, id: nat)
    requires i < |s.items| && id < |Fire(s, i, now, effects).items|
    ensures Fire(s, i, now, effects).items[id].fired == FiredBefore(s, id) + if id == i then 1 else 0
  {
    if id < |s.items| {
      EffectsKeepFired(Enter(s, i, now), effects, id);
    } else {
      EffectsStartUnfired(Enter(s, i, now), effects, id);
    }
  }

  /** After a pass, a live schedule whose deadline is not after the time of the pass has fired in it: this
      holds of the schedules there were, and of those that callbacks appended while the list was walked. */
  lemma {:induction false} NothingDueIsLeft(s: State, i: nat, now: nat, script: seq<seq<Action>>, id: nat)
    requires i <= id < |Walk(s, i, now, script).items|
    ensures 0 < Walk(s, i, now, script).items[id].next <= now ==>
      Walk(s, i, now, script).items[id].fired == FiredBefore(s, id) + 1
    decreases |script|, |s.items| - i
  {
    hide Walk, Fire;
    if i < |s.items| {
      UnfoldWalk(s, i, now, script);
      if Due(s.items[i], now) {
        var u := Fire(s, i, now, Head(script));
        if id < |u.items| {
          FireCounts(s, i, now, Head(script), id);
        }
        if id == i {
          WalkPassesBy(u, i + 1, now, Tail(script), id);
        } else {
          NothingDueIsLeft(u, i + 1, now, Tail(script), id);
        }
      } else if id == i {
        WalkKeepsRest(s, i + 1, now, script, id);
      } else {
        NothingDueIsLeft(s, i + 1, now, script, id);
      }
    } else {
      EndOfWalk(s, i, now, script);
    }
  }

  lemma EndOfWalk(s: State, i: nat, now: nat, script: seq<seq<Action>>)
    requires |s.items| <= i
    ensures Walk(s, i, now, script) == s
  {
  }

  // ---------- a registered schedule over its life

  /** Nothing in these events, callbacks included, cancels `id`. */
  predicate Uncancelled(events: seq<Event>, id: nat) {
    forall k :: 0 <= k < |events| ==>
      match events[k]
      case Do(a) => a != Cancel(id)
      case PassAt(_, script) => forall j :: 0 <= j < |script| ==> Cancel(id) !in script[j]
  }

  /** What a request asked for is never changed. */
  predicate SameRequest(a: Schedule, b: Schedule) {
    a.first == b.first && a.interval == b.interval && a.repeatable == b.repeatable
  }

  /** As long as nothing cancels it: a repeatable schedule is live, due at its first deadline plus its interval
      for each firing; a one-shot schedule is due at its first deadline until it has fired. */
  predicate Exact(it: Schedule) {
    it.next == if it.repeatable then it.first + it.interval * it.fired
               else if it.fired == 0 then it.first else 0
  }

  lemma {:induction false} EffectsKeepRequest(s: State, actions: seq<Action>, id: nat)
    requires id < |s.items|
    ensures SameRequest(ApplyAll(s, actions).items[id], s.items[id])
    decreases |actions|
  {
    if actions != [] {
      EffectsKeepRequest(Apply(s, actions[0]), actions[1..], id);
    }
  }

  lemma FireKeepsLife(s: State, i: nat, now: nat, effects: seq<Action>, id: nat)
    requires i < |s.items| && id < |s.items| && Due(s.items[i], now)
    ensures var t := Fire(s, i, now, effects);
      SameRequest(t.items[id], s.items[id])
      && (Cancel(id) !in effects && s.items[id].first > 0 && Exact(s.items[id]) ==> Exact(t.items[id]))
  {
    EffectsKeepRequest(Enter(s, i, now), effects, id);
    if Cancel(id) !in effects {
      EffectsSpare(Enter(s, i, now), effects, id);
      var it := s.items[id];
      assert it.interval * (it.fired + 1) == it.interval * it.fired + it.interval;
    }
  }

  lemma {:induction false} WalkKeepsLife(s: State, i: nat, now: nat, script: seq<seq<Action>>, id: nat)
    requires id < |s.items|
    ensures |s.items| <= |Walk(s, i, now, script).items|
    ensures var t := Walk(s, i, now, script);
      SameRequest(t.items[id], s.items[id])
      && ((forall j :: 0 <= j < |script| ==> Cancel(id) !in script[j]) && s.items[id].first > 0 && Exact(s.items[id])
          ==> Exact(t.items[id]))
    decreases |script|, |s.items| - i
  {
    hide Fire, Exact;
    if i < |s.items| {
      if Due(s.items[i], now) {
        FireKeepsLife(s, i, now, Head(script), id);
        WalkKeepsLife(Fire(s, i, now, Head(script)), i + 1, now, Tail(script), id);
      } else {
        WalkKeepsLife(s, i + 1, now, script, id);
      }
    }
  }

  lemma StepKeepsLife(s: State, ev: Event, id: nat)
    requires id < |s.items|
    ensures |s.items| <= |Step(s, ev).items|
    ensures SameRequest(Step(s, ev).items[id], s.items[id])
    ensures Uncancelled([ev], id) && s.items[id].first > 0 && Exact(s.items[id]) ==> Exact(Step(s, ev).items[id])
  {
    match ev {
      case Do(a) => ApplyOne(s, a); EffectsKeepRequest(s, [a], id);
      case PassAt(now, script) => WalkKeepsLife(s, 0, now, script, id);
    }
    assert [ev][0] == ev;
  }

  lemma {:induction false} RunKeepsLife(s: State, events: seq<Event>, id: nat)
    requires id < |s.items|
    ensures |s.items| <= |Run(s, events).items|
    ensures SameRequest(Run(s, events).items[id], s.items[id])
    ensures Uncancelled(events, id) && s.items[id].first > 0 && Exact(s.items[id]) ==> Exact(Run(s, events).items[id])
    decreases |events|
  {
    hide Step, Exact;
    if events != [] {
      StepKeepsLife(s, events[0], id);
      RunKeepsLife(Step(s, events[0]), events[1..], id);
    }
  }

  /** Over every run that registers a schedule at clock reading `clock`, not 0: its j-th firing has deadline
      `clock + initial + interval * j` and does not come before it, a one-shot fires at most once; and in a run
      in which nothing cancels it, it stays live with the next such deadline, a one-shot until it has fired. */
  lemma RegisteredRuns(before: seq<Event>, clock: nat, initial: nat, interval: nat, repeatable: bool, after: seq<Event>)
    requires clock > 0
    ensures var id := |Run(NO_SCHEDULES, before).items|;
      var s := Run(Step(Run(NO_SCHEDULES, before), Do(Register(clock, initial, interval, repeatable))), after);
      && id < |s.items|
      && var it, firings := s.items[id], FiringsOf(s.log, id);
        && |firings| == it.fired && (!repeatable ==> it.fired <= 1)
        && (forall j :: 0 <= j < |firings| ==>
              firings[j].deadline == clock + initial + interval * j && firings[j].deadline <= firings[j].at)
        && (it.next > 0 && repeatable ==> it.next == clock + initial + interval * it.fired)
        && (Uncancelled(after, id) ==>
              it.next == if repeatable then clock + initial + interval * it.fired
                         else if it.fired == 0 then clock + initial else 0)
  {
    var s := Run(NO_SCHEDULES, before);
    var id, ev := |s.items|, Do(Register(clock, initial, interval, repeatable));
    NoDriftNeverEarly(NO_SCHEDULES, before);
    ApplyOk(s, ev.action);
    NoDriftNeverEarly(Step(s, ev), after);
    assert Exact(Step(s, ev).items[id]);
    RunKeepsLife(Step(s, ev), after, id);
    assert ItemOk(Run(Step(s, ev), after), id);
  }

  // ---------- an overdue schedule fires in the first pass that comes

  /** No pass in these events comes at or after the deadline. */
  predicate NoPassFrom(events: seq<Event>, deadline: nat) {
    forall k :: 0 <= k < |events| && events[k].PassAt? ==> events[k].now < deadline
  }

  lemma {:induction false} WalkLeavesFuture(s: State, i: nat, now: nat, script: seq<seq<Action>>, id: nat)
    requires id < |s.items| && now < s.items[id].next
    requires forall j :: 0 <= j < |script| ==> Cancel(id) !in script[j]
    ensures |s.items| <= |Walk(s, i, now, script).items| && Walk(s, i, now, script).items[id] == s.items[id]
    decreases |script|, |s.items| - i
  {
    if i < |s.items| {
      if Due(s.items[i], now) {
        EffectsSpare(Enter(s, i, now), Head(script), id);
        WalkLeavesFuture(Fire(s, i, now, Head(script)), i + 1, now, Tail(script), id);
      } else {
        WalkLeavesFuture(s, i + 1, now, script, id);
      }
    }
  }

  lemma {:induction false} RunLeavesFuture(s: State, events: seq<Event>, id: nat)
    requires id < |s.items| && s.items[id].next > 0
    requires Uncancelled(events, id) && NoPassFrom(events, s.items[id].next)
    ensures |s.items| <= |Run(s, events).items| && Run(s, events).items[id] == s.items[id]
    decreases |events|
  {
    if events != [] {
      match events[0] {
        case Do(a) =>
        case PassAt(now, script) => WalkLeavesFuture(s, 0, now, script, id);
      }
      RunLeavesFuture(Step(s, events[0]), events[1..], id);
    }
  }

  /** Whatever happens first, as long as no pass comes before the deadline is reached and nothing cancels it: the
      first pass at any time at or after a live deadline fires the schedule, once. */
  lemma FirstPassFires(s: State, events: seq<Event>, now: nat, script: seq<seq<Action>>, id: nat)
    requires id < |s.items| && 0 < s.items[id].next <= now
    requires Uncancelled(events, id) && NoPassFrom(events, s.items[id].next)
    requires !CancelledBefore(Run(s, events), 0, now, script, id)
    ensures var t := Pass(Run(s, events), now, script);
      id < |t.items| && t.items[id].fired == s.items[id].fired + 1
  {
    RunLeavesFuture(s, events, id);
    PassFiresExactlyTheDue(Run(s, events), 0, now, script, id);
  }

  // ---------- how long to wait

  const TWO_63: int := 0x8000_0000_0000_0000
  const TWO_64: int := 0x1_0000_0000_0000_0000

  /** The accumulation of `dx_scheduler_next_callback`; 0 means none yet. */
  function Earliest(items: seq<Schedule>): (m: nat)
    ensures m == 0 <==> forall i :: 0 <= i < |items| ==> items[i].next == 0
    ensures forall i :: 0 <= i < |items| && items[i].next > 0 ==> m <= items[i].next
    ensures m > 0 ==> exists i :: 0 <= i < |items| && items[i].next == m
  {
    if items == [] then 0
    else
      var m, last := Earliest(items[..|items| - 1]), items[|items| - 1].next;
      assert forall i :: 0 <= i < |items| - 1 ==> items[..|items| - 1][i] == items[i];
      Sooner(m, last)
  }

  lemma EarliestStep(items: seq<Schedule>, i: nat)
    requires i < |items|
    ensures Earliest(items[..i + 1]) == Sooner(Earliest(items[..i]), items[i].next)
  {
    assert items[..i + 1][..i] == items[..i];
  }

  function Sooner(m: nat, next: nat): nat {
    if next == 0 then m else if m == 0 || next < m then next else m
  }

  /** An unsigned 64-bit difference, returned as a signed one. */
  function SignedDifference(a: nat, b: nat): int {
    var u := (a - b) % TWO_64;
    if u < TWO_63 then u else u - TWO_64
  }

  /** `dx_scheduler_next_wait`: the comparison with 0 is unsigned. */
  function Wait(items: seq<Schedule>, now: nat): int {
    var m := Earliest(items);
    if m == 0 then -1
    else if (m - now) % TWO_64 > 0 then SignedDifference(m, now) else 0
  }

  predicate Sane(items: seq<Schedule>, now: nat) {
    now < TWO_63 && Earliest(items) < TWO_63
  }

  /** The wait is the intended one, clamped at 0, exactly when nothing live is overdue: for an
      overdue deadline the unsigned comparison lets a negative wait through. */
  lemma WaitIsClampedExactlyWhenNotLate(items: seq<Schedule>, now: nat)
    requires Sane(items, now) && Earliest(items) > 0
    ensures Wait(items, now) == (if Earliest(items) > now then Earliest(items) - now else 0)
        <==> Earliest(items) >= now
    ensures Wait(items, now) == Earliest(items) - now
  {
  }

  /** A schedule one millisecond late makes the result look like "none is live". */
  lemma LateLooksIdle()
    ensures var items := [Schedule(99, 0, false, 99, 0)];
      Earliest(items) > 0 && Wait(items, 100) == -1
  {
    var items := [Schedule(99, 0, false, 99, 0)];
    assert items[0].next == 99;
    var m := Earliest(items);
    assert exists i :: 0 <= i < |items| && items[i].next == m;
    assert m == 99;
  }

  lemma WaitReaches(items: seq<Schedule>, now: nat)
    requires Sane(items, now) && (Earliest(items) > 0 ==> now <= Earliest(items))
    ensures Wait(items, now) == if Earliest(items) == 0 then -1 else Earliest(items) - now
  {
    hide Earliest;
  }

  /** With nothing overdue: -1 exactly when nothing is live; otherwise no live deadline falls
      before the wake-up, and a pass run then fires a schedule whose deadline it is exactly if
      no callback entered before it cancels it. */
  lemma WakeUpFires(s: State, now: nat, script: seq<seq<Action>>, id: nat)
    requires Sane(s.items, now) && (Earliest(s.items) > 0 ==> now <= Earliest(s.items))
    ensures Wait(s.items, now) == -1 <==> forall i :: 0 <= i < |s.items| ==> s.items[i].next == 0
    ensures Earliest(s.items) > 0 ==> Wait(s.items, now) >= 0
    ensures forall i :: 0 <= i < |s.items| && s.items[i].next > 0 ==> now + Wait(s.items, now) <= s.items[i].next
    ensures id < |s.items| && s.items[id].next == Earliest(s.items) > 0 ==>
      var wake := now + Wait(s.items, now);
      var t := Pass(s, wake, script);
      && id < |t.items|
      && t.items[id].fired == s.items[id].fired + if CancelledBefore(s, 0, wake, script, id) then 0 else 1
  {
    hide Walk, CancelledBefore, Wait, Sane;
    WaitReaches(s.items, now);
    if id < |s.items| && s.items[id].next == Earliest(s.items) > 0 {
      PassFiresExactlyTheDue(s, 0, now + Wait(s.items, now), script, id);
    }
  }
}
