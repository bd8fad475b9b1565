/** The schedule list in place: registration, cancellation, the pass that calls callbacks while
    they change the list under it, and the wait computation, proved against Schedules. */
module Scheduler {
  import opened LinkedList
  import SC = Schedules

  class Schedule {
    const interval: nat
    const repeatable: bool
    var next: nat

    constructor (next: nat, interval: nat, repeatable: bool)
      ensures this.next == next && this.interval == interval && this.repeatable == repeatable
    {
      this.next, this.interval, this.repeatable := next, interval, repeatable;
    }
  }

  class Scheduler {
    const list: List<Schedule>

    /** The state on values that this object implements, and the schedules in it. */
    ghost var model: SC.State
    ghost var members: set<Schedule>
    ghost var Repr: set<object>

    static const SAME: (Schedule, Schedule) -> bool := (a, b) => a == b

    static ghost predicate Holds(o: Schedule, it: SC.Schedule)
      reads o
    {
      o.next == it.next && o.interval == it.interval && o.repeatable == it.repeatable
    }

    static ghost predicate ItemsHold(nodes: seq<Node<Schedule>>, items: seq<SC.Schedule>, members: set<Schedule>)
      reads members
    {
      && |nodes| == |items|
      && (forall i :: 0 <= i < |nodes| ==> nodes[i].data in members)
      && (forall i, j :: 0 <= i < j < |nodes| ==> nodes[i].data != nodes[j].data)
      && (forall i :: 0 <= i < |nodes| ==> Holds(nodes[i].data, items[i]))
    }

    ghost predicate Valid()
      reads this, Repr
      ensures Valid() ==> this in Repr && list in Repr
    {
      && this in Repr && list in Repr && members <= Repr && (forall n :: n in list.nodes ==> n in Repr)
      && list.finder == SAME && list.Valid() && ItemsHold(list.nodes, model.items, members)
    }

    /** `dx_scheduler_start` */
    constructor ()
      ensures Valid() && fresh(Repr) && model == SC.NO_SCHEDULES
    {
      var l := new List<Schedule>(SAME);
      list := l;
      model, members, Repr := SC.NO_SCHEDULES, {}, {this, l};
    }

    /** `dx_schedule_register`, at clock reading `now`. */
    method Register(now: nat, initial: nat, interval: nat, repeatable: bool) returns (schedule: Schedule)
      requires Valid()
      modifies Repr
      ensures Valid() && model == SC.Apply(old(model), SC.Register(now, initial, interval, repeatable))
      ensures Grown(old(list.nodes)) && forall o :: o in Repr ==> o in old(Repr) || fresh(o)
      ensures schedule in members && fresh(schedule)
      ensures |list.nodes| == |old(list.nodes)| + 1 && list.nodes[|old(list.nodes)|].data == schedule
    {
      hide List.Valid, ItemsHold;
      ghost var it := SC.Schedule(now + initial, interval, repeatable, now + initial, 0);
      schedule := new Schedule(now + initial, interval, repeatable);
      ghost var before := list.nodes;
      ghost var n := Append(schedule);
      ItemsPush(before, model.items, members, n, it);
      model := SC.Apply(model, SC.Register(now, initial, interval, repeatable));
      members, Repr := members + {schedule}, Repr + {schedule, n};
    }

    /** The list grows by a new schedule; nothing it already held changes. */
    method Append(schedule: Schedule) returns (ghost n: Node<Schedule>)
      requires Valid() && schedule !in members
      modifies list, list.nodes
      ensures list.Valid() && list.nodes == old(list.nodes) + [n]
      ensures n.data == schedule && fresh(n)
      ensures ItemsHold(old(list.nodes), model.items, members)
    {
      hide List.Valid;
      ghost var before := list.nodes;
      list.Add(schedule);
      n := list.nodes[|before|];
      assert list.nodes == before + [n];
    }

    static lemma ItemsPush(nodes: seq<Node<Schedule>>, items: seq<SC.Schedule>, members: set<Schedule>,
                           n: Node<Schedule>, it: SC.Schedule)
      requires ItemsHold(nodes, items, members) && n.data !in members && Holds(n.data, it)
      ensures ItemsHold(nodes + [n], items + [it], members + {n.data})
    {
    }

    /** The list has only been appended to. */
    ghost predicate Grown(nodes: seq<Node<Schedule>>)
      reads this, list
    {
      |nodes| <= |list.nodes| && list.nodes[..|nodes|] == nodes
    }

    /** `dx_schedule_cancel` on the schedule registered as number `id`. */
    method Cancel(schedule: Schedule, ghost id: nat)
      requires Valid() && id < |list.nodes| && list.nodes[id].data == schedule
      modifies this`model, schedule`next
      ensures Valid() && model == SC.Apply(old(model), SC.Cancel(id))
    {
      schedule.next := 0;
      model := SC.Apply(model, SC.Cancel(id));
    }

    /** The schedule a callback holds a pointer to, found by its registration number. */
    method Find(id: nat) returns (schedule: Schedule)
      requires Valid() && id < |list.nodes|
      ensures schedule == list.nodes[id].data && schedule in members
    {
      var pnode := list.head;
      var k := 0;
      while k < id
        invariant 0 <= k <= id && pnode == list.nodes[k]
      {
        pnode := pnode.next;
        k := k + 1;
      }
      schedule := pnode.data;
    }

    /** One registration or cancellation by a callback. */
    method Act(action: SC.Action)
      requires Valid()
      modifies Repr
      ensures Valid() && model == SC.Apply(old(model), action)
      ensures Grown(old(list.nodes)) && forall o :: o in Repr ==> o in old(Repr) || fresh(o)
    {
      match action {
        case Register(clock, initial, interval, repeatable) =>
          var _ := Register(clock, initial, interval, repeatable);
        case Cancel(id) =>
          var sz := list.Size();
          if id < sz {
            var schedule := Find(id);
            Cancel(schedule, id);
          }
      }
    }

    /** Everything one callback does. */
    method Callback(effects: seq<SC.Action>)
      requires Valid()
      modifies Repr
      ensures Valid() && model == SC.ApplyAll(old(model), effects)
      ensures Grown(old(list.nodes)) && forall o :: o in Repr ==> o in old(Repr) || fresh(o)
      decreases |effects|
    {
      hide Valid;
      if effects != [] {
        Act(effects[0]);
        Callback(effects[1..]);
      }
    }

    /** `dx_scheduler_do_callback` on the i-th schedule, already known to be due. */
    method Call(schedule: Schedule, ghost i: nat, ghost now: nat, effects: seq<SC.Action>)
      requires Valid() && i < |list.nodes| && list.nodes[i].data == schedule
      modifies Repr
      ensures Valid() && i < |old(model).items| && model == SC.Fire(old(model), i, now, effects)
      ensures Grown(old(list.nodes)) && forall o :: o in Repr ==> o in old(Repr) || fresh(o)
    {
      EnterHolds(i, now);
      model := SC.Enter(model, i, now);
      Callback(effects);
      assert list.nodes[i] == old(list.nodes)[i];
      Move(schedule, i);
    }

    lemma EnterHolds(i: nat, now: nat)
      requires Valid() && i < |list.nodes|
      ensures i < |model.items|
      ensures ItemsHold(list.nodes, SC.Enter(model, i, now).items, members)
    {
    }

    /** After the callback, the deadline moves by the interval or the schedule ends. */
    method Move(schedule: Schedule, ghost i: nat)
      requires Valid() && i < |list.nodes| && list.nodes[i].data == schedule
      modifies schedule`next, this`model
      ensures Valid() && i < |old(model).items| && model == SC.Leave(old(model), i)
    {
      if schedule.repeatable && schedule.next > 0 {
        schedule.next := schedule.next + schedule.interval;
      } else {
        schedule.next := 0;
      }
      model := SC.Leave(model, i);
    }

    /** `dx_scheduler_do`: the pointer walks the list while callbacks append to it; the cleanup
        that follows works on a list of its own and changes nothing here. */
    method Do(now: nat, script: seq<seq<SC.Action>>)
      requires Valid()
      modifies Repr
      ensures Valid() && model == SC.Pass(old(model), now, script)
    {
      var pnode := list.head;
      var rest := script;
      ghost var i := 0;
      NodeAt(0);
      while pnode != null
        invariant Valid() && i <= |list.nodes| && pnode == if i < |list.nodes| then list.nodes[i] else null
        invariant forall o :: o in Repr ==> o in old(Repr) || fresh(o)
        invariant SC.Walk(model, i, now, rest) == SC.Walk(old(model), 0, now, script)
        decreases |rest|, |list.nodes| - i
      {
        hide SC.Fire, SC.Walk;
        var schedule := pnode.data;
        ItemAt(i);
        SC.UnfoldWalk(model, i, now, rest);
        if 0 < schedule.next <= now {
          Call(schedule, i, now, SC.Head(rest));
          rest := SC.Tail(rest);
        }
        NodeAt(i);
        pnode := pnode.next;
        i := i + 1;
      }
      ItemAt(i);
    }

    lemma NodeAt(i: nat)
      requires Valid()
      ensures list.head == if |list.nodes| > 0 then list.nodes[0] else null
      ensures i < |list.nodes| ==> list.nodes[i].next == if i + 1 < |list.nodes| then list.nodes[i + 1] else null
    {
    }

    lemma ItemAt(i: nat)
      requires Valid()
      ensures |list.nodes| == |model.items|
      ensures i < |list.nodes| ==> Holds(list.nodes[i].data, model.items[i])
    {
    }

    /** `dx_scheduler_next_wait` */
    method NextWait(now: nat) returns (wait: int)
      requires Valid() && SC.Sane(model.items, now)
      ensures wait == SC.Wait(model.items, now)
    {
      hide SC.Earliest, List.Valid, ItemsHold;
      var next: nat := 0;
      var pnode := list.head;
      ghost var i := 0;
      NodeAt(0);
      ItemAt(0);
      while pnode != null
        invariant i <= |list.nodes| && pnode == if i < |list.nodes| then list.nodes[i] else null
        invariant next == SC.Earliest(model.items[..i])
        decreases |list.nodes| - i
      {
        ItemAt(i);
        NodeAt(i);
        SC.EarliestStep(model.items, i);
        if pnode.data.next != 0 {
          if next == 0 || pnode.data.next < next {
            next := pnode.data.next;
          }
        }
        pnode := pnode.next;
        i := i + 1;
      }
      assert model.items[..i] == model.items;
      if next == 0 {
        return -1;
      }
      return if (next - now) % SC.TWO_64 > 0 then SC.SignedDifference(next, now) else 0;
    }
  }
}
