/**
 * The shared table itself, updated in place by the four lock regions, and a scheduler that
 * drives any number of tasks of any number of streams over one such table.
 */
module StreamTable {
  import opened Common
  import opened StreamMux

  function Lookup(table: map<u32, StreamRec>, id: u32): Option<StreamRec> {
    if id in table then Some(table[id]) else None
  }

  class Streams {
    var table: map<u32, StreamRec>

    constructor ()
      ensures table == map[]
    {
      table := map[];
    }

    method Insert(id: u32, stream: Half)
      modifies this
      ensures table == old(table)[id := StreamRec(Some(stream), [], false)]
    {
      table := table[id := StreamRec(Some(stream), [], false)];
    }

    /** Queues a segment; `spawn` is the half a new write loop is started with. */
    method Write(id: u32, buf: Segment) returns (spawn: Option<Half>)
      modifies this
      ensures id !in old(table) ==> table == old(table) && spawn == None
      ensures id in old(table) ==>
        && spawn == old(table)[id].write
        && table == old(table)[id := StreamRec(None, old(table)[id].q + [buf], old(table)[id].ended)]
    {
      spawn := None;
      if id in table {
        var s := table[id];
        s := s.(q := s.q + [buf]);
        if s.write.Some? {
          spawn := s.write;
          s := s.(write := None);
        }
        table := table[id := s];
      }
    }

    /** The lock region of `remove`; the half returned is shut down outside the lock. */
    method Remove(id: u32) returns (half: Option<Half>)
      modifies this
      ensures id !in old(table) ==> table == old(table) && half == None
      ensures id in old(table) ==> half == old(table)[id].write
      ensures id in old(table) && half.Some? ==> table == old(table) - {id}
      ensures id in old(table) && half.None? ==> table == old(table)[id := old(table)[id].(ended := true)]
    {
      half := None;
      if id in table {
        var s := table[id];
        if s.write.Some? {
          half := s.write;
          table := table - {id};
        } else {
          table := table[id := s.(ended := true)];
        }
      }
    }

    /** The lock region of `write_loop`, which swaps the queue with the loop's own vector. */
    method TakeBatch(id: u32, w: Half, items: seq<Segment>)
      returns (outcome: LockOutcome, batch: seq<Segment>)
      modifies this
      ensures var (rec', outcome', items') := LockRec(Lookup(old(table), id), w, items);
        && outcome == outcome' && batch == items'
        && table == match rec' { case None => old(table) - {id} case Some(r) => old(table)[id := r] }
    {
      batch := items;
      if id !in table {
        outcome := Break;
        assert table == table - {id};
        return;
      }
      var s := table[id];
      if s.q == [] {
        if s.ended {
          table := table - {id};
          outcome := Break;
        } else {
          table := table[id := s.(write := Some(w))];
          outcome := GaveBack;
        }
        return;
      }
      batch := s.q;
      table := table[id := s.(q := items)];
      outcome := Swapped;
    }
  }

  /** One step from `t` (with the table's record) leads to `t'` (with the new table's record). */
  ghost predicate AgreesWith(before: map<u32, StreamRec>, id: u32, t: Stream, a: Action,
                             after: map<u32, StreamRec>, t': Stream)
  {
    var s := t.(rec := Lookup(before, id));
    && Enabled(s, a)
    && t'.rec == t.rec
    && t'.(rec := Lookup(after, id)) == Next(s, a)
    && after.Keys <= before.Keys + {id}
    && forall other :: other != id ==> Lookup(after, other) == Lookup(before, other)
  }

  /** Steps outside the lock do not look at the record. */
  lemma OutsideTheLock(t: Stream, rec: Option<StreamRec>, a: Action)
    requires Enabled(t.(rec := rec), a) && !a.Insert? && !a.Data? && !a.RunRemover? && !a.Lock?
    ensures Enabled(t, a)
    ensures Next(t.(rec := rec), a) == Next(t, a).(rec := rec)
    ensures Next(t, a).rec == t.rec
  {}

  /** The records of the table put together with the rest of the streams. */
  ghost function Combined(table: map<u32, StreamRec>, tasks: map<u32, Stream>): System {
    map id | id in tasks :: tasks[id].(rec := Lookup(table, id))
  }

  lemma StepCombined(before: map<u32, StreamRec>, after: map<u32, StreamRec>, tasks: map<u32, Stream>,
                     id: u32, t: Stream, action: Action, t': Stream)
    requires t == if id in tasks then tasks[id] else EMPTY
    requires before.Keys <= tasks.Keys && AgreesWith(before, id, t, action, after, t')
    requires CanHappen(Combined(before, tasks), Event(id, action))
    ensures Combined(after, tasks[id := t']) == Happen(Combined(before, tasks), Event(id, action))
  {
    assert At(Combined(before, tasks), id) == t.(rec := Lookup(before, id));
  }

  /** A scheduler: the shared table, and per id the tasks and pipes outside of it. */
  class Runtime {
    const streams: Streams
    var tasks: map<u32, Stream>

    /** The record of every id is in the table, and nowhere else. */
    ghost predicate Valid()
      reads this, streams
    {
      && streams.table.Keys <= tasks.Keys
      && forall id :: id in tasks ==> tasks[id].rec == None
    }

    /** The state of the model that this heap stands for. */
    ghost function View(): System
      reads this, streams
    {
      Combined(streams.table, tasks)
    }

    constructor ()
      ensures Valid() && fresh(streams) && View() == map[]
    {
      streams := new Streams();
      tasks := map[];
    }

    method Insert(id: u32, t: Stream) returns (t': Stream)
      requires t.rec == None
      modifies streams
      ensures AgreesWith(old(streams.table), id, t, StreamMux.Insert, streams.table, t')
    {
      streams.Insert(id, |t.pipes|);
      t' := t.(pipes := t.pipes + [Pipe([], [], 0)]);
    }

    method Data(id: u32, t: Stream, segment: Segment) returns (t': Stream)
      requires t.rec == None
      modifies streams
      ensures AgreesWith(old(streams.table), id, t, StreamMux.Data(segment), streams.table, t')
    {
      t' := t;
      if t.pipes != [] { t' := t'.(dispatched := t.dispatched + [segment]); }
      if id in streams.table { t' := t'.(accepted := t.accepted + [segment]); }
      var spawn := streams.Write(id, segment);
      if spawn.Some? { t' := t'.(loops := t.loops + [WriteLoop(spawn.value, [], AtLock)]); }
    }

    method RunRemover(id: u32, t: Stream) returns (t': Stream)
      requires t.rec == None && t.removers > 0
      modifies streams
      ensures AgreesWith(old(streams.table), id, t, StreamMux.RunRemover, streams.table, t')
    {
      var half := streams.Remove(id);
      t' := t.(removers := t.removers - 1);
      if half.Some? { t' := t'.(closers := t.closers + [half.value]); }
    }

    method Lock(id: u32, t: Stream, k: nat) returns (t': Stream)
      requires t.rec == None && Enabled(t, StreamMux.Lock(k))
      modifies streams
      ensures AgreesWith(old(streams.table), id, t, StreamMux.Lock(k), streams.table, t')
    {
      var l := t.loops[k];
      var outcome, batch := streams.TakeBatch(id, l.w, l.items);
      match outcome {
        case Break => t' := t.(loops := t.loops[k := l.(phase := Closing)]);
        case GaveBack => t' := t.(loops := RemoveAt(t.loops, k));
        case Swapped => t' := t.(loops := t.loops[k := WriteLoop(l.w, batch, Writing(0))]);
      }
    }

    method Act(id: u32, t: Stream, action: Action) returns (t': Stream)
      requires t.rec == None && Enabled(t.(rec := Lookup(streams.table, id)), action)
      modifies streams
      ensures AgreesWith(old(streams.table), id, t, action, streams.table, t')
    {
      match action {
        case Insert => t' := Insert(id, t);
        case Data(segment) => t' := Data(id, t, segment);
        case RunRemover => t' := RunRemover(id, t);
        case Lock(k) => t' := Lock(id, t, k);
        case _ =>
          OutsideTheLock(t, Lookup(streams.table, id), action);
          t' := Next(t, action);
      }
    }

    /** One step of one task, with the record looked up and changed in the shared table. */
    method Perform(id: u32, action: Action)
      requires Valid() && CanHappen(View(), Event(id, action))
      modifies this, streams
      ensures Valid()
      ensures View() == Happen(old(View()), Event(id, action))
    {
      var t := if id in tasks then tasks[id] else EMPTY;
      assert At(View(), id) == t.(rec := Lookup(streams.table, id));
      var t' := Act(id, t, action);
      StepCombined(old(streams.table), streams.table, tasks, id, t, action, t');
      tasks := tasks[id := t'];
    }

    /** A whole schedule, starting from the empty table. */
    method Run(schedule: seq<Event>)
      requires Valid() && View() == Exec([]) && IsRun(schedule)
      modifies this, streams
      ensures Valid() && View() == Exec(schedule)
    {
      var i := 0;
      assert schedule[..0] == [];
      while i < |schedule|
        invariant 0 <= i <= |schedule|
        invariant Valid() && IsRun(schedule[..i]) && View() == Exec(schedule[..i])
      {
        RunPrefix(schedule, i + 1);
        Perform(schedule[i].id, schedule[i].action);
        i := i + 1;
      }
      assert schedule[..i] == schedule;
    }
  }

  lemma {:induction false} RunPrefix(es: seq<Event>, n: nat)
    requires IsRun(es) && 0 < n <= |es|
    ensures IsRun(es[..n]) && IsRun(es[..n - 1])
    ensures CanHappen(Exec(es[..n - 1]), es[n - 1])
    ensures Exec(es[..n]) == Happen(Exec(es[..n - 1]), es[n - 1])
    decreases |es| - n
  {
    if n == |es| {
      assert es[..n] == es;
    } else {
      RunPrefix(es, n + 1);
      assert es[..n + 1][..n] == es[..n];
      assert es[..n][..n - 1] == es[..n - 1];
    }
  }
}
