/**
 * When the transport loops can get stuck: the main task waits for room in a channel that only
 * it drains.
 */
module TransportProgress {
  import opened Common
  import opened Transport

  predicate Bounded(s: State) { |s.chan| <= CAPACITY }

  lemma BoundedStep(s: State, a: Action)
    requires Bounded(s) && Enabled(s, a)
    ensures Bounded(Next(s, a))
  {}

  /** The main task is waiting to send, and the channel is full. */
  predicate Wedged(s: State) {
    (s.main.SendingReply? || s.main.SendingStarted?) && |s.chan| >= CAPACITY
  }

  ghost predicate Stuck(s: State) {
    forall a :: !Enabled(s, a)
  }

  /** Nothing at all can happen exactly when the loop has wedged itself or has returned. */
  lemma StuckExactly(s: State)
    requires Bounded(s)
    ensures Stuck(s) <==> Wedged(s) || s.main.Stopped?
  {
    if Stuck(s) {
      assert !Enabled(s, Stop) && !Enabled(s, Dispatch) && !Enabled(s, BurstDone);
      assert !Enabled(s, InsertNext) && !Enabled(s, RegisterDone);
      assert !Enabled(s, PushReply) && !Enabled(s, PushStarted);
    }
  }

  /** A JSON loop writes synchronous replies past the channel: only announcing streams can wedge it. */
  lemma {:induction false} JsonWedgesOnlyAnnouncing(actions: seq<Action>)
    requires IsRun(Json, actions)
    ensures var s := Exec(Json, actions); s.kind.Json? && !s.main.SendingReply?
    ensures Wedged(Exec(Json, actions)) ==> Exec(Json, actions).main.SendingStarted?
  {
    if actions != [] {
      var front, a := actions[..|actions| - 1], actions[|actions| - 1];
      JsonWedgesOnlyAnnouncing(front);
      JsonStep(Exec(Json, front), a);
    }
  }

  lemma JsonStep(s: State, a: Action)
    requires s.kind.Json? && !s.main.SendingReply? && Enabled(s, a)
    ensures Next(s, a).kind.Json? && !Next(s, a).main.SendingReply?
  {}

  // ---------------------------------------------------------------------------------------
  // Only synchronous methods
  // ---------------------------------------------------------------------------------------

  predicate OnlySync(burst: seq<Incoming>) {
    forall i :: 0 <= i < |burst| ==> burst[i].Sync?
  }

  /** The replies of a burst, in the order in which its messages are dispatched. */
  function Replies(burst: seq<Incoming>): seq<Frame>
    requires OnlySync(burst)
  {
    if burst == [] then []
    else (if burst[0].replies then [Reply(burst[0].request, false)] else []) + Replies(burst[1..])
  }

  /** The main task is in the middle of a burst of synchronous calls and is the only task. */
  predicate InBurst(s: State) {
    && s.kind.MsgPack? && s.readers == [] && s.repliers == []
    && (s.main.Decoding? || (s.main.SendingReply? && s.main.reply.Reply?))
    && OnlySync(s.main.rest)
  }

  /** Replies of the burst that are not yet in the channel. */
  function Owed(s: State): seq<Frame>
    requires InBurst(s)
  {
    (if s.main.SendingReply? then [s.main.reply] else []) + Replies(s.main.rest)
  }

  /** A run from `s` on whose last state is the first one, if any, outside of the burst. */
  predicate IsBurstRun(s: State, actions: seq<Action>)
    decreases |actions|
  {
    actions != [] ==>
      && !s.main.Selecting?
      && Enabled(s, actions[0])
      && IsBurstRun(Next(s, actions[0]), actions[1..])
  }

  function AfterBurst(s: State, actions: seq<Action>): State
    requires IsBurstRun(s, actions)
    decreases |actions|
  {
    if actions == [] then s else AfterBurst(Next(s, actions[0]), actions[1..])
  }

  lemma BurstStep(s: State, a: Action)
    requires InBurst(s) && Bounded(s) && Enabled(s, a)
    ensures var s' := Next(s, a);
      if a.BurstDone? then s.main == Decoding([]) && s' == s.(main := Selecting)
      else InBurst(s') && s'.wire == s.wire && s'.inserted == s.inserted
           && s'.chan + Owed(s') == s.chan + Owed(s)
  {}

  /**
   * A burst whose replies fit the free slots is worked off and leaves all its replies in the
   * channel; a burst with more replies than free slots can only end in a wedged loop.
   */
  lemma {:induction false} BurstFitsOrWedges(s: State, actions: seq<Action>)
    requires InBurst(s) && Bounded(s) && IsBurstRun(s, actions)
    requires var t := AfterBurst(s, actions); t.main.Selecting? || Stuck(t)
    ensures var t := AfterBurst(s, actions);
      var all := s.chan + Owed(s);
      && t.wire == s.wire
      && (t.main.Selecting? <==> |all| <= CAPACITY)
      && (Wedged(t) <==> |all| > CAPACITY)
      && t.chan == (if |all| <= CAPACITY then all else all[..CAPACITY])
    decreases |actions|
  {
    if actions == [] {
      StuckExactly(s);
      assert Wedged(s);
    } else {
      var a := actions[0];
      BurstStep(s, a);
      BoundedStep(s, a);
      if a.BurstDone? {
        assert actions[1..] == [];
      } else {
        BurstFitsOrWedges(Next(s, a), actions[1..]);
      }
    }
  }

  /** A bound on how long a burst can go on. */
  function Steps(m: Main): nat {
    match m
    case Decoding(rest) => 2 * |rest| + 1
    case SendingReply(_, rest) => 2 * |rest| + 2
    case _ => 0
  }

  lemma {:induction false} BurstsEnd(s: State, actions: seq<Action>)
    requires InBurst(s) && Bounded(s) && IsBurstRun(s, actions)
    ensures |actions| <= Steps(s.main)
    decreases |actions|
  {
    if actions != [] {
      BurstStep(s, actions[0]);
      BoundedStep(s, actions[0]);
      if actions[0].BurstDone? {
        assert actions[1..] == [];
      } else {
        BurstsEnd(Next(s, actions[0]), actions[1..]);
      }
    }
  }

  // Replies over whole runs

  predicate OnlySyncRun(actions: seq<Action>) {
    forall i :: 0 <= i < |actions| && actions[i].Receive? ==> OnlySync(actions[i].burst)
  }

  /** The replies of all messages dispatched in the run, in order. */
  function Dispatched(kind: Kind, actions: seq<Action>): seq<Frame>
    requires IsRun(kind, actions)
  {
    if actions == [] then [] else
      var front := actions[..|actions| - 1];
      var m := Exec(kind, front).main;
      Dispatched(kind, front)
      + if actions[|actions| - 1].Dispatch? && m.rest[0].Sync? && m.rest[0].replies
        then [Reply(m.rest[0].request, false)] else []
  }

  function OnlyReplies(frames: seq<Frame>): seq<Frame> {
    if frames == [] then [] else
      OnlyReplies(frames[..|frames| - 1])
      + if frames[|frames| - 1].Reply? then [frames[|frames| - 1]] else []
  }

  lemma OnlyRepliesSnoc(frames: seq<Frame>, f: Frame)
    ensures OnlyReplies(frames + [f]) == OnlyReplies(frames) + if f.Reply? then [f] else []
  {
    assert (frames + [f])[..|frames|] == frames;
  }

  predicate SyncState(s: State) {
    && s.readers == [] && s.repliers == []
    && !s.main.SendingStarted? && !s.main.Registering?
    && OnlySync(Rest(s.main))
    && (s.main.SendingReply? ==> s.main.reply.Reply?)
    && (forall i :: 0 <= i < |s.chan| ==> s.chan[i].Reply?)
    && (s.kind.Json? ==> s.chan == [] && !s.main.SendingReply?)
  }

  /** Replies written, in the channel, and in the hand of the main task. */
  function Produced(s: State): seq<Frame> {
    OnlyReplies(s.wire) + s.chan + if s.main.SendingReply? then [s.main.reply] else []
  }

  lemma ProducedDispatch(s: State)
    requires SyncState(s) && Enabled(s, Dispatch)
    ensures SyncState(Next(s, Dispatch))
    ensures Produced(Next(s, Dispatch)) == Produced(s)
      + if s.main.rest[0].replies then [Reply(s.main.rest[0].request, false)] else []
  {
    if s.kind.Json? && s.main.rest[0].replies {
      OnlyRepliesSnoc(s.wire, Reply(s.main.rest[0].request, false));
    }
  }

  lemma ProducedDrain(s: State)
    requires SyncState(s) && Enabled(s, Drain)
    ensures SyncState(Next(s, Drain)) && Produced(Next(s, Drain)) == Produced(s)
  {
    OnlyRepliesSnoc(s.wire, s.chan[0]);
    assert s.chan == [s.chan[0]] + s.chan[1..];
  }

  lemma ProducedOther(s: State, a: Action)
    requires SyncState(s) && Enabled(s, a) && (a.Receive? ==> OnlySync(a.burst)) && !a.Dispatch? && !a.Drain?
    ensures SyncState(Next(s, a)) && Produced(Next(s, a)) == Produced(s)
  {
    if a.WriteMessage? { OnlyRepliesSnoc(s.wire, Message(a.n)); }
  }

  lemma ProducedStep(s: State, a: Action)
    requires SyncState(s) && Enabled(s, a) && (a.Receive? ==> OnlySync(a.burst))
    ensures SyncState(Next(s, a))
    ensures Produced(Next(s, a)) == Produced(s)
      + if a.Dispatch? && s.main.rest[0].replies then [Reply(s.main.rest[0].request, false)] else []
  {
    if a.Dispatch? { ProducedDispatch(s); }
    else if a.Drain? { ProducedDrain(s); }
    else { ProducedOther(s, a); }
  }

  /** Replies leave in dispatch order and none is lost: those not yet written are in the channel. */
  lemma {:induction false} RepliesInDispatchOrder(kind: Kind, actions: seq<Action>)
    requires IsRun(kind, actions) && OnlySyncRun(actions)
    ensures SyncState(Exec(kind, actions))
    ensures Produced(Exec(kind, actions)) == Dispatched(kind, actions)
  {
    if actions != [] {
      var front := actions[..|actions| - 1];
      RepliesInDispatchOrder(kind, front);
      ProducedStep(Exec(kind, front), actions[|actions| - 1]);
    }
  }

  /** Some burst of the run held more replies than the channel had free slots when it came. */
  predicate Overflowed(actions: seq<Action>)
    requires IsRun(MsgPack, actions)
  {
    actions != [] &&
      var front, a := actions[..|actions| - 1], actions[|actions| - 1];
      || Overflowed(front)
      || (a.Receive? && OnlySync(a.burst) && |Exec(MsgPack, front).chan| + |Replies(a.burst)| > CAPACITY)
  }

  /** Slots taken, and those that the rest of the burst is going to need. */
  function Load(s: State): nat
    requires OnlySync(Rest(s.main))
  {
    |s.chan| + (if s.main.SendingReply? then 1 else 0) + |Replies(Rest(s.main))|
  }

  lemma LoadStep(s: State, a: Action)
    requires s.kind.MsgPack? && SyncState(s) && Enabled(s, a) && (a.Receive? ==> OnlySync(a.burst))
    ensures var s' := Next(s, a);
      && s'.kind.MsgPack? && SyncState(s')
      && Load(s') == (if a.Receive? then |s.chan| + |Replies(a.burst)|
                      else if a.Drain? then Load(s) - 1 else Load(s))
  {
    ProducedStep(s, a);
  }

  lemma {:induction false} LoadAlways(actions: seq<Action>)
    requires IsRun(MsgPack, actions) && OnlySyncRun(actions)
    ensures var s := Exec(MsgPack, actions);
      && s.kind.MsgPack? && SyncState(s) && Bounded(s)
      && (Overflowed(actions) <==> Load(s) > CAPACITY)
      && (Overflowed(actions) ==> s.main.Decoding? || s.main.SendingReply?)
  {
    if actions != [] {
      var front, a := actions[..|actions| - 1], actions[|actions| - 1];
      LoadAlways(front);
      LoadStep(Exec(MsgPack, front), a);
      BoundedStep(Exec(MsgPack, front), a);
    }
  }

  /**
   * With synchronous methods only, a loop that has come to a halt is wedged exactly if some
   * burst did not fit the free slots (otherwise it has returned). Without such a burst it is
   * never wedged, and after one it is never idle again.
   */
  lemma WedgesExactly(actions: seq<Action>)
    requires IsRun(MsgPack, actions) && OnlySyncRun(actions)
    ensures var s := Exec(MsgPack, actions);
      && (Stuck(s) ==> (Wedged(s) <==> Overflowed(actions)))
      && (!Overflowed(actions) ==> !Wedged(s))
      && (Overflowed(actions) ==> InBurst(s))
  {
    LoadAlways(actions);
    StuckExactly(Exec(MsgPack, actions));
  }

  lemma Extend(kind: Kind, before: seq<Action>, s: State, a: Action) returns (actions: seq<Action>, s': State)
    requires IsRun(kind, before) && Exec(kind, before) == s && Enabled(s, a)
    ensures actions == before + [a] && IsRun(kind, actions) && Exec(kind, actions) == s' == Next(s, a)
  {
    actions, s' := before + [a], Next(s, a);
    assert actions[..|before|] == before;
  }

  /** An idle loop writes out everything its channel holds. */
  lemma {:induction false} IdleLoopDrains(kind: Kind, before: seq<Action>, s: State)
    returns (actions: seq<Action>)
    requires IsRun(kind, before) && Exec(kind, before) == s && s.main.Selecting?
    ensures before <= actions && IsRun(kind, actions)
    ensures forall i :: |before| <= i < |actions| ==> actions[i].Drain?
    ensures Exec(kind, actions) == s.(wire := s.wire + s.chan, chan := [])
    decreases |s.chan|
  {
    if s.chan == [] {
      actions := before;
      assert s.wire + s.chan == s.wire;
    } else {
      DrainKeepsLog(s);
      var next, t := Extend(kind, before, s, Drain);
      actions := IdleLoopDrains(kind, next, t);
      assert Log(t) == Log(s);
    }
  }

  // ---------------------------------------------------------------------------------------
  // Replies of spawned tasks take up slots, too
  // ---------------------------------------------------------------------------------------

  /** Eight asynchronous calls and one synchronous one. */
  function NineCalls(): seq<Incoming> {
    seq(9, i requires 0 <= i < 9 => if i < 8 then Async(i, true) else Sync(i, true))
  }

  function FirstReplies(n: nat): seq<Frame> {
    seq(n, i requires 0 <= i < n => Reply(i, false))
  }

  lemma AsyncCallReplies(s: State, r: nat, rest: seq<Incoming>)
    requires s.main == Decoding([Async(r, true)] + rest) && s.repliers == [] && HasRoom(s)
    ensures Enabled(s, Dispatch) && Enabled(Next(s, Dispatch), ReplierSend(0))
    ensures Next(Next(s, Dispatch), ReplierSend(0))
      == s.(main := Decoding(rest), chan := s.chan + [Reply(r, false)])
  {
    assert s.main.rest[1..] == rest;
    assert Next(s, Dispatch).repliers == [Reply(r, false)];
    assert Next(Next(s, Dispatch), ReplierSend(0)).repliers == [];
  }

  /** The first n calls are dispatched, and their tasks have sent their replies. */
  lemma AsyncRound(n: nat, s: State)
    requires 0 < n <= 7
    requires s == Initial(MsgPack).(main := Decoding(NineCalls()[n - 1..]), chan := FirstReplies(n - 1))
    ensures Enabled(s, Dispatch) && Enabled(Next(s, Dispatch), ReplierSend(0))
    ensures Next(Next(s, Dispatch), ReplierSend(0))
      == Initial(MsgPack).(main := Decoding(NineCalls()[n..]), chan := FirstReplies(n))
  {
    assert NineCalls()[n - 1..] == [Async(n - 1, true)] + NineCalls()[n..];
    assert FirstReplies(n - 1) + [Reply(n - 1, false)] == FirstReplies(n);
    AsyncCallReplies(s, n - 1, NineCalls()[n..]);
  }

  lemma {:induction false} AsyncRepliesSent(n: nat) returns (actions: seq<Action>, s: State)
    requires n <= 7
    ensures IsRun(MsgPack, actions) && Exec(MsgPack, actions) == s
    ensures s == Initial(MsgPack).(main := Decoding(NineCalls()[n..]), chan := FirstReplies(n))
  {
    if n == 0 {
      actions, s := Extend(MsgPack, [], Initial(MsgPack), Receive(NineCalls()));
      assert NineCalls()[0..] == NineCalls();
    } else {
      actions, s := AsyncRepliesSent(n - 1);
      AsyncRound(n, s);
      actions, s := Extend(MsgPack, actions, s, Dispatch);
      actions, s := Extend(MsgPack, actions, s, ReplierSend(0));
    }
  }

  /**
   * With asynchronous methods a burst can wedge the loop although it holds a single
   * synchronous reply and the channel was empty: spawned tasks take the last slot first.
   */
  lemma SpawnedRepliesCanWedge() returns (actions: seq<Action>)
    ensures IsRun(MsgPack, actions) && Wedged(Exec(MsgPack, actions))
    ensures Exec(MsgPack, actions).main == SendingReply(Reply(8, false), [])
  {
    var s;
    actions, s := AsyncRepliesSent(7);
    assert s.main.rest == [Async(7, true), Sync(8, true)];
    actions, s := Extend(MsgPack, actions, s, Dispatch);
    assert s.main.rest == [Sync(8, true)] && s.repliers == [Reply(7, false)];
    actions, s := Extend(MsgPack, actions, s, Dispatch);
    actions, s := Extend(MsgPack, actions, s, ReplierSend(0));
  }

  // ---------------------------------------------------------------------------------------
  // Only sends of the main task itself can wedge the loop
  // ---------------------------------------------------------------------------------------

  /** Dispatching the message makes the main task send on its own channel. */
  predicate MakesMainSend(kind: Kind, m: Incoming) {
    match m
    case Sync(_, replies) => kind.MsgPack? && replies
    case Duplex(_, streams, _) => streams.Some?
    case _ => false
  }

  predicate Quiet(kind: Kind, burst: seq<Incoming>) {
    forall k :: 0 <= k < |burst| ==> !MakesMainSend(kind, burst[k])
  }

  predicate NoMainSends(kind: Kind, actions: seq<Action>) {
    forall i :: 0 <= i < |actions| && actions[i].Receive? ==> Quiet(kind, actions[i].burst)
  }

  predicate NeverSends(kind: Kind, s: State) {
    && s.kind == kind
    && (s.main.Selecting? || s.main.Stopped? || s.main.Decoding?)
    && Quiet(kind, Rest(s.main))
  }

  lemma NeverSendsStep(kind: Kind, s: State, a: Action)
    requires NeverSends(kind, s) && Enabled(s, a) && (a.Receive? ==> Quiet(kind, a.burst))
    ensures NeverSends(kind, Next(s, a))
  {
    if a.Dispatch? { assert !MakesMainSend(kind, s.main.rest[0]); }
  }

  /** Without such messages, neither loop ever wedges, whatever the spawned tasks do. */
  lemma {:induction false} WedgesOnlySending(kind: Kind, actions: seq<Action>)
    requires IsRun(kind, actions) && NoMainSends(kind, actions)
    ensures NeverSends(kind, Exec(kind, actions)) && !Wedged(Exec(kind, actions))
  {
    if actions != [] {
      var front, a := actions[..|actions| - 1], actions[|actions| - 1];
      WedgesOnlySending(kind, front);
      NeverSendsStep(kind, Exec(kind, front), a);
    }
  }

  /** An asynchronous call is read, and its task is running. */
  lemma AsyncJsonSpawned(before: seq<Action>, s: State, n: nat) returns (actions: seq<Action>, s': State)
    requires IsRun(Json, before) && Exec(Json, before) == s && s.kind == Json && s.main == Selecting && s.repliers == []
    ensures IsRun(Json, actions) && Exec(Json, actions) == s' == s.(repliers := [Reply(n, false)])
  {
    actions, s' := Extend(Json, before, s, Receive([Async(n, true)]));
    assert s' == s.(main := Decoding([Async(n, true)]));
    actions, s' := Extend(Json, actions, s', Dispatch);
    assert s'.main.rest == [] && s'.repliers == [Reply(n, false)];
    assert s' == s.(main := Decoding([]), repliers := [Reply(n, false)]);
    actions, s' := Extend(Json, actions, s', BurstDone);
  }

  lemma OneAsyncJson(before: seq<Action>, s: State, n: nat) returns (actions: seq<Action>, s': State)
    requires IsRun(Json, before) && Exec(Json, before) == s && n < CAPACITY
    requires s == Initial(Json).(chan := FirstReplies(n))
    ensures IsRun(Json, actions) && Exec(Json, actions) == s'
    ensures s' == Initial(Json).(chan := FirstReplies(n + 1))
  {
    assert FirstReplies(n) + [Reply(n, false)] == FirstReplies(n + 1);
    actions, s' := AsyncJsonSpawned(before, s, n);
    actions, s' := Extend(Json, actions, s', ReplierSend(0));
    assert s'.repliers == [] && s'.chan == FirstReplies(n + 1);
  }

  lemma {:induction false} AsyncJson(n: nat) returns (actions: seq<Action>, s: State)
    requires n <= CAPACITY
    ensures IsRun(Json, actions) && Exec(Json, actions) == s && s == Initial(Json).(chan := FirstReplies(n))
  {
    if n == 0 {
      actions, s := [], Initial(Json);
    } else {
      actions, s := AsyncJson(n - 1);
      actions, s := OneAsyncJson(actions, s, n - 1);
    }
  }

  /** A JSON loop that reads a duplex call while its channel is full of replies is wedged. */
  lemma JsonCanWedge(stream: u32) returns (actions: seq<Action>)
    ensures IsRun(Json, actions) && Wedged(Exec(Json, actions))
    ensures Exec(Json, actions).main == SendingStarted(8, [stream], true, [])
  {
    var s;
    actions, s := AsyncJson(CAPACITY);
    actions, s := Extend(Json, actions, s, Receive([Duplex(8, Some([stream]), true)]));
    actions, s := Extend(Json, actions, s, Dispatch);
    assert s.main.rest == [];
  }

  // ---------------------------------------------------------------------------------------
  // The body of the read branch, as a loop
  // ---------------------------------------------------------------------------------------

  class Channel {
    var slots: seq<Frame>

    constructor ()
      ensures slots == []
    {
      slots := [];
    }

    /** `send(v).await` by the task that would have to make room: it returns only if there is room. */
    method Send(f: Frame) returns (sent: bool)
      modifies this
      ensures sent <==> |old(slots)| < CAPACITY
      ensures slots == if sent then old(slots) + [f] else old(slots)
    {
      sent := |slots| < CAPACITY;
      if sent { slots := slots + [f]; }
    }
  }

  /** The reply of the next message is the first of those that are still to come. */
  lemma RepliesStep(slots: seq<Frame>, burst: seq<Incoming>, i: nat)
    requires i < |burst| && OnlySync(burst)
    ensures slots + Replies(burst[i..])
      == (if burst[i].replies then slots + [Reply(burst[i].request, false)] else slots) + Replies(burst[i + 1..])
    ensures burst[i].replies ==> Replies(burst[i..]) != []
  {
    assert burst[i..][0] == burst[i] && burst[i..][1..] == burst[i + 1..];
    var first := Reply(burst[i].request, false);
    assert slots + ([first] + Replies(burst[i + 1..])) == slots + [first] + Replies(burst[i + 1..]);
    assert [] + Replies(burst[i + 1..]) == Replies(burst[i + 1..]);
  }

  /** Dispatches one burst of synchronous calls; false means that it never gets past a send. */
  method HandleBurst(burst: seq<Incoming>, channel: Channel) returns (done: bool)
    requires OnlySync(burst) && |channel.slots| <= CAPACITY
    modifies channel
    ensures var all := old(channel.slots) + Replies(burst);
      && (done <==> |all| <= CAPACITY)
      && channel.slots == if done then all else all[..CAPACITY]
  {
    ghost var all := channel.slots + Replies(burst);
    var i := 0;
    assert burst[0..] == burst;
    while i < |burst|
      invariant 0 <= i <= |burst| && |channel.slots| <= CAPACITY
      invariant channel.slots + Replies(burst[i..]) == all
    {
      RepliesStep(channel.slots, burst, i);
      if burst[i].replies {
        var sent := channel.Send(Reply(burst[i].request, false));
        if !sent {
          assert all[..CAPACITY] == channel.slots;
          return false;
        }
      }
      i := i + 1;
    }
    assert Replies(burst[i..]) == [] && all == channel.slots;
    done := true;
  }
}
