/**
 * What becomes of the messages a transport loop reads and of the streams it registers: nothing is
 * lost, nothing is sent twice, and a loop that does not wedge gets everything written.
 */
module TransportDelivery {
  import opened Common
  import opened Transport
  import opened TransportProgress

  // ---------------------------------------------------------------------------------------
  // Every reply and every announcement, once
  // ---------------------------------------------------------------------------------------

  function One(b: bool): nat { if b then 1 else 0 }

  /** How often a message is bound to cause this frame. */
  function Due(m: Incoming, f: Frame): nat {
    match m
    case Sync(r, replies) => One(replies && f == Reply(r, false))
    case Async(r, replies) => One(replies && f == Reply(r, false))
    case Duplex(r, streams, replies) =>
      One(streams.Some? && f == Started(r, streams.value)) + One(replies && f == Reply(r, streams.Some?))
    case ForStream(_) => 0
  }

  function DueAll(ms: seq<Incoming>, f: Frame): nat {
    if ms == [] then 0 else Due(ms[0], f) + DueAll(ms[1..], f)
  }

  /** All messages of a run, in the order in which they were read. */
  function Received(actions: seq<Action>): seq<Incoming> {
    if actions == [] then [] else
      Received(actions[..|actions| - 1])
      + if actions[|actions| - 1].Receive? then actions[|actions| - 1].burst else []
  }

  /** What the main task still has to send, or to have sent, for the message it is at. */
  function InHand(m: Main, f: Frame): nat {
    match m
    case SendingReply(reply, _) => One(f == reply)
    case SendingStarted(r, streams, replies, _) =>
      One(f == Started(r, streams)) + One(replies && f == Reply(r, true))
    case Registering(r, _, replies, _) => One(replies && f == Reply(r, true))
    case _ => 0
  }

  /** How often a frame is among others. */
  function Times(frames: seq<Frame>, f: Frame): nat {
    if frames == [] then 0 else One(frames[0] == f) + Times(frames[1..], f)
  }

  predicate IsAnswer(f: Frame) { f.Reply? || f.Started? }

  /** Wherever it is: written, in the channel, with a task, in the main task's hand, or to come. */
  function Account(s: State, f: Frame): nat {
    Times(s.wire, f) + Times(s.chan, f) + Times(s.repliers, f) + InHand(s.main, f) + DueAll(Rest(s.main), f)
  }

  lemma {:induction false} TimesConcat(a: seq<Frame>, b: seq<Frame>, f: Frame)
    ensures Times(a + b, f) == Times(a, f) + Times(b, f)
  {
    if a == [] {
      assert a + b == b;
    } else {
      assert (a + b)[1..] == a[1..] + b;
      TimesConcat(a[1..], b, f);
    }
  }

  lemma TimesSnoc(frames: seq<Frame>, g: Frame, f: Frame)
    ensures Times(frames + [g], f) == Times(frames, f) + One(g == f)
  {
    TimesConcat(frames, [g], f);
    assert Times([g], f) == One(g == f) + Times([], f);
  }

  lemma TimesWithout(frames: seq<Frame>, k: nat, f: Frame)
    requires k < |frames|
    ensures Times(frames, f) == Times(frames[..k] + frames[k + 1..], f) + One(frames[k] == f)
  {
    assert frames == frames[..k] + [frames[k]] + frames[k + 1..];
    TimesConcat(frames[..k] + [frames[k]], frames[k + 1..], f);
    TimesSnoc(frames[..k], frames[k], f);
    TimesConcat(frames[..k], frames[k + 1..], f);
  }

  lemma {:induction false} DueConcat(a: seq<Incoming>, b: seq<Incoming>, f: Frame)
    ensures DueAll(a + b, f) == DueAll(a, f) + DueAll(b, f)
  {
    if a == [] {
      assert a + b == b;
    } else {
      assert (a + b)[1..] == a[1..] + b;
      DueConcat(a[1..], b, f);
    }
  }

  lemma AccountReplier(s: State, k: nat, f: Frame)
    requires Enabled(s, ReplierSend(k))
    ensures Account(Next(s, ReplierSend(k)), f) == Account(s, f)
  {
    TimesSnoc(s.chan, s.repliers[k], f);
    TimesWithout(s.repliers, k, f);
  }

  lemma AccountMain(s: State, a: Action, f: Frame)
    requires Enabled(s, a) && (a.PushReply? || a.PushStarted? || a.InsertNext? || a.RegisterDone?)
    ensures Account(Next(s, a), f) == Account(s, f)
  {
    match a
    case PushReply => TimesSnoc(s.chan, s.main.reply, f);
    case PushStarted => TimesSnoc(s.chan, Started(s.main.request, s.main.streams), f);
    case RegisterDone => TimesSnoc(s.repliers, Reply(s.main.request, true), f);
    case InsertNext =>
  }

  lemma RestStep(s: State, f: Frame)
    requires Enabled(s, Dispatch)
    ensures DueAll(s.main.rest, f) == Due(s.main.rest[0], f) + DueAll(s.main.rest[1..], f)
  {}

  lemma AccountSync(s: State, f: Frame)
    requires Enabled(s, Dispatch) && s.main.rest[0].Sync?
    ensures Account(Next(s, Dispatch), f) == Account(s, f)
  {
    TimesSnoc(s.wire, Reply(s.main.rest[0].request, false), f);
    RestStep(s, f);
  }

  lemma AccountSpawned(s: State, f: Frame)
    requires Enabled(s, Dispatch) && !s.main.rest[0].Sync?
    ensures Account(Next(s, Dispatch), f) == Account(s, f)
  {
    if !s.main.rest[0].ForStream? { TimesSnoc(s.repliers, Reply(s.main.rest[0].request, false), f); }
    RestStep(s, f);
  }

  lemma AccountDispatch(s: State, f: Frame)
    requires Enabled(s, Dispatch)
    ensures Account(Next(s, Dispatch), f) == Account(s, f)
  {
    if s.main.rest[0].Sync? { AccountSync(s, f); } else { AccountSpawned(s, f); }
  }

  lemma AccountDrain(s: State, f: Frame)
    requires Enabled(s, Drain)
    ensures Account(Next(s, Drain), f) == Account(s, f)
  {
    TimesSnoc(s.wire, s.chan[0], f);
  }

  lemma AccountReader(s: State, a: Action, f: Frame)
    requires IsAnswer(f) && Enabled(s, a) && (a.ReaderData? || a.ReaderEnd?)
    ensures Account(Next(s, a), f) == Account(s, f)
  {
    var g := if a.ReaderData? then StreamData(s.readers[a.k], a.segment) else StreamEnded(s.readers[a.k]);
    TimesSnoc(s.chan, g, f);
  }

  lemma AccountStep(s: State, a: Action, f: Frame)
    requires IsAnswer(f) && Enabled(s, a)
    ensures Account(Next(s, a), f) == Account(s, f) + if a.Receive? then DueAll(a.burst, f) else 0
  {
    match a
    case Dispatch => AccountDispatch(s, f);
    case Drain => AccountDrain(s, f);
    case WriteMessage(n) => TimesSnoc(s.wire, Message(n), f);
    case ReplierSend(k) => AccountReplier(s, k, f);
    case Receive(_) =>
    case BurstDone =>
    case Stop =>
    case ReaderData(_, _) => AccountReader(s, a, f);
    case ReaderEnd(_) => AccountReader(s, a, f);
    case _ => AccountMain(s, a, f);
  }

  /**
   * In every run, each reply and each announcement that the messages read so far call for is in
   * exactly one place: written, in the channel, with its task, with the main task, or due from a
   * message of the burst that is not dispatched yet. No others exist.
   */
  lemma {:induction false} NoAnswerIsLost(kind: Kind, actions: seq<Action>, f: Frame)
    requires IsRun(kind, actions) && IsAnswer(f)
    ensures Account(Exec(kind, actions), f) == DueAll(Received(actions), f)
  {
    if actions != [] {
      var front, a := actions[..|actions| - 1], actions[|actions| - 1];
      NoAnswerIsLost(kind, front, f);
      AccountStep(Exec(kind, front), a, f);
      DueConcat(Received(front), if a.Receive? then a.burst else [], f);
    }
  }

  /** The messages dispatched in a run. */
  function Handled(kind: Kind, actions: seq<Action>): seq<Incoming>
    requires IsRun(kind, actions)
  {
    if actions == [] then [] else
      var front := actions[..|actions| - 1];
      Handled(kind, front)
      + if actions[|actions| - 1].Dispatch? then [Exec(kind, front).main.rest[0]] else []
  }

  /** What a step dispatches, followed by what it leaves of the burst. */
  lemma RestAfter(s: State, a: Action)
    requires Enabled(s, a)
    ensures (if a.Dispatch? then [s.main.rest[0]] else []) + Rest(Next(s, a).main)
      == if a.Receive? then a.burst else Rest(s.main)
    ensures a.Receive? ==> Rest(s.main) == []
  {
    if a.Dispatch? { assert s.main.rest == [s.main.rest[0]] + s.main.rest[1..]; }
  }

  lemma MoveOver<T>(done: seq<T>, now: seq<T>, rest: seq<T>)
    ensures (done + now) + rest == done + (now + rest)
  {}

  /** Messages are dispatched in the order in which they were read, and each of them. */
  lemma {:induction false} HandledInOrder(kind: Kind, actions: seq<Action>)
    requires IsRun(kind, actions)
    ensures Handled(kind, actions) + Rest(Exec(kind, actions).main) == Received(actions)
  {
    if actions != [] {
      var front, a := actions[..|actions| - 1], actions[|actions| - 1];
      var s := Exec(kind, front);
      HandledInOrder(kind, front);
      RestAfter(s, a);
      MoveOver(Handled(kind, front), if a.Dispatch? then [s.main.rest[0]] else [], Rest(Next(s, a).main));
    }
  }

  // ---------------------------------------------------------------------------------------
  // Every registered stream is forwarded
  // ---------------------------------------------------------------------------------------

  /** A stream in the table has a reader, or its end was sent. */
  predicate Served(s: State) {
    forall id :: id in s.inserted ==> id in s.readers || HasEnd(Log(s), id)
  }

  lemma ServedStep(s: State, a: Action)
    requires Served(s) && Enabled(s, a)
    ensures Served(Next(s, a))
  {
    var s' := Next(s, a);
    forall id | id in s'.inserted ensures id in s'.readers || HasEnd(Log(s'), id) {
      if id in s.inserted && HasEnd(Log(s), id) {
        assert StreamEnded(id) in Log(s');
      } else if a.ReaderEnd? && s.readers[a.k] == id {
        assert Log(s') == Log(s) + [StreamEnded(id)];
      }
    }
  }

  lemma {:induction false} ServedAlways(kind: Kind, actions: seq<Action>)
    requires IsRun(kind, actions)
    ensures Served(Exec(kind, actions))
  {
    if actions != [] {
      ServedAlways(kind, actions[..|actions| - 1]);
      ServedStep(Exec(kind, actions[..|actions| - 1]), actions[|actions| - 1]);
    }
  }

  /**
   * Each stream that a run announces is about to be registered right now, or has its reader, or
   * its end was sent.
   */
  lemma AnnouncedIsServed(kind: Kind, actions: seq<Action>, f: Frame, id: u32)
    requires IsRun(kind, actions) && f in Log(Exec(kind, actions)) && f.Started? && id in f.streams
    ensures var s := Exec(kind, actions);
      (s.main.Registering? && id in s.main.streams) || id in s.readers || HasEnd(Log(s), id)
  {
    InvAlways(kind, actions);
    ServedAlways(kind, actions);
    ServedIn(Exec(kind, actions), f, id);
  }

  lemma ServedIn(s: State, f: Frame, id: u32)
    requires InsertedOrNext(s) && Served(s) && f in Log(s) && f.Started? && id in f.streams
    ensures (s.main.Registering? && id in s.main.streams) || id in s.readers || HasEnd(Log(s), id)
  {}

  /** What a stream's reader has read in a run. */
  function Read(kind: Kind, actions: seq<Action>, id: u32): seq<byte>
    requires IsRun(kind, actions)
  {
    if actions == [] then [] else
      var front, a := actions[..|actions| - 1], actions[|actions| - 1];
      Read(kind, front, id)
      + if a.ReaderData? && Exec(kind, front).readers[a.k] == id then a.segment else []
  }

  function Payload(f: Frame, id: u32): seq<byte> {
    if f.StreamData? && f.stream == id then f.segment else []
  }

  /** What the data frames of a stream hold. */
  function Forwarded(frames: seq<Frame>, id: u32): seq<byte> {
    if frames == [] then [] else Payload(frames[0], id) + Forwarded(frames[1..], id)
  }

  lemma {:induction false} ForwardedConcat(a: seq<Frame>, b: seq<Frame>, id: u32)
    ensures Forwarded(a + b, id) == Forwarded(a, id) + Forwarded(b, id)
  {
    if a == [] {
      assert a + b == b;
    } else {
      assert (a + b)[1..] == a[1..] + b;
      ForwardedConcat(a[1..], b, id);
    }
  }

  lemma ForwardedSnoc(frames: seq<Frame>, f: Frame, id: u32)
    ensures Forwarded(frames + [f], id) == Forwarded(frames, id) + Payload(f, id)
  {
    ForwardedConcat(frames, [f], id);
    assert Forwarded([f], id) == Payload(f, id) + Forwarded([], id);
  }

  lemma ForwardedInsert(a: seq<Frame>, f: Frame, b: seq<Frame>, id: u32)
    requires !f.StreamData?
    ensures Forwarded(a + [f] + b, id) == Forwarded(a + b, id)
  {
    ForwardedConcat(a + [f], b, id);
    ForwardedSnoc(a, f, id);
    ForwardedConcat(a, b, id);
  }

  lemma ForwardedSend(s: State, a: Action, f: Frame, id: u32)
    requires Enabled(s, a) && Next(s, a).wire == s.wire && Next(s, a).chan == s.chan + [f]
    ensures Forwarded(Log(Next(s, a)), id)
      == Forwarded(Log(s), id) + Payload(f, id)
  {
    assert Log(Next(s, a)) == Log(s) + [f];
    ForwardedSnoc(Log(s), f, id);
  }

  lemma ForwardedStep(s: State, a: Action, id: u32)
    requires TasksMayFollow(s) && Enabled(s, a)
    ensures Forwarded(Log(Next(s, a)), id)
      == Forwarded(Log(s), id) + if a.ReaderData? && s.readers[a.k] == id then a.segment else []
  {
    match a
    case PushReply => ForwardedSend(s, a, s.main.reply, id);
    case PushStarted => ForwardedSend(s, a, Started(s.main.request, s.main.streams), id);
    case ReaderData(k, segment) => ForwardedSend(s, a, StreamData(s.readers[k], segment), id);
    case ReaderEnd(k) => ForwardedSend(s, a, StreamEnded(s.readers[k]), id);
    case ReplierSend(k) => ForwardedSend(s, a, s.repliers[k], id);
    case WriteMessage(n) => ForwardedInsert(s.wire, Message(n), s.chan, id);
    case Drain => DrainKeepsLog(s);
    case Dispatch =>
      var m := s.main.rest[0];
      if m.Sync? && m.replies && s.kind.Json? { ForwardedInsert(s.wire, Reply(m.request, false), s.chan, id); }
    case _ =>
  }

  /** The data frames of a stream hold what its reader has read, in order. */
  lemma {:induction false} ForwardedIsRead(kind: Kind, actions: seq<Action>, id: u32)
    requires IsRun(kind, actions)
    ensures Forwarded(Log(Exec(kind, actions)), id) == Read(kind, actions, id)
  {
    if actions != [] {
      var front, a := actions[..|actions| - 1], actions[|actions| - 1];
      ForwardedIsRead(kind, front, id);
      InvAlways(kind, front);
      ForwardedStep(Exec(kind, front), a, id);
    }
  }

  lemma {:induction false} NothingOfIt(frames: seq<Frame>, id: u32)
    requires forall i :: 0 <= i < |frames| ==> !Concerns(frames[i], id)
    ensures Forwarded(frames, id) == []
  {
    if frames != [] { NothingOfIt(frames[1..], id); }
  }

  /**
   * On the wire there is always a beginning of what a stream's reader has read, and with the
   * stream's end it is all there.
   */
  lemma WireForwards(kind: Kind, actions: seq<Action>, id: u32)
    requires IsRun(kind, actions) && FreshRun(kind, actions)
    ensures var s := Exec(kind, actions);
      && Forwarded(s.wire, id) <= Read(kind, actions, id)
      && (HasEnd(s.wire, id) ==> Forwarded(s.wire, id) == Read(kind, actions, id))
  {
    var s := Exec(kind, actions);
    ForwardedIsRead(kind, actions, id);
    ForwardedConcat(s.wire, s.chan, id);
    if HasEnd(s.wire, id) {
      EndInvAlways(kind, actions);
      var p :| 0 <= p < |s.wire| && s.wire[p] == StreamEnded(id);
      assert Log(s)[p] == StreamEnded(id);
      forall i | 0 <= i < |s.chan| ensures !Concerns(s.chan[i], id) { assert Log(s)[|s.wire| + i] == s.chan[i]; }
      NothingOfIt(s.chan, id);
    }
  }

  // ---------------------------------------------------------------------------------------
  // A loop that does not wedge gets everything written
  // ---------------------------------------------------------------------------------------

  /** The one step the main task can be at, outside of its `select!`. */
  function MainStep(m: Main): Action {
    match m
    case Decoding(rest) => if rest == [] then BurstDone else Dispatch
    case SendingReply(_, _) => PushReply
    case SendingStarted(_, _, _, _) => PushStarted
    case Registering(_, streams, _, _) => if streams == [] then RegisterDone else InsertNext
    case _ => Stop
  }

  /** Only a full channel keeps the main task waiting. */
  lemma MainCanMove(s: State)
    requires Bounded(s) && !s.main.Stopped?
    ensures Enabled(s, MainStep(s.main)) <==> !Wedged(s)
  {}

  /** How many steps the main task takes for a message. */
  function Weight(m: Incoming): nat {
    match m
    case Sync(_, _) => 2
    case Duplex(_, streams, _) => if streams.Some? then 3 + |streams.value| else 1
    case _ => 1
  }

  function WeightAll(ms: seq<Incoming>): nat {
    if ms == [] then 0 else Weight(ms[0]) + WeightAll(ms[1..])
  }

  function MainWork(m: Main): nat {
    match m
    case Decoding(rest) => 1 + WeightAll(rest)
    case SendingReply(_, rest) => 2 + WeightAll(rest)
    case SendingStarted(_, streams, _, rest) => 3 + |streams| + WeightAll(rest)
    case Registering(_, streams, _, rest) => 2 + |streams| + WeightAll(rest)
    case _ => 0
  }

  lemma MainWorkDecreases(s: State)
    requires !s.main.Selecting? && !s.main.Stopped? && Enabled(s, MainStep(s.main))
    ensures var t := Next(s, MainStep(s.main)); MainWork(t.main) < MainWork(s.main) && !t.main.Stopped?
  {}

  /** A step that reads nothing. */
  lemma GoOn(kind: Kind, before: seq<Action>, s: State, a: Action) returns (actions: seq<Action>, t: State)
    requires IsRun(kind, before) && Exec(kind, before) == s && Enabled(s, a) && !a.Receive?
    ensures actions == before + [a] && IsRun(kind, actions) && Exec(kind, actions) == t == Next(s, a)
    ensures Received(actions) == Received(before)
    ensures Bounded(s) ==> Bounded(t)
  {
    actions, t := Extend(kind, before, s, a);
    assert actions[..|before|] == before;
    if Bounded(s) { BoundedStep(s, a); }
  }

  /** By itself, the main task gets to the end of its burst, or wedges. */
  lemma {:induction false} BurstEndsOrWedges(kind: Kind, before: seq<Action>, s: State)
    returns (actions: seq<Action>, t: State)
    requires IsRun(kind, before) && Exec(kind, before) == s && Bounded(s) && !s.main.Stopped?
    ensures before <= actions && IsRun(kind, actions) && Exec(kind, actions) == t
    ensures Received(actions) == Received(before) && (t.main.Selecting? || Wedged(t))
    decreases MainWork(s.main)
  {
    if s.main.Selecting? || Wedged(s) {
      actions, t := before, s;
    } else {
      MainCanMove(s);
      MainWorkDecreases(s);
      actions, t := GoOn(kind, before, s, MainStep(s.main));
      actions, t := BurstEndsOrWedges(kind, actions, t);
    }
  }

  predicate AllWritten(s: State) {
    s.main.Selecting? && s.chan == [] && s.repliers == [] && s.readers == []
  }

  /** The next step of an idle loop, or of a task that waits for room in its empty channel. */
  function ServingStep(s: State): Action {
    if s.chan != [] then Drain else if s.repliers != [] then ReplierSend(0) else ReaderEnd(0)
  }

  lemma ServingCanMove(s: State)
    requires s.main.Selecting? && !AllWritten(s)
    ensures Enabled(s, ServingStep(s))
    ensures var t := Next(s, ServingStep(s));
      && t.main.Selecting?
      && |t.chan| + 2 * (|t.repliers| + |t.readers|) < |s.chan| + 2 * (|s.repliers| + |s.readers|)
  {}

  /** An idle loop can write all replies and the ends of all streams. */
  lemma {:induction false} IdleLoopServes(kind: Kind, before: seq<Action>, s: State)
    returns (actions: seq<Action>, t: State)
    requires IsRun(kind, before) && Exec(kind, before) == s && s.main.Selecting?
    ensures before <= actions && IsRun(kind, actions) && Exec(kind, actions) == t
    ensures Received(actions) == Received(before) && AllWritten(t)
    decreases |s.chan| + 2 * (|s.repliers| + |s.readers|)
  {
    if AllWritten(s) {
      actions, t := before, s;
    } else {
      ServingCanMove(s);
      actions, t := GoOn(kind, before, s, ServingStep(s));
      actions, t := IdleLoopServes(kind, actions, t);
    }
  }

  /** Everything that was asked for is on the wire: each answer so often, each stream to its end. */
  ghost predicate Complete(kind: Kind, actions: seq<Action>)
    requires IsRun(kind, actions)
  {
    var s := Exec(kind, actions);
    && (forall f :: IsAnswer(f) ==> Times(s.wire, f) == DueAll(Received(actions), f))
    && (forall id :: id in s.inserted ==> HasEnd(s.wire, id))
    && (forall id :: Forwarded(s.wire, id) == Read(kind, actions, id))
  }

  lemma AllWrittenIsComplete(kind: Kind, actions: seq<Action>)
    requires IsRun(kind, actions) && AllWritten(Exec(kind, actions))
    ensures Complete(kind, actions)
  {
    var s := Exec(kind, actions);
    ServedAlways(kind, actions);
    assert Log(s) == s.wire;
    forall f | IsAnswer(f) ensures Times(s.wire, f) == DueAll(Received(actions), f) {
      NoAnswerIsLost(kind, actions, f);
    }
    forall id ensures Forwarded(s.wire, id) == Read(kind, actions, id) { ForwardedIsRead(kind, actions, id); }
  }

  lemma {:induction false} BoundedAlways(kind: Kind, actions: seq<Action>)
    requires IsRun(kind, actions)
    ensures Bounded(Exec(kind, actions))
  {
    if actions != [] {
      BoundedAlways(kind, actions[..|actions| - 1]);
      BoundedStep(Exec(kind, actions[..|actions| - 1]), actions[|actions| - 1]);
    }
  }

  /**
   * Every run of a loop that has not returned can go on, without reading anything more, until the
   * main task has wedged itself or all that was asked for so far is on the wire.
   */
  lemma ServesOrWedges(kind: Kind, before: seq<Action>) returns (actions: seq<Action>)
    requires IsRun(kind, before) && !Exec(kind, before).main.Stopped?
    ensures before <= actions && IsRun(kind, actions) && Received(actions) == Received(before)
    ensures Wedged(Exec(kind, actions)) || Complete(kind, actions)
  {
    BoundedAlways(kind, before);
    var t;
    actions, t := BurstEndsOrWedges(kind, before, Exec(kind, before));
    if t.main.Selecting? {
      actions, t := IdleLoopServes(kind, actions, t);
      AllWrittenIsComplete(kind, actions);
    }
  }

  // ---------------------------------------------------------------------------------------
  // A stream is forwarded whatever the other tasks do
  // ---------------------------------------------------------------------------------------

  function DataFrames(id: u32, segments: seq<seq<byte>>): seq<Frame> {
    if segments == [] then [] else [StreamData(id, segments[0])] + DataFrames(id, segments[1..])
  }

  predicate FitBuffer(segments: seq<seq<byte>>) {
    forall i :: 0 <= i < |segments| ==> 0 < |segments[i]| <= 4096
  }

  /** These are steps of reader k, and of the loop that writes out what it sends. */
  predicate ReaderOnly(before: seq<Action>, actions: seq<Action>, k: nat) {
    && before <= actions
    && forall i :: |before| <= i < |actions| ==>
         var a := actions[i]; a.Drain? || (a.ReaderData? && a.k == k) || a == ReaderEnd(k)
  }

  lemma SentAndDrained(kind: Kind, before: seq<Action>, s: State, a: Action, f: Frame)
    returns (actions: seq<Action>, t: State)
    requires IsRun(kind, before) && Exec(kind, before) == s && s.main.Selecting? && s.chan == []
    requires (a.ReaderData? || a.ReaderEnd?) && Enabled(s, a) && Next(s, a).chan == [f]
    ensures IsRun(kind, actions) && Exec(kind, actions) == t && ReaderOnly(before, actions, a.k)
    ensures t == Next(s, a).(wire := s.wire + [f], chan := [])
    ensures a.ReaderData? ==> t == s.(wire := s.wire + [f])
  {
    var one, u := GoOn(kind, before, s, a);
    actions, t := GoOn(kind, one, u, Drain);
  }

  lemma Regroup(a: seq<Frame>, f: Frame, b: seq<Frame>, g: Frame)
    ensures a + [f] + b + [g] == a + ([f] + b) + [g]
  {}

  /** An idle loop whose channel is empty puts whatever one reader reads, then its end, on the wire. */
  lemma {:induction false} ReaderSends(kind: Kind, before: seq<Action>, s: State, k: nat, segments: seq<seq<byte>>)
    returns (actions: seq<Action>, t: State)
    requires IsRun(kind, before) && Exec(kind, before) == s && s.main.Selecting? && s.chan == []
    requires k < |s.readers| && FitBuffer(segments)
    ensures IsRun(kind, actions) && Exec(kind, actions) == t && ReaderOnly(before, actions, k)
    ensures t.wire == s.wire + DataFrames(s.readers[k], segments) + [StreamEnded(s.readers[k])] && t.chan == []
    ensures t.readers == s.readers[..k] + s.readers[k + 1..] && t.repliers == s.repliers && t.main == s.main
    decreases |segments|
  {
    var id := s.readers[k];
    if segments == [] {
      actions, t := SentAndDrained(kind, before, s, ReaderEnd(k), StreamEnded(id));
      assert s.wire + [] == s.wire;
    } else {
      var one, u := SentAndDrained(kind, before, s, ReaderData(k, segments[0]), StreamData(id, segments[0]));
      actions, t := ReaderSends(kind, one, u, k, segments[1..]);
      assert u == s.(wire := s.wire + [StreamData(id, segments[0])]);
      Regroup(s.wire, StreamData(id, segments[0]), DataFrames(id, segments[1..]), StreamEnded(id));
    }
  }

  /**
   * Whatever has happened and whatever else is still to be sent: an idle loop can forward
   * anything that a stream's reader reads, and then the end of the stream, right after what is in
   * the channel.
   */
  lemma AnyStreamCanBeForwarded(kind: Kind, before: seq<Action>, k: nat, segments: seq<seq<byte>>)
    returns (actions: seq<Action>)
    requires IsRun(kind, before) && Exec(kind, before).main.Selecting?
    requires k < |Exec(kind, before).readers| && FitBuffer(segments)
    ensures IsRun(kind, actions) && ReaderOnly(before, actions, k)
    ensures var s, t := Exec(kind, before), Exec(kind, actions);
      && t.wire == Log(s) + DataFrames(s.readers[k], segments) + [StreamEnded(s.readers[k])]
      && t.chan == [] && t.repliers == s.repliers && t.readers == s.readers[..k] + s.readers[k + 1..]
  {
    var s := Exec(kind, before);
    var drained := IdleLoopDrains(kind, before, s);
    var t;
    actions, t := ReaderSends(kind, drained, s.(wire := s.wire + s.chan, chan := []), k, segments);
  }
}
