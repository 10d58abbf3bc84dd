/**
 * The transport loops: one main task that reads requests, dispatches them and is also the only
 * one to drain the 8-slot channel that replies and stream frames are sent through.
 */
module Transport {
  import opened Common

  const CAPACITY: nat := 8

  /** The size of a reader's buffer. */
  const READ_SIZE: nat := 4096

  datatype Kind = MsgPack | Json

  /** What can be written: request numbers identify requests, in order of arrival. */
  datatype Frame =
    | Started(request: nat, streams: seq<u32>)   // streams_started
    | StreamData(stream: u32, segment: seq<byte>)
    | StreamEnded(stream: u32)
    | Reply(request: nat, streamed: bool)        // streamed: the reply to a duplex call
    | Message(n: int)                            // from the message receiver, not the channel

  /** A decoded incoming message; `replies` says whether the method's result is sent back. */
  datatype Incoming =
    | Sync(request: nat, replies: bool)
    | Async(request: nat, replies: bool)
    | Duplex(request: nat, streams: Option<seq<u32>>, replies: bool)
    | ForStream(stream: u32)                     // stream_data or stream_ended

  /** Where the main task is; the messages of the current burst still to be dispatched follow. */
  datatype Main =
    | Selecting
    | Stopped                                    // the loop has returned
    | Decoding(rest: seq<Incoming>)
    | SendingReply(reply: Frame, rest: seq<Incoming>)
    | SendingStarted(request: nat, streams: seq<u32>, replies: bool, rest: seq<Incoming>)
    | Registering(request: nat, streams: seq<u32>, replies: bool, rest: seq<Incoming>)

  /**
   * `wire` is everything written so far. `readers` are the running tasks that forward a
   * stream's output, `repliers` the spawned futures whose reply is still to be sent.
   */
  datatype State = State(
    kind: Kind,
    main: Main,
    chan: seq<Frame>,
    wire: seq<Frame>,
    readers: seq<u32>,
    repliers: seq<Frame>,
    inserted: set<u32>)

  datatype Action =
    | Receive(burst: seq<Incoming>)
    | Dispatch
    | BurstDone
    | PushReply
    | PushStarted
    | InsertNext
    | RegisterDone
    | Drain
    | WriteMessage(n: int)
    | Stop                                       // shutdown, or the end of the input
    | ReaderData(k: nat, segment: seq<byte>)     // reader k has read this and sends it
    | ReaderEnd(k: nat)
    | ReplierSend(k: nat)

  function Initial(kind: Kind): State {
    State(kind, Selecting, [], [], [], [], {})
  }

  /** A send on the channel can complete. */
  predicate HasRoom(s: State) { |s.chan| < CAPACITY && !s.main.Stopped? }

  predicate StartedIn(log: seq<Frame>, stream: u32) {
    exists f :: f in log && f.Started? && stream in f.streams
  }

  /** The peer only sends on streams it was told about; JSON messages arrive one by one. */
  predicate CanReceive(s: State, burst: seq<Incoming>) {
    && s.main.Selecting?
    && (s.kind.Json? ==> |burst| <= 1)
    && forall i :: 0 <= i < |burst| && burst[i].ForStream? ==> StartedIn(s.wire, burst[i].stream)
  }

  predicate Enabled(s: State, a: Action) {
    match a
    case Receive(burst) => CanReceive(s, burst)
    case Dispatch => s.main.Decoding? && s.main.rest != []
    case BurstDone => s.main.Decoding? && s.main.rest == []
    case PushReply => s.main.SendingReply? && HasRoom(s)
    case PushStarted => s.main.SendingStarted? && HasRoom(s)
    case InsertNext => s.main.Registering? && s.main.streams != []
    case RegisterDone => s.main.Registering? && s.main.streams == []
    case Drain => s.main.Selecting? && s.chan != []
    case WriteMessage(_) => s.main.Selecting?
    case Stop => s.main.Selecting?
    case ReaderData(k, segment) => k < |s.readers| && 0 < |segment| <= READ_SIZE && HasRoom(s)
    case ReaderEnd(k) => k < |s.readers| && HasRoom(s)
    case ReplierSend(k) => k < |s.repliers| && HasRoom(s)
  }

  function Spawn(s: State, reply: Frame, replies: bool): seq<Frame> {
    if replies then s.repliers + [reply] else s.repliers
  }

  function DispatchFirst(s: State): State
    requires Enabled(s, Dispatch)
  {
    var rest := s.main.rest[1..];
    match s.main.rest[0]
    case Sync(r, replies) =>
      if !replies then s.(main := Decoding(rest))
      else if s.kind.Json? then s.(main := Decoding(rest), wire := s.wire + [Reply(r, false)])
      else s.(main := SendingReply(Reply(r, false), rest))
    case Async(r, replies) => s.(main := Decoding(rest), repliers := Spawn(s, Reply(r, false), replies))
    case Duplex(r, streams, replies) =>
      if streams.None? then s.(main := Decoding(rest), repliers := Spawn(s, Reply(r, false), replies))
      else s.(main := SendingStarted(r, streams.value, replies, rest))
    case ForStream(_) => s.(main := Decoding(rest))
  }

  function Next(s: State, a: Action): State
    requires Enabled(s, a)
  {
    match a
    case Receive(burst) => s.(main := Decoding(burst))
    case Dispatch => DispatchFirst(s)
    case BurstDone => s.(main := Selecting)
    case PushReply => s.(chan := s.chan + [s.main.reply], main := Decoding(s.main.rest))
    case PushStarted =>
      s.(chan := s.chan + [Started(s.main.request, s.main.streams)],
         main := Registering(s.main.request, s.main.streams, s.main.replies, s.main.rest))
    case InsertNext =>
      s.(inserted := s.inserted + {s.main.streams[0]}, readers := s.readers + [s.main.streams[0]],
         main := s.main.(streams := s.main.streams[1..]))
    case RegisterDone =>
      s.(main := Decoding(s.main.rest), repliers := Spawn(s, Reply(s.main.request, true), s.main.replies))
    case Drain => s.(wire := s.wire + [s.chan[0]], chan := s.chan[1..])
    case WriteMessage(n) => s.(wire := s.wire + [Message(n)])
    case Stop => s.(main := Stopped)
    case ReaderData(k, segment) => s.(chan := s.chan + [StreamData(s.readers[k], segment)])
    case ReaderEnd(k) =>
      s.(chan := s.chan + [StreamEnded(s.readers[k])], readers := s.readers[..k] + s.readers[k + 1..])
    case ReplierSend(k) =>
      s.(chan := s.chan + [s.repliers[k]], repliers := s.repliers[..k] + s.repliers[k + 1..])
  }

  predicate IsRun(kind: Kind, actions: seq<Action>)
    decreases |actions|, 0
  {
    actions != [] ==>
      IsRun(kind, actions[..|actions| - 1])
      && Enabled(Exec(kind, actions[..|actions| - 1]), actions[|actions| - 1])
  }

  function Exec(kind: Kind, actions: seq<Action>): State
    requires IsRun(kind, actions)
    decreases |actions|, 1
  {
    if actions == [] then Initial(kind)
    else Next(Exec(kind, actions[..|actions| - 1]), actions[|actions| - 1])
  }

  // ---------------------------------------------------------------------------------------
  // Order on the wire
  // ---------------------------------------------------------------------------------------

  /** Frames in the order in which they reach the wire: those on it, then those in the channel. */
  function Log(s: State): seq<Frame> { s.wire + s.chan }

  predicate AnnouncedFor(log: seq<Frame>, request: nat) {
    exists f :: f in log && f.Started? && f.request == request
  }

  /** A frame that may only come after its announcement in `log`. */
  predicate MayFollow(log: seq<Frame>, f: Frame) {
    match f
    case StreamData(id, _) => StartedIn(log, id)
    case StreamEnded(id) => StartedIn(log, id)
    case Reply(r, streamed) => streamed ==> AnnouncedFor(log, r)
    case _ => true
  }

  predicate Announced(log: seq<Frame>) {
    forall p :: 0 <= p < |log| ==> MayFollow(log[..p], log[p])
  }

  /** Each stream that was announced is in the table, or is about to be put there right now. */
  predicate InsertedOrNext(s: State) {
    forall f, id :: f in Log(s) && f.Started? && id in f.streams ==>
      id in s.inserted || (s.main.Registering? && id in s.main.streams)
  }

  predicate WireInserted(s: State) {
    forall f, id :: f in s.wire && f.Started? && id in f.streams ==> id in s.inserted
  }

  predicate PendingStreamsKnown(rest: seq<Incoming>, inserted: set<u32>) {
    forall i :: 0 <= i < |rest| && rest[i].ForStream? ==> rest[i].stream in inserted
  }

  function Rest(m: Main): seq<Incoming> {
    if m.Selecting? || m.Stopped? then [] else m.rest
  }

  predicate TasksMayFollow(s: State) {
    && (forall k :: 0 <= k < |s.readers| ==> StartedIn(Log(s), s.readers[k]))
    && (forall k :: 0 <= k < |s.repliers| ==> s.repliers[k].Reply? && MayFollow(Log(s), s.repliers[k]))
    && (s.main.SendingReply? ==> s.main.reply.Reply? && !s.main.reply.streamed)
    && (s.main.Registering? ==>
          && AnnouncedFor(Log(s), s.main.request)
          && forall id :: id in s.main.streams ==> StartedIn(Log(s), id))
  }

  predicate Inv(s: State) {
    && Announced(Log(s))
    && TasksMayFollow(s)
    && InsertedOrNext(s)
    && WireInserted(s)
    && PendingStreamsKnown(Rest(s.main), s.inserted)
  }

  predicate Grows(log: seq<Frame>, more: seq<Frame>) {
    forall f :: f in log ==> f in more
  }

  lemma MayFollowMore(log: seq<Frame>, more: seq<Frame>, f: Frame)
    requires MayFollow(log, f) && Grows(log, more)
    ensures MayFollow(more, f)
  {}

  lemma AnnouncedSnoc(log: seq<Frame>, f: Frame)
    requires Announced(log) && MayFollow(log, f)
    ensures Announced(log + [f])
  {
    forall p | 0 <= p < |log + [f]| ensures MayFollow((log + [f])[..p], (log + [f])[p]) {
      if p < |log| {
        assert (log + [f])[..p] == log[..p];
      } else {
        assert (log + [f])[..p] == log;
      }
    }
  }

  /** A frame written past the channel overtakes what is in the channel. */
  lemma AnnouncedInsert(a: seq<Frame>, f: Frame, b: seq<Frame>)
    requires Announced(a + b) && MayFollow([], f)
    ensures Announced(a + [f] + b)
  {
    var log := a + [f] + b;
    forall p | 0 <= p < |log| ensures MayFollow(log[..p], log[p]) {
      if p < |a| {
        assert log[..p] == (a + b)[..p];
        assert MayFollow((a + b)[..p], (a + b)[p]);
      } else if p > |a| {
        assert log[..p] == a + [f] + b[..p - |a| - 1];
        assert (a + b)[..p - 1] == a + b[..p - |a| - 1];
        MayFollowMore((a + b)[..p - 1], log[..p], (a + b)[p - 1]);
      }
    }
  }

  /** While the log only grows, tasks can rely on what was announced. */
  lemma TasksStillMayFollow(s: State, s': State)
    requires TasksMayFollow(s) && Grows(Log(s), Log(s'))
    requires forall k :: 0 <= k < |s'.readers| ==> s'.readers[k] in s.readers
    requires forall k :: 0 <= k < |s'.repliers| ==> s'.repliers[k] in s.repliers
    requires s'.main == s.main || s'.main.Decoding? || s'.main.Selecting? || s'.main.Stopped?
    ensures TasksMayFollow(s')
  {
    forall k | 0 <= k < |s'.repliers| ensures MayFollow(Log(s'), s'.repliers[k]) {
      assert s'.repliers[k] in s.repliers;
      var i :| 0 <= i < |s.repliers| && s.repliers[i] == s'.repliers[k];
      MayFollowMore(Log(s), Log(s'), s'.repliers[k]);
    }
  }

  lemma InvAppend(s: State, f: Frame, s': State)
    requires Inv(s) && MayFollow(Log(s), f) && !f.Started?
    requires s'.wire == s.wire && s'.chan == s.chan + [f] && s'.inserted == s.inserted
    requires forall k :: 0 <= k < |s'.readers| ==> s'.readers[k] in s.readers
    requires forall k :: 0 <= k < |s'.repliers| ==> s'.repliers[k] in s.repliers
    requires s'.main == s.main || (s.main.SendingReply? && s'.main == Decoding(s.main.rest))
    ensures Inv(s')
  {
    assert Log(s') == Log(s) + [f];
    AnnouncedSnoc(Log(s), f);
    TasksStillMayFollow(s, s');
    forall g, id | g in Log(s') && g.Started? && id in g.streams
      ensures id in s'.inserted || (s'.main.Registering? && id in s'.main.streams)
    {
      assert g in Log(s);
    }
  }

  lemma InvTaskSend(s: State, a: Action)
    requires Inv(s) && Enabled(s, a) && (a.ReaderData? || a.ReaderEnd? || a.ReplierSend?)
    ensures Inv(Next(s, a))
  {
    match a
    case ReaderData(k, segment) => InvAppend(s, StreamData(s.readers[k], segment), Next(s, a));
    case ReaderEnd(k) => InvAppend(s, StreamEnded(s.readers[k]), Next(s, a));
    case ReplierSend(k) => InvAppend(s, s.repliers[k], Next(s, a));
  }

  lemma InvPushReply(s: State)
    requires Inv(s) && Enabled(s, PushReply)
    ensures Inv(Next(s, PushReply))
  {
    InvAppend(s, s.main.reply, Next(s, PushReply));
  }

  lemma InvPushStarted(s: State)
    requires Inv(s) && Enabled(s, PushStarted)
    ensures Inv(Next(s, PushStarted))
  {
    var s' := Next(s, PushStarted);
    var f := Started(s.main.request, s.main.streams);
    assert Log(s') == Log(s) + [f];
    AnnouncedSnoc(Log(s), f);
    TasksStillMayFollow(s, s'.(main := Decoding([])));
    assert f in Log(s');
  }

  lemma InvRegistering(s: State, a: Action)
    requires Inv(s) && Enabled(s, a) && (a.InsertNext? || a.RegisterDone?)
    ensures Inv(Next(s, a))
  {
    var s' := Next(s, a);
    assert Log(s') == Log(s);
  }

  lemma InvWire(s: State, f: Frame, s': State)
    requires Inv(s) && MayFollow([], f) && !f.Started?
    requires s' == s.(wire := s.wire + [f], main := s'.main)
    requires s'.main == s.main || s'.main.Decoding?
    requires PendingStreamsKnown(Rest(s'.main), s.inserted) && !s.main.Registering?
    ensures Inv(s')
  {
    AnnouncedInsert(s.wire, f, s.chan);
    assert Grows(Log(s), Log(s'));
    TasksStillMayFollow(s, s');
  }

  lemma DrainKeepsLog(s: State)
    requires Enabled(s, Drain)
    ensures Log(Next(s, Drain)) == Log(s)
  {}

  lemma DrainWire(s: State)
    requires Enabled(s, Drain) && InsertedOrNext(s) && WireInserted(s)
    ensures WireInserted(Next(s, Drain))
  {
    assert s.chan[0] in Log(s);
  }

  lemma InvDrain(s: State)
    requires Inv(s) && Enabled(s, Drain)
    ensures Inv(Next(s, Drain))
  {
    DrainKeepsLog(s);
    DrainWire(s);
  }

  lemma InvReceive(s: State, burst: seq<Incoming>)
    requires Inv(s) && Enabled(s, Receive(burst))
    ensures Inv(Next(s, Receive(burst)))
  {
    var s' := Next(s, Receive(burst));
    TasksStillMayFollow(s, s');
  }

  lemma InvDispatch(s: State)
    requires Inv(s) && Enabled(s, Dispatch)
    ensures Inv(Next(s, Dispatch))
  {
    var s' := Next(s, Dispatch);
    match s.main.rest[0]
    case Sync(r, replies) =>
      if replies && s.kind.Json? {
        InvWire(s, Reply(r, false), s');
      }
    case _ =>
      assert Log(s') == Log(s);
  }

  /** Every step of the main task, the readers and the repliers keeps the order. */
  lemma InvStep(s: State, a: Action)
    requires Inv(s) && Enabled(s, a)
    ensures Inv(Next(s, a))
  {
    match a
    case Receive(burst) => InvReceive(s, burst);
    case Dispatch => InvDispatch(s);
    case PushReply => InvPushReply(s);
    case PushStarted => InvPushStarted(s);
    case InsertNext => InvRegistering(s, a);
    case RegisterDone => InvRegistering(s, a);
    case Drain => InvDrain(s);
    case WriteMessage(n) => InvWire(s, Message(n), Next(s, a));
    case BurstDone => TasksStillMayFollow(s, Next(s, a));
    case Stop => TasksStillMayFollow(s, Next(s, a));
    case _ => InvTaskSend(s, a);
  }

  lemma {:induction false} InvAlways(kind: Kind, actions: seq<Action>)
    requires IsRun(kind, actions)
    ensures Inv(Exec(kind, actions))
  {
    if actions != [] {
      var front := actions[..|actions| - 1];
      InvAlways(kind, front);
      InvStep(Exec(kind, front), actions[|actions| - 1]);
    }
  }

  /**
   * On the wire, `streams_started` comes before every data or end frame of its streams and
   * before the reply to the duplex call, for both transports and every interleaving.
   */
  lemma WireIsAnnounced(kind: Kind, actions: seq<Action>, p: nat)
    requires IsRun(kind, actions) && p < |Exec(kind, actions).wire|
    ensures var wire := Exec(kind, actions).wire;
      && (wire[p].StreamData? ==> StartedIn(wire[..p], wire[p].stream))
      && (wire[p].StreamEnded? ==> StartedIn(wire[..p], wire[p].stream))
      && (wire[p].Reply? && wire[p].streamed ==> AnnouncedFor(wire[..p], wire[p].request))
  {
    InvAlways(kind, actions);
    var s := Exec(kind, actions);
    assert Log(s)[p] == s.wire[p] && Log(s)[..p] == s.wire[..p];
  }

  /** No message for a stream is dispatched before the stream is in the table. */
  lemma DispatchedAfterInsert(kind: Kind, actions: seq<Action>)
    requires IsRun(kind, actions)
    requires var m := Exec(kind, actions).main; m.Decoding? && m.rest != [] && m.rest[0].ForStream?
    ensures Exec(kind, actions).main.rest[0].stream in Exec(kind, actions).inserted
  {
    InvAlways(kind, actions);
  }

  // ---------------------------------------------------------------------------------------
  // A stream's last frame
  // ---------------------------------------------------------------------------------------

  /** A frame of this stream. */
  predicate Concerns(f: Frame, stream: u32) {
    (f.StreamData? || f.StreamEnded?) && f.stream == stream
  }

  /** After a stream's end frame there is no frame of this stream. */
  predicate EndsLast(log: seq<Frame>) {
    forall i, j :: 0 <= i < j < |log| && log[i].StreamEnded? ==> !Concerns(log[j], log[i].stream)
  }

  predicate HasEnd(log: seq<Frame>, stream: u32) { StreamEnded(stream) in log }

  /** A stream has at most one reader, and none once its end was sent. */
  predicate EndInv(s: State) {
    && (forall i, j :: 0 <= i < j < |s.readers| ==> s.readers[i] != s.readers[j])
    && (forall i :: 0 <= i < |s.readers| ==> s.readers[i] in s.inserted && !HasEnd(Log(s), s.readers[i]))
    && (forall stream :: HasEnd(Log(s), stream) ==> stream in s.inserted)
    && EndsLast(Log(s))
  }

  /** Ids are fresh: a stream id is inserted at most once. */
  predicate Fresh(s: State, a: Action) {
    a.InsertNext? && Enabled(s, a) ==> s.main.streams[0] !in s.inserted
  }

  predicate FreshRun(kind: Kind, actions: seq<Action>)
    requires IsRun(kind, actions)
  {
    actions != [] ==>
      var front, a := actions[..|actions| - 1], actions[|actions| - 1];
      FreshRun(kind, front) && Fresh(Exec(kind, front), a)
  }

  /** A frame of no stream, anywhere in the log. */
  lemma EndsLastInsert(a: seq<Frame>, f: Frame, b: seq<Frame>)
    requires EndsLast(a + b) && !f.StreamData? && !f.StreamEnded?
    ensures EndsLast(a + [f] + b)
    ensures forall stream :: HasEnd(a + [f] + b, stream) <==> HasEnd(a + b, stream)
  {
    var before, log := a + b, a + [f] + b;
    forall i, j | 0 <= i < j < |log| && log[i].StreamEnded? ensures !Concerns(log[j], log[i].stream) {
      if j != |a| {
        var i', j' := if i < |a| then i else i - 1, if j < |a| then j else j - 1;
        assert before[i'] == log[i] && before[j'] == log[j];
      }
    }
  }

  lemma EndsLastAppend(log: seq<Frame>, f: Frame)
    requires EndsLast(log)
    requires f.StreamData? || f.StreamEnded? ==> !HasEnd(log, f.stream)
    ensures EndsLast(log + [f])
    ensures forall stream :: HasEnd(log + [f], stream) <==> HasEnd(log, stream) || f == StreamEnded(stream)
  {}

  lemma EndInvReader(s: State, a: Action)
    requires EndInv(s) && Enabled(s, a) && (a.ReaderData? || a.ReaderEnd?)
    ensures EndInv(Next(s, a))
  {
    var f := if a.ReaderData? then StreamData(s.readers[a.k], a.segment) else StreamEnded(s.readers[a.k]);
    EndsLastAppend(Log(s), f);
    assert Log(Next(s, a)) == Log(s) + [f];
  }

  /** Steps that append another frame to the channel. */
  lemma EndInvSend(s: State, a: Action, f: Frame)
    requires EndInv(s) && Enabled(s, a) && !f.StreamData? && !f.StreamEnded?
    requires Next(s, a).wire == s.wire && Next(s, a).chan == s.chan + [f]
    requires Next(s, a).readers == s.readers && Next(s, a).inserted == s.inserted
    ensures EndInv(Next(s, a))
  {
    EndsLastAppend(Log(s), f);
    assert Log(Next(s, a)) == Log(s) + [f];
  }

  /** Steps that write a frame past the channel. */
  lemma EndInvWrite(s: State, a: Action, f: Frame)
    requires EndInv(s) && Enabled(s, a) && !f.StreamData? && !f.StreamEnded?
    requires Next(s, a).wire == s.wire + [f] && Next(s, a).chan == s.chan
    requires Next(s, a).readers == s.readers && Next(s, a).inserted == s.inserted
    ensures EndInv(Next(s, a))
  {
    EndsLastInsert(s.wire, f, s.chan);
  }

  lemma EndInvStep(s: State, a: Action)
    requires EndInv(s) && TasksMayFollow(s) && Enabled(s, a) && Fresh(s, a)
    ensures EndInv(Next(s, a))
  {
    match a
    case ReaderData(_, _) => EndInvReader(s, a);
    case ReaderEnd(_) => EndInvReader(s, a);
    case ReplierSend(k) => EndInvSend(s, a, s.repliers[k]);
    case PushReply => EndInvSend(s, a, s.main.reply);
    case PushStarted => EndInvSend(s, a, Started(s.main.request, s.main.streams));
    case WriteMessage(n) => EndInvWrite(s, a, Message(n));
    case Dispatch => EndInvDispatch(s);
    case Drain => DrainKeepsLog(s);
    case _ =>
  }

  lemma EndInvDispatch(s: State)
    requires EndInv(s) && Enabled(s, Dispatch)
    ensures EndInv(Next(s, Dispatch))
  {
    var m := s.main.rest[0];
    if m.Sync? && m.replies && s.kind.Json? { EndInvWrite(s, Dispatch, Reply(m.request, false)); }
  }

  lemma {:induction false} EndInvAlways(kind: Kind, actions: seq<Action>)
    requires IsRun(kind, actions) && FreshRun(kind, actions)
    ensures EndInv(Exec(kind, actions))
  {
    if actions != [] {
      var front, a := actions[..|actions| - 1], actions[|actions| - 1];
      EndInvAlways(kind, front);
      InvAlways(kind, front);
      EndInvStep(Exec(kind, front), a);
    }
  }

  /** On the wire, a stream's `stream_ended` comes once and is its last frame. */
  lemma EndFrameIsLast(kind: Kind, actions: seq<Action>, p: nat, q: nat)
    requires IsRun(kind, actions) && FreshRun(kind, actions)
    requires p < q < |Exec(kind, actions).wire| && Exec(kind, actions).wire[p].StreamEnded?
    ensures !Concerns(Exec(kind, actions).wire[q], Exec(kind, actions).wire[p].stream)
  {
    EndInvAlways(kind, actions);
    var s := Exec(kind, actions);
    assert Log(s)[p] == s.wire[p] && Log(s)[q] == s.wire[q];
  }
}
