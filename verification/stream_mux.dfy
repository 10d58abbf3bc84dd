/**
 * The multiplexed streams of the RPC layer: the shared table of `StreamRec`s and the three
 * kinds of task that touch it (the dispatcher, the spawned removers and the write loops).
 *
 * Every region under the table's lock is one atomic step and every await is a step boundary.
 * A task only ever looks at the record of its own stream id, so the state is kept per id.
 */
module StreamMux {
  import opened Common

  /** The n-th write half that was inserted under one stream id. */
  type Half = nat

  type Segment = seq<byte>

  datatype StreamRec = StreamRec(write: Option<Half>, q: seq<Segment>, ended: bool)

  // ---------------------------------------------------------------------------------------
  // The regions under the table's lock, as functions of the one record they look at
  // ---------------------------------------------------------------------------------------

  /** `Streams::insert` */
  function InsertRec(w: Half): StreamRec {
    StreamRec(Some(w), [], false)
  }

  /** `Streams::write`: the record left behind, and the half a new write loop starts with. */
  function WriteRec(r: StreamRec, buf: Segment): (StreamRec, Option<Half>) {
    (r.(q := r.q + [buf], write := None), r.write)
  }

  /** `Streams::remove`: the record left behind, and the half to shut down outside the lock. */
  function RemoveRec(r: StreamRec): (Option<StreamRec>, Option<Half>) {
    if r.write.Some? then (None, r.write) else (Some(r.(ended := true)), None)
  }

  datatype LockOutcome = Break | GaveBack | Swapped

  /** The lock region of `write_loop`: the record left behind, and what the loop does next. */
  function LockRec(r: Option<StreamRec>, w: Half, items: seq<Segment>)
    : (Option<StreamRec>, LockOutcome, seq<Segment>)
  {
    match r
    case None => (None, Break, items)
    case Some(rec) =>
      if rec.q == [] then
        if rec.ended then (None, Break, items)
        else (Some(rec.(write := Some(w))), GaveBack, items)
      else (Some(rec.(q := items)), Swapped, rec.q)
  }

  // ---------------------------------------------------------------------------------------
  // Tasks and history of one stream id
  // ---------------------------------------------------------------------------------------

  /** Where a write loop is; `Writing(n)` has put n bytes of `items[0]` into the pipe. */
  datatype Phase = AtLock | Writing(written: nat) | Closing

  /** A running `write_loop`; `items` is what is left of `items_vec`. */
  datatype WriteLoop = WriteLoop(w: Half, items: seq<Segment>, phase: Phase)

  /** A segment a loop has finished with, and how many of its bytes reached the pipe. */
  datatype Piece = Piece(segment: Segment, written: nat)

  /** History of one write half: the bytes its reader sees, the pieces behind them, shutdowns. */
  datatype Pipe = Pipe(bytes: Segment, pieces: seq<Piece>, shutdowns: nat)

  /**
   * `removers` counts spawned `Streams::remove` futures that have not yet taken the lock and
   * `closers` holds the halves of those that have. The last four fields are history: segments
   * queued, segments dispatched since the insert, how many of those came before the first
   * `stream_ended` frame, and whether such a frame came after the insert.
   */
  datatype Stream = Stream(
    rec: Option<StreamRec>,
    loops: seq<WriteLoop>,
    removers: nat,
    closers: seq<Half>,
    pipes: seq<Pipe>,
    accepted: seq<Segment>,
    dispatched: seq<Segment>,
    endAt: Option<nat>,
    heard: bool)

  const EMPTY: Stream := Stream(None, [], 0, [], [], [], [], None, false)

  datatype Action =
    | Insert                        // register_stream calls Streams::insert
    | Data(segment: Segment)        // a stream_data frame is dispatched
    | End                           // a stream_ended frame is dispatched: a remover is spawned
    | RunRemover                    // a remover goes through its lock region
    | CloseRemoved(k: nat)          // a remover shuts its half down
    | Lock(k: nat)                  // loop k goes through its lock region
    | WriteSome(k: nat, n: nat)     // loop k gets n more bytes of its item into the pipe
    | ItemDone(k: nat)              // write_all of loop k returns Ok
    | ItemFailed(k: nat)            // write_all of loop k returns an error
    | CloseLoop(k: nat)             // loop k shuts its half down

  function RemoveAt<T>(s: seq<T>, k: nat): seq<T>
    requires k < |s|
  {
    s[..k] + s[k + 1..]
  }

  /** The half must exist; it always does (see `Inv`). */
  predicate HasPipe(s: Stream, w: Half) { w < |s.pipes| }

  predicate Enabled(s: Stream, a: Action) {
    match a
    case Insert => true
    case Data(_) => true
    case End => true
    case RunRemover => s.removers > 0
    case CloseRemoved(k) => k < |s.closers| && HasPipe(s, s.closers[k])
    case Lock(k) => k < |s.loops| && s.loops[k].phase.AtLock?
    case WriteSome(k, n) =>
      && k < |s.loops| && HasPipe(s, s.loops[k].w) && s.loops[k].phase.Writing?
      && s.loops[k].items != []
      && 0 < n && s.loops[k].phase.written + n <= |s.loops[k].items[0]|
    case ItemDone(k) =>
      && k < |s.loops| && HasPipe(s, s.loops[k].w) && s.loops[k].phase.Writing?
      && s.loops[k].items != [] && s.loops[k].phase.written == |s.loops[k].items[0]|
    case ItemFailed(k) =>
      && k < |s.loops| && HasPipe(s, s.loops[k].w) && s.loops[k].phase.Writing?
      && s.loops[k].items != [] && s.loops[k].phase.written <= |s.loops[k].items[0]|
    case CloseLoop(k) => k < |s.loops| && HasPipe(s, s.loops[k].w) && s.loops[k].phase.Closing?
  }

  /** Pieces of segments a failed batch throws away: none of their bytes were written. */
  function Discarded(items: seq<Segment>): seq<Piece> {
    seq(|items|, i requires 0 <= i < |items| => Piece(items[i], 0))
  }

  function Shut(pipes: seq<Pipe>, w: Half): seq<Pipe>
    requires w < |pipes|
  {
    pipes[w := pipes[w].(shutdowns := pipes[w].shutdowns + 1)]
  }

  function Next(s: Stream, a: Action): Stream
    requires Enabled(s, a)
  {
    match a
    case Insert =>
      s.(rec := Some(InsertRec(|s.pipes|)), pipes := s.pipes + [Pipe([], [], 0)])
    case Data(segment) =>
      var s' := if s.pipes == [] then s else s.(dispatched := s.dispatched + [segment]);
      if s.rec.None? then s' else
        var (rec, spawn) := WriteRec(s.rec.value, segment);
        s'.(rec := Some(rec),
            loops := if spawn.None? then s.loops else s.loops + [WriteLoop(spawn.value, [], AtLock)],
            accepted := s.accepted + [segment])
    case End =>
      s.(removers := s.removers + 1,
         endAt := if s.endAt.Some? then s.endAt else Some(|s.dispatched|),
         heard := s.pipes != [])
    case RunRemover =>
      var s' := s.(removers := s.removers - 1);
      if s.rec.None? then s' else
        var (rec, half) := RemoveRec(s.rec.value);
        s'.(rec := rec, closers := if half.None? then s.closers else s.closers + [half.value])
    case CloseRemoved(k) =>
      s.(closers := RemoveAt(s.closers, k), pipes := Shut(s.pipes, s.closers[k]))
    case Lock(k) =>
      var l := s.loops[k];
      var (rec, outcome, items) := LockRec(s.rec, l.w, l.items);
      var s' := s.(rec := rec);
      (match outcome
       case Break => s'.(loops := s.loops[k := l.(phase := Closing)])
       case GaveBack => s'.(loops := RemoveAt(s.loops, k))
       case Swapped => s'.(loops := s.loops[k := WriteLoop(l.w, items, Writing(0))]))
    case WriteSome(k, n) =>
      var l := s.loops[k];
      var p := s.pipes[l.w];
      s.(loops := s.loops[k := l.(phase := Writing(l.phase.written + n))],
         pipes := s.pipes[l.w := p.(bytes := p.bytes
           + l.items[0][l.phase.written..l.phase.written + n])])
    case ItemDone(k) =>
      var l := s.loops[k];
      var p := s.pipes[l.w];
      var rest := l.items[1..];
      s.(loops := s.loops[k := WriteLoop(l.w, rest, if rest == [] then AtLock else Writing(0))],
         pipes := s.pipes[l.w := p.(pieces := p.pieces + [Piece(l.items[0], l.phase.written)])])
    case ItemFailed(k) =>
      var l := s.loops[k];
      var p := s.pipes[l.w];
      s.(loops := s.loops[k := WriteLoop(l.w, [], AtLock)],
         pipes := s.pipes[l.w := p.(pieces := p.pieces
           + [Piece(l.items[0], l.phase.written)] + Discarded(l.items[1..]))])
    case CloseLoop(k) =>
      s.(loops := RemoveAt(s.loops, k), pipes := Shut(s.pipes, s.loops[k].w))
  }

  // ---------------------------------------------------------------------------------------
  // The invariant
  // ---------------------------------------------------------------------------------------

  function Segments(pieces: seq<Piece>): seq<Segment> {
    seq(|pieces|, i requires 0 <= i < |pieces| => pieces[i].segment)
  }

  /** The part of each piece that reached the pipe. */
  function Prefixes(pieces: seq<Piece>): seq<Segment>
    requires Sound(pieces)
  {
    seq(|pieces|, i requires 0 <= i < |pieces| => pieces[i].segment[..pieces[i].written])
  }

  predicate Sound(pieces: seq<Piece>) {
    forall i :: 0 <= i < |pieces| ==> pieces[i].written <= |pieces[i].segment|
  }

  /** The five places a write half can be, in the life of one stream. */
  datatype Owner = Record | Loop | LoopClosing | RemoverClosing | Gone

  function OwnerOf(s: Stream): Owner {
    if s.rec.Some? then (if s.rec.value.write.Some? then Record else Loop)
    else if s.loops != [] then LoopClosing
    else if s.closers != [] then RemoverClosing
    else Gone
  }

  predicate OwnerInv(s: Stream)
    requires |s.pipes| == 1
  {
    && s.pipes[0].shutdowns == (if OwnerOf(s).Gone? then 1 else 0)
    && s.closers == (if OwnerOf(s).RemoverClosing? then [0] else [])
    && match OwnerOf(s)
       case Record => s.rec.value.write == Some(0) && s.rec.value.q == [] && !s.rec.value.ended && s.loops == []
       case Loop =>
         && |s.loops| == 1 && s.loops[0].w == 0
         && (s.loops[0].phase.AtLock? ==> s.loops[0].items == [])
         && !s.loops[0].phase.Closing?
         && (s.loops[0].phase.Writing? ==>
               s.loops[0].items != [] && s.loops[0].phase.written <= |s.loops[0].items[0]|)
       case LoopClosing => s.loops == [WriteLoop(0, [], Closing)]
       case RemoverClosing => s.loops == []
       case Gone => s.loops == []
  }

  /** Segments taken off the queue but not finished with, then those still queued. */
  function Pending(s: Stream): seq<Segment> {
    (if s.loops == [] then [] else s.loops[0].items) + (if s.rec.None? then [] else s.rec.value.q)
  }

  /** What the loop has put into the pipe of the item it is writing. */
  function Partial(s: Stream): Segment {
    if s.loops != [] && s.loops[0].phase.Writing? && s.loops[0].items != []
       && s.loops[0].phase.written <= |s.loops[0].items[0]|
    then s.loops[0].items[0][..s.loops[0].phase.written]
    else []
  }

  predicate ContentInv(s: Stream)
    requires |s.pipes| == 1
  {
    var p := s.pipes[0];
    && Sound(p.pieces)
    && s.accepted == Segments(p.pieces) + Pending(s)
    && p.bytes == Flatten(Prefixes(p.pieces)) + Partial(s)
  }

  predicate HistoryInv(s: Stream) {
    && s.accepted <= s.dispatched
    && (s.rec.Some? ==> s.accepted == s.dispatched)
    && (s.endAt.Some? ==> s.endAt.value <= |s.dispatched|)
    && (s.removers > 0 ==> s.endAt.Some?)
    && (s.rec.Some? && s.rec.value.ended ==> s.endAt.Some?)
    && (s.heard ==> s.rec.None? || s.rec.value.ended || s.removers > 0)
    && (s.rec.None? && s.pipes != [] ==> s.endAt.Some? && s.endAt.value <= |s.accepted|)
  }

  predicate Inv(s: Stream) {
    && |s.pipes| <= 1
    && HistoryInv(s)
    && (s.pipes == [] ==>
          s.rec.None? && s.loops == [] && s.closers == [] && s.dispatched == [] && !s.heard)
    && (|s.pipes| == 1 ==> OwnerInv(s) && ContentInv(s))
  }

  /** Ids are fresh: a stream id is inserted at most once. */
  predicate Fresh(s: Stream, a: Action) { a.Insert? ==> s.pipes == [] }

  lemma SegmentsSnoc(ps: seq<Piece>, p: Piece)
    ensures Segments(ps + [p]) == Segments(ps) + [p.segment]
  {}

  lemma PrefixesConcat(ps: seq<Piece>, qs: seq<Piece>)
    requires Sound(ps) && Sound(qs)
    ensures Sound(ps + qs)
    ensures Prefixes(ps + qs) == Prefixes(ps) + Prefixes(qs)
  {}

  lemma DiscardedIsEmpty(items: seq<Segment>)
    ensures Sound(Discarded(items)) && Segments(Discarded(items)) == items
    ensures Flatten(Prefixes(Discarded(items))) == []
  {
    if items != [] {
      var d := Discarded(items);
      assert d == [Piece(items[0], 0)] + Discarded(items[1..]);
      DiscardedIsEmpty(items[1..]);
      PrefixesConcat([d[0]], Discarded(items[1..]));
      assert Prefixes([d[0]]) == [[]];
      FlattenConcat([[]], Prefixes(Discarded(items[1..])));
    }
  }

  lemma PieceStep(ps: seq<Piece>, p: Piece)
    requires Sound(ps) && p.written <= |p.segment|
    ensures Sound(ps + [p])
    ensures Flatten(Prefixes(ps + [p])) == Flatten(Prefixes(ps)) + p.segment[..p.written]
  {
    PrefixesConcat(ps, [p]);
    assert Prefixes([p]) == [p.segment[..p.written]];
    FlattenSnoc(Prefixes(ps), p.segment[..p.written]);
  }

  lemma InvSwapped(s: Stream)
    requires Inv(s) && Enabled(s, Lock(0)) && s.rec.Some? && s.rec.value.q != []
    ensures Inv(Next(s, Lock(0)))
  {
    var s' := Next(s, Lock(0));
    assert s'.loops == [WriteLoop(0, s.rec.value.q, Writing(0))] && s'.rec.value.q == [];
    assert Pending(s') == Pending(s) && Partial(s') == [];
  }

  lemma InvStopped(s: Stream)
    requires Inv(s) && Enabled(s, Lock(0)) && s.rec.Some? && s.rec.value.q == []
    ensures Inv(Next(s, Lock(0)))
  {
    var s' := Next(s, Lock(0));
    assert Pending(s) == [] && Pending(s') == [] && Partial(s') == [];
  }

  lemma InvLock(s: Stream, k: nat)
    requires Inv(s) && Enabled(s, Lock(k))
    ensures Inv(Next(s, Lock(k)))
  {
    assert k == 0 && s.rec.Some?;
    if s.rec.value.q == [] { InvStopped(s); } else { InvSwapped(s); }
  }

  lemma InvWriteSome(s: Stream, k: nat, n: nat)
    requires Inv(s) && Enabled(s, WriteSome(k, n))
    ensures Inv(Next(s, WriteSome(k, n)))
  {
    var s' := Next(s, WriteSome(k, n));
    var l := s.loops[0];
    assert Pending(s') == Pending(s);
    assert Partial(s') == Partial(s) + l.items[0][l.phase.written..l.phase.written + n];
    assert ContentInv(s');
  }

  lemma DoneContent(s: Stream, l: WriteLoop, t: Stream)
    requires |s.pipes| == 1 && s.loops == [l] && ContentInv(s)
    requires l.phase.Writing? && l.items != [] && l.phase.written == |l.items[0]|
    requires |t.pipes| == 1 && |t.loops| == 1 && t.loops[0].items == l.items[1..] && Partial(t) == []
    requires t.rec == s.rec && t.accepted == s.accepted && t.pipes[0].bytes == s.pipes[0].bytes
    requires t.pipes[0].pieces == s.pipes[0].pieces + [Piece(l.items[0], l.phase.written)]
    ensures ContentInv(t)
  {
    var piece := Piece(l.items[0], l.phase.written);
    PieceStep(s.pipes[0].pieces, piece);
    SegmentsSnoc(s.pipes[0].pieces, piece);
    assert Pending(s) == [l.items[0]] + Pending(t);
  }

  lemma InvItemDone(s: Stream, k: nat)
    requires Inv(s) && Enabled(s, ItemDone(k))
    ensures Inv(Next(s, ItemDone(k)))
  {
    var s' := Next(s, ItemDone(k));
    assert OwnerInv(s');
    DoneContent(s, s.loops[0], s');
  }

  /** A failed batch: a prefix of its first segment was written, and nothing of the others. */
  lemma FailedBatch(ps: seq<Piece>, items: seq<Segment>, n: nat)
    requires Sound(ps) && items != [] && n <= |items[0]|
    ensures var qs := ps + [Piece(items[0], n)] + Discarded(items[1..]);
      Sound(qs) && Segments(qs) == Segments(ps) + items
      && Flatten(Prefixes(qs)) == Flatten(Prefixes(ps)) + items[0][..n]
  {
    var first := ps + [Piece(items[0], n)];
    var lost := Discarded(items[1..]);
    PieceStep(ps, Piece(items[0], n));
    DiscardedIsEmpty(items[1..]);
    PrefixesConcat(first, lost);
    FlattenConcat(Prefixes(first), Prefixes(lost));
  }

  lemma FailedContent(s: Stream, l: WriteLoop, t: Stream)
    requires |s.pipes| == 1 && s.loops == [l] && ContentInv(s)
    requires l.phase.Writing? && l.items != [] && l.phase.written <= |l.items[0]|
    requires |t.pipes| == 1 && t.loops == [WriteLoop(l.w, [], AtLock)]
    requires t.rec == s.rec && t.accepted == s.accepted && t.pipes[0].bytes == s.pipes[0].bytes
    requires t.pipes[0].pieces
      == s.pipes[0].pieces + [Piece(l.items[0], l.phase.written)] + Discarded(l.items[1..])
    ensures ContentInv(t)
  {
    FailedBatch(s.pipes[0].pieces, l.items, l.phase.written);
    assert Pending(s) == l.items + Pending(t);
  }

  lemma InvItemFailed(s: Stream, k: nat)
    requires Inv(s) && Enabled(s, ItemFailed(k))
    ensures Inv(Next(s, ItemFailed(k)))
  {
    var s' := Next(s, ItemFailed(k));
    assert OwnerInv(s');
    FailedContent(s, s.loops[0], s');
  }

  lemma InvData(s: Stream, segment: Segment)
    requires Inv(s)
    ensures Inv(Next(s, Data(segment)))
  {
    var s' := Next(s, Data(segment));
    if s.rec.Some? {
      assert Pending(s') == Pending(s) + [segment];
      assert Partial(s') == Partial(s);
      assert OwnerInv(s');
      assert ContentInv(s');
    }
  }

  lemma InvRemover(s: Stream)
    requires Inv(s) && Enabled(s, RunRemover)
    ensures Inv(Next(s, RunRemover))
  {
    var s' := Next(s, RunRemover);
    if s.rec.Some? {
      assert Pending(s') == Pending(s) && Partial(s') == Partial(s);
      assert OwnerInv(s');
    }
  }

  lemma InvShutdown(s: Stream, a: Action)
    requires Inv(s) && Enabled(s, a) && (a.CloseRemoved? || a.CloseLoop?)
    ensures Inv(Next(s, a))
  {
    var s' := Next(s, a);
    assert OwnerInv(s');
    assert Pending(s') == Pending(s) && Partial(s') == Partial(s);
  }

  lemma InvInsert(s: Stream)
    requires Inv(s) && s.pipes == []
    ensures Inv(Next(s, Insert))
  {
    assert ContentInv(Next(s, Insert)) && OwnerInv(Next(s, Insert));
  }

  /** Every step of every task keeps the invariant. */
  lemma InvStep(s: Stream, a: Action)
    requires Inv(s) && Enabled(s, a) && Fresh(s, a)
    ensures Inv(Next(s, a))
  {
    match a
    case Lock(k) => InvLock(s, k);
    case WriteSome(k, n) => InvWriteSome(s, k, n);
    case ItemDone(k) => InvItemDone(s, k);
    case ItemFailed(k) => InvItemFailed(s, k);
    case Data(segment) => InvData(s, segment);
    case RunRemover => InvRemover(s);
    case Insert => InvInsert(s);
    case End =>
    case _ => InvShutdown(s, a);
  }

  // ---------------------------------------------------------------------------------------
  // Ownership of the write half
  // ---------------------------------------------------------------------------------------

  function Holding(loops: seq<WriteLoop>, w: Half): nat {
    if loops == [] then 0 else (if loops[0].w == w then 1 else 0) + Holding(loops[1..], w)
  }

  function Occurrences(halves: seq<Half>, w: Half): nat {
    if halves == [] then 0 else (if halves[0] == w then 1 else 0) + Occurrences(halves[1..], w)
  }

  /** How many places hold the half, counting a completed shutdown as a place. */
  function Owners(s: Stream, w: Half): nat
    requires HasPipe(s, w)
  {
    (if s.rec.Some? && s.rec.value.write == Some(w) then 1 else 0)
    + Holding(s.loops, w) + Occurrences(s.closers, w) + s.pipes[w].shutdowns
  }

  /** The hand-off is exact, and the defensive branch of the write loop is dead. */
  lemma OneOwner(s: Stream)
    requires Inv(s)
    ensures forall w :: HasPipe(s, w) ==> Owners(s, w) == 1
    ensures s.rec.Some? && s.rec.value.write.Some? ==> s.rec.value.q == []
    ensures forall k: nat :: Enabled(s, Lock(k)) ==> s.rec.Some? && s.loops[k].items == []
  {
    if s.pipes != [] {
      match OwnerOf(s)
      case Record =>
      case Loop => assert s.loops[1..] == [] && Holding(s.loops, 0) == 1;
      case LoopClosing => assert s.loops[1..] == [] && Holding(s.loops, 0) == 1;
      case RemoverClosing => assert s.closers[1..] == [] && Occurrences(s.closers, 0) == 1;
      case Gone =>
    }
  }

  /** Nothing is written to, or shuts down, a half that was shut down. */
  lemma ShutdownIsFinal(s: Stream, a: Action)
    requires Inv(s) && Enabled(s, a) && Fresh(s, a)
    requires s.pipes != [] && s.pipes[0].shutdowns > 0
    ensures Next(s, a).pipes == s.pipes
  {}

  // ---------------------------------------------------------------------------------------
  // Whole runs over all streams
  // ---------------------------------------------------------------------------------------

  type System = map<u32, Stream>

  datatype Event = Event(id: u32, action: Action)

  function At(sys: System, id: u32): Stream {
    if id in sys then sys[id] else EMPTY
  }

  predicate CanHappen(sys: System, e: Event) {
    Enabled(At(sys, e.id), e.action) && Fresh(At(sys, e.id), e.action)
  }

  function Happen(sys: System, e: Event): System
    requires CanHappen(sys, e)
  {
    sys[e.id := Next(At(sys, e.id), e.action)]
  }

  /** Any interleaving of dispatcher, removers and write loops, from the empty table. */
  predicate IsRun(es: seq<Event>)
    decreases |es|, 0
  {
    es != [] ==>
      var front := es[..|es| - 1];
      IsRun(front) && CanHappen(Exec(front), es[|es| - 1])
  }

  function Exec(es: seq<Event>): System
    requires IsRun(es)
    decreases |es|, 1
  {
    if es == [] then map[] else Happen(Exec(es[..|es| - 1]), es[|es| - 1])
  }

  predicate Inserted(es: seq<Event>, id: u32) {
    exists i :: 0 <= i < |es| && es[i] == Event(id, Insert)
  }

  /** The segments of the stream's data frames, in the order in which they were dispatched. */
  function Sent(es: seq<Event>, id: u32): seq<Segment> {
    if es == [] then [] else
      var front, e := es[..|es| - 1], es[|es| - 1];
      if e.id == id && e.action.Data? && Inserted(front, id)
      then Sent(front, id) + [e.action.segment] else Sent(front, id)
  }

  /** How many segments had been dispatched when the first `stream_ended` frame was. */
  function SentBeforeEnd(es: seq<Event>, id: u32): Option<nat> {
    if es == [] then None else
      var front, e := es[..|es| - 1], es[|es| - 1];
      if SentBeforeEnd(front, id).None? && e.id == id && e.action.End?
      then Some(|Sent(front, id)|) else SentBeforeEnd(front, id)
  }

  /** A `stream_ended` frame was dispatched after the insert. */
  predicate EndedAfterInsert(es: seq<Event>, id: u32) {
    exists i, j :: 0 <= i < j < |es| && es[i] == Event(id, Insert) && es[j] == Event(id, End)
  }

  predicate NoWriteError(es: seq<Event>, id: u32) {
    forall i :: 0 <= i < |es| && es[i].id == id ==> !es[i].action.ItemFailed?
  }

  predicate AllWritten(pieces: seq<Piece>) {
    forall i :: 0 <= i < |pieces| ==> pieces[i].written == |pieces[i].segment|
  }

  lemma AllWrittenPrefixes(pieces: seq<Piece>)
    requires Sound(pieces) && AllWritten(pieces)
    ensures Prefixes(pieces) == Segments(pieces)
  {
    assert forall i :: 0 <= i < |pieces| ==> Prefixes(pieces)[i] == Segments(pieces)[i];
  }

  lemma InsertedSnoc(es: seq<Event>, e: Event, id: u32)
    ensures Inserted(es + [e], id) <==> Inserted(es, id) || e == Event(id, Insert)
  {
    if Inserted(es, id) {
      var i :| 0 <= i < |es| && es[i] == Event(id, Insert);
      assert (es + [e])[i] == Event(id, Insert);
    }
    if e == Event(id, Insert) { assert (es + [e])[|es|] == e; }
  }

  lemma EndedAfterInsertSnoc(es: seq<Event>, e: Event, id: u32)
    ensures EndedAfterInsert(es + [e], id) <==> EndedAfterInsert(es, id) || (e == Event(id, End) && Inserted(es, id))
  {
    var all := es + [e];
    if EndedAfterInsert(es, id) {
      var i, j :| 0 <= i < j < |es| && es[i] == Event(id, Insert) && es[j] == Event(id, End);
      assert all[i] == Event(id, Insert) && all[j] == Event(id, End);
    }
    if e == Event(id, End) && Inserted(es, id) {
      var i :| 0 <= i < |es| && es[i] == Event(id, Insert);
      assert all[i] == Event(id, Insert) && all[|es|] == Event(id, End);
    }
  }

  lemma {:induction false} InvAlways(es: seq<Event>, id: u32)
    requires IsRun(es)
    ensures Inv(At(Exec(es), id))
  {
    if es != [] {
      var front, e := es[..|es| - 1], es[|es| - 1];
      InvAlways(front, id);
      if e.id == id {
        InvStep(At(Exec(front), id), e.action);
      }
    }
  }

  lemma HistoryStep(s: Stream, a: Action)
    requires Enabled(s, a)
    ensures var s' := Next(s, a);
      && (s'.pipes != [] <==> s.pipes != [] || a.Insert?)
      && s'.dispatched == (if a.Data? && s.pipes != [] then s.dispatched + [a.segment] else s.dispatched)
      && s'.endAt == (if a.End? && s.endAt.None? then Some(|s.dispatched|) else s.endAt)
      && (s'.heard <==> if a.End? then s.pipes != [] else s.heard)
  {}

  lemma HeardIsInserted(es: seq<Event>, id: u32)
    ensures EndedAfterInsert(es, id) ==> Inserted(es, id)
  {}

  lemma SentSnoc(es: seq<Event>, e: Event, id: u32)
    ensures Sent(es + [e], id)
      == if e.id == id && e.action.Data? && Inserted(es, id) then Sent(es, id) + [e.action.segment] else Sent(es, id)
    ensures SentBeforeEnd(es + [e], id)
      == if SentBeforeEnd(es, id).None? && e.id == id && e.action.End? then Some(|Sent(es, id)|)
         else SentBeforeEnd(es, id)
  {
    assert (es + [e])[..|es|] == es;
  }

  /** The fields that are history agree with the run. */
  predicate Tells(es: seq<Event>, id: u32, s: Stream) {
    && (s.pipes != [] <==> Inserted(es, id))
    && s.dispatched == Sent(es, id)
    && s.endAt == SentBeforeEnd(es, id)
    && (s.heard <==> EndedAfterInsert(es, id))
  }

  lemma TellsStep(es: seq<Event>, e: Event, s: Stream)
    requires Tells(es, e.id, s) && Enabled(s, e.action)
    ensures Tells(es + [e], e.id, Next(s, e.action))
  {
    HistoryStep(s, e.action);
    InsertedSnoc(es, e, e.id);
    EndedAfterInsertSnoc(es, e, e.id);
    HeardIsInserted(es, e.id);
    SentSnoc(es, e, e.id);
  }

  lemma TellsOther(es: seq<Event>, e: Event, id: u32, s: Stream)
    requires Tells(es, id, s) && e.id != id
    ensures Tells(es + [e], id, s)
  {
    InsertedSnoc(es, e, id);
    EndedAfterInsertSnoc(es, e, id);
    SentSnoc(es, e, id);
  }

  lemma {:induction false} TellsAlways(es: seq<Event>, id: u32)
    requires IsRun(es)
    ensures Tells(es, id, At(Exec(es), id))
  {
    if es != [] {
      var front, e := es[..|es| - 1], es[|es| - 1];
      TellsAlways(front, id);
      assert es == front + [e];
      if e.id == id {
        TellsStep(front, e, At(Exec(front), id));
      } else {
        TellsOther(front, e, id, At(Exec(front), id));
      }
    }
  }

  /** The bookkeeping of the state agrees with the run it came from. */
  lemma HistoryAlways(es: seq<Event>, id: u32)
    requires IsRun(es)
    ensures var s := At(Exec(es), id);
      && (s.pipes != [] <==> Inserted(es, id))
      && s.dispatched == Sent(es, id)
      && s.endAt == SentBeforeEnd(es, id)
      && (s.heard <==> EndedAfterInsert(es, id))
      && s.accepted <= Sent(es, id)
  {
    TellsAlways(es, id);
    InvAlways(es, id);
  }

  lemma WholeDone(s: Stream, k: nat)
    requires Inv(s) && Enabled(s, ItemDone(k)) && AllWritten(s.pipes[0].pieces)
    ensures Next(s, ItemDone(k)).pipes != [] && AllWritten(Next(s, ItemDone(k)).pipes[0].pieces)
  {
    assert s.loops[0].w == 0 && k == 0;
  }

  /** Only finishing an item, in one way or the other, adds pieces. */
  lemma PiecesStay(s: Stream, a: Action)
    requires Inv(s) && Enabled(s, a) && s.pipes != [] && !a.Insert? && !a.ItemDone? && !a.ItemFailed?
    ensures Next(s, a).pipes != [] && Next(s, a).pipes[0].pieces == s.pipes[0].pieces
  {}

  lemma WholeStep(s: Stream, a: Action)
    requires Inv(s) && Enabled(s, a) && Fresh(s, a) && !a.ItemFailed?
    requires s.pipes != [] ==> AllWritten(s.pipes[0].pieces)
    ensures Next(s, a).pipes != [] ==> AllWritten(Next(s, a).pipes[0].pieces)
  {
    if a.ItemDone? {
      WholeDone(s, a.k);
    } else if s.pipes != [] {
      PiecesStay(s, a);
    }
  }

  lemma {:induction false} WholeAlways(es: seq<Event>, id: u32)
    requires IsRun(es) && NoWriteError(es, id)
    ensures var s := At(Exec(es), id); s.pipes != [] ==> AllWritten(s.pipes[0].pieces)
  {
    if es != [] {
      var front, e := es[..|es| - 1], es[|es| - 1];
      WholeAlways(front, id);
      if e.id == id {
        InvAlways(front, id);
        WholeStep(At(Exec(front), id), e.action);
      }
    }
  }

  /** `bytes` is made of a prefix of each of the segments, in order. */
  ghost predicate InOrderWithLoss(bytes: Segment, segments: seq<Segment>) {
    exists pieces :: Sound(pieces) && Segments(pieces) == segments && bytes == Flatten(Prefixes(pieces))
  }

  lemma ShutState(s: Stream)
    requires Inv(s) && s.pipes != [] && s.pipes[0].shutdowns > 0
    ensures s.pipes[0].shutdowns == 1 && s.accepted <= s.dispatched
    ensures s.endAt.Some? && s.endAt.value <= |s.accepted|
    ensures Sound(s.pipes[0].pieces) && Segments(s.pipes[0].pieces) == s.accepted
    ensures s.pipes[0].bytes == Flatten(Prefixes(s.pipes[0].pieces))
  {
    assert Pending(s) == [] && Partial(s) == [];
  }

  /**
   * What the reader of a stream sees once the stream was shut down, under every interleaving:
   * it is shut down once, after every segment that came before the first `stream_ended` frame,
   * and each of the segments up to some later point contributes a prefix, in order.
   */
  lemma DeliveredAtShutdown(es: seq<Event>, id: u32)
    requires IsRun(es)
    requires var s := At(Exec(es), id); s.pipes != [] && s.pipes[0].shutdowns > 0
    ensures var pipe := At(Exec(es), id).pipes[0];
      var sent := Sent(es, id);
      && pipe.shutdowns == 1
      && exists n :: && n <= |sent| && SentBeforeEnd(es, id).Some? && SentBeforeEnd(es, id).value <= n
                     && InOrderWithLoss(pipe.bytes, sent[..n])
                     && (NoWriteError(es, id) ==> pipe.bytes == Flatten(sent[..n]))
  {
    var s := At(Exec(es), id);
    var n := |s.accepted|;
    InvAlways(es, id);
    HistoryAlways(es, id);
    ShutState(s);
    assert s.accepted == Sent(es, id)[..n];
    assert InOrderWithLoss(s.pipes[0].bytes, Sent(es, id)[..n]);
    if NoWriteError(es, id) {
      WholeAlways(es, id);
      AllWrittenPrefixes(s.pipes[0].pieces);
    }
  }

  /** With all data before the end and no write error, the stream is delivered exactly. */
  lemma DeliveredExactly(es: seq<Event>, id: u32)
    requires IsRun(es) && NoWriteError(es, id)
    requires SentBeforeEnd(es, id) == Some(|Sent(es, id)|)
    requires var s := At(Exec(es), id); s.pipes != [] && s.pipes[0].shutdowns > 0
    ensures At(Exec(es), id).pipes[0].bytes == Flatten(Sent(es, id))
  {
    var sent := Sent(es, id);
    var pipe := At(Exec(es), id).pipes[0];
    DeliveredAtShutdown(es, id);
    var n :| |sent| <= n <= |sent| && pipe.bytes == Flatten(sent[..n]);
    assert sent[..n] == sent;
  }

  lemma LongerPrefix(x: Segment, c: Segment, y: Segment, z: Segment)
    requires c <= y
    ensures x + c <= x + (y + z)
  {
    assert (x + (y + z))[..|x| + |c|] == x + c;
  }

  lemma FlattenPrefix(a: seq<Segment>, b: seq<Segment>, c: Segment)
    requires |a| < |b| && a == b[..|a|] && c <= b[|a|]
    ensures Flatten(a) + c <= Flatten(b)
  {
    var x, rest := b[|a|], b[|a|..];
    assert b == a + rest;
    FlattenConcat(a, rest);
    assert rest[0] == x && Flatten(rest) == x + Flatten(rest[1..]);
    LongerPrefix(Flatten(a), c, x, Flatten(rest[1..]));
  }

  lemma SoFar(s: Stream)
    requires Inv(s) && s.pipes != [] && AllWritten(s.pipes[0].pieces)
    ensures s.pipes[0].bytes <= Flatten(s.dispatched)
  {
    var done := Segments(s.pipes[0].pieces);
    AllWrittenPrefixes(s.pipes[0].pieces);
    if |done| < |s.dispatched| {
      assert Partial(s) != [] ==> s.accepted[|done|] == s.loops[0].items[0];
      FlattenPrefix(done, s.dispatched, Partial(s));
    } else {
      assert Pending(s) == [] && Partial(s) == [];
      assert done == s.dispatched;
    }
  }

  /** At every moment before that, the reader has seen a prefix of what was sent. */
  lemma DeliveredSoFar(es: seq<Event>, id: u32)
    requires IsRun(es) && NoWriteError(es, id)
    requires At(Exec(es), id).pipes != []
    ensures At(Exec(es), id).pipes[0].bytes <= Flatten(Sent(es, id))
  {
    InvAlways(es, id);
    HistoryAlways(es, id);
    WholeAlways(es, id);
    SoFar(At(Exec(es), id));
  }

  // ---------------------------------------------------------------------------------------
  // Progress
  // ---------------------------------------------------------------------------------------

  /** Everything but the dispatcher: steps of removers and write loops. */
  predicate OfTask(a: Action) { !a.Insert? && !a.Data? && !a.End? }

  function ItemWork(items: seq<Segment>): nat {
    if items == [] then 0 else |items[0]| + 1 + ItemWork(items[1..])
  }

  function LoopWork(l: WriteLoop): int {
    match l.phase
    case AtLock => 2
    case Closing => 1
    case Writing(n) => 2 + ItemWork(l.items) - n
  }

  /** Upper bound on the steps removers and loops can still take. */
  function Work(s: Stream): int {
    2 * s.removers + |s.closers|
    + (if s.loops == [] then 0 else LoopWork(s.loops[0]))
    + (if s.rec.None? then 0 else ItemWork(s.rec.value.q) + |s.rec.value.q|)
  }

  lemma WorkBounded(s: Stream)
    requires Inv(s)
    ensures 0 <= Work(s)
  {}

  /** At the lock, a loop with something queued takes it over, any other one is about to stop. */
  lemma LockDecreases(s: Stream, k: nat)
    requires Inv(s) && Enabled(s, Lock(k))
    ensures Work(Next(s, Lock(k))) < Work(s)
  {
    assert s.loops == [WriteLoop(0, [], AtLock)] && k == 0;
    var t := Next(s, Lock(k));
    if s.rec.value.q != [] {
      assert t.loops == [WriteLoop(0, s.rec.value.q, Writing(0))] && t.rec.value.q == [];
    } else if s.rec.value.ended {
      assert t.loops == [WriteLoop(0, [], Closing)] && t.rec.None?;
    } else {
      assert t.loops == [];
    }
  }

  lemma WorkDecreases(s: Stream, a: Action)
    requires Inv(s) && Enabled(s, a) && OfTask(a)
    ensures Work(Next(s, a)) < Work(s)
  {
    match a
    case Lock(k) => LockDecreases(s, k);
    case RunRemover =>
    case CloseRemoved(_) =>
    case CloseLoop(_) =>
    case WriteSome(_, _) =>
    case ItemDone(_) =>
    case ItemFailed(_) =>
  }

  /** A run of one stream from some state on. */
  predicate IsRunFrom(s: Stream, actions: seq<Action>)
    decreases |actions|
  {
    actions != [] ==> Enabled(s, actions[0]) && IsRunFrom(Next(s, actions[0]), actions[1..])
  }

  function ExecFrom(s: Stream, actions: seq<Action>): Stream
    requires IsRunFrom(s, actions)
    decreases |actions|
  {
    if actions == [] then s else ExecFrom(Next(s, actions[0]), actions[1..])
  }

  /** No remover and no loop can move, unless a write fails. */
  ghost predicate Quiet(s: Stream) {
    forall a :: OfTask(a) && !a.ItemFailed? ==> !Enabled(s, a)
  }

  /** A step that a loop can take without an error. */
  function LoopStep(l: WriteLoop): Action {
    match l.phase
    case AtLock => Lock(0)
    case Closing => CloseLoop(0)
    case Writing(n) =>
      if l.items != [] && n < |l.items[0]| then WriteSome(0, |l.items[0]| - n) else ItemDone(0)
  }

  /** A loop never waits: whatever it is at, it can go on without an error. */
  lemma LoopCanMove(s: Stream)
    requires Inv(s) && s.loops != []
    ensures OfTask(LoopStep(s.loops[0])) && !LoopStep(s.loops[0]).ItemFailed?
    ensures Enabled(s, LoopStep(s.loops[0]))
  {}

  lemma QuietMeansNoTasks(s: Stream)
    requires Inv(s) && Quiet(s)
    ensures s.removers == 0 && s.closers == [] && s.loops == []
  {
    assert !Enabled(s, RunRemover);
    assert !Enabled(s, CloseRemoved(0));
    if s.loops != [] { LoopCanMove(s); }
  }

  /**
   * When nothing is left to do but to fail, an ended stream is shut down once; any other one has
   * its half back in the record, with nothing queued. Either way no segment is in between.
   */
  lemma QuietMeansShut(s: Stream)
    requires Inv(s) && Quiet(s) && s.pipes != []
    ensures s.heard ==> s.rec.None? && s.pipes[0].shutdowns == 1
    ensures s.endAt.None? ==> s.rec == Some(StreamRec(Some(0), [], false)) && s.pipes[0].shutdowns == 0
    ensures Pending(s) == []
  {
    QuietMeansNoTasks(s);
  }

  /** How many of the events are steps of this stream. */
  function Steps(es: seq<Event>, id: u32): nat {
    if es == [] then 0 else Steps(es[..|es| - 1], id) + if es[|es| - 1].id == id then 1 else 0
  }

  predicate OnlyTasks(es: seq<Event>, id: u32) {
    forall i :: 0 <= i < |es| && es[i].id == id ==> OfTask(es[i].action)
  }

  lemma {:induction false} StepsAreWork(es: seq<Event>, later: seq<Event>, id: u32)
    requires IsRun(es) && IsRun(es + later) && OnlyTasks(later, id)
    ensures Steps(later, id) + Work(At(Exec(es + later), id)) <= Work(At(Exec(es), id))
  {
    if later == [] {
      assert es + later == es;
    } else {
      var n := |later| - 1;
      var front, e := es + later[..n], later[n];
      assert (es + later)[..|es + later| - 1] == front;
      StepsAreWork(es, later[..n], id);
      if e.id == id { StepIsWork(es + later, front, e, id); }
    }
  }

  lemma StepIsWork(all: seq<Event>, front: seq<Event>, e: Event, id: u32)
    requires IsRun(all) && all != [] && front == all[..|all| - 1] && e == all[|all| - 1]
    requires e.id == id && OfTask(e.action)
    ensures Work(At(Exec(all), id)) < Work(At(Exec(front), id))
  {
    InvAlways(front, id);
    WorkDecreases(At(Exec(front), id), e.action);
  }

  /**
   * Once a `stream_ended` frame was dispatched for an inserted stream and no more of its frames
   * arrive, its tasks can take only so many steps, and when they have come to rest (a write that
   * could only fail is at rest, too) the record is gone and the half is shut down, however the
   * steps of all streams were interleaved.
   */
  lemma EndedStreamShutsDown(es: seq<Event>, later: seq<Event>, id: u32)
    requires IsRun(es) && EndedAfterInsert(es, id)
    requires IsRun(es + later) && OnlyTasks(later, id)
    ensures Steps(later, id) <= Work(At(Exec(es), id))
    ensures var t := At(Exec(es + later), id);
      Quiet(t) ==> t.rec.None? && t.pipes != [] && t.pipes[0].shutdowns == 1
  {
    StepsAreWork(es, later, id);
    InvAlways(es + later, id);
    WorkBounded(At(Exec(es + later), id));
    HistoryAlways(es + later, id);
    var i, j :| 0 <= i < j < |es| && es[i] == Event(id, Insert) && es[j] == Event(id, End);
    assert (es + later)[i] == Event(id, Insert) && (es + later)[j] == Event(id, End);
    if Quiet(At(Exec(es + later), id)) { QuietMeansShut(At(Exec(es + later), id)); }
  }

  lemma RestState(s: Stream)
    requires Inv(s) && Quiet(s) && s.pipes != [] && AllWritten(s.pipes[0].pieces)
    ensures s.pipes[0].bytes == Flatten(s.accepted)
  {
    QuietMeansShut(s);
    QuietMeansNoTasks(s);
    AllWrittenPrefixes(s.pipes[0].pieces);
    assert Partial(s) == [] && s.accepted == Segments(s.pipes[0].pieces);
  }

  /**
   * When an inserted stream has come to rest without a write error, its reader has got every
   * segment sent before the end, and nothing else but segments sent after it: all of them if the
   * stream has not ended, and then the half waits in the record for the next one.
   */
  lemma RestDelivers(es: seq<Event>, id: u32)
    requires IsRun(es) && NoWriteError(es, id) && Inserted(es, id)
    requires Quiet(At(Exec(es), id))
    ensures var s, sent := At(Exec(es), id), Sent(es, id);
      && s.pipes != []
      && (EndedAfterInsert(es, id) ==> s.rec.None? && s.pipes[0].shutdowns == 1)
      && (SentBeforeEnd(es, id).None? ==>
            s.rec == Some(StreamRec(Some(0), [], false)) && s.pipes[0].bytes == Flatten(sent))
      && (SentBeforeEnd(es, id) == Some(|sent|) ==> s.pipes[0].bytes == Flatten(sent))
  {
    var s, sent := At(Exec(es), id), Sent(es, id);
    InvAlways(es, id);
    HistoryAlways(es, id);
    WholeAlways(es, id);
    QuietMeansShut(s);
    RestState(s);
    assert s.accepted == sent[..|s.accepted|];
    if SentBeforeEnd(es, id) == Some(|sent|) || SentBeforeEnd(es, id).None? {
      assert |s.accepted| == |sent|;
      assert s.accepted == sent;
    }
  }

  /** Data frames, then the end frame, no write error, and nothing left to do: delivered and shut. */
  lemma DeliveredInTheEnd(es: seq<Event>, id: u32)
    requires IsRun(es) && NoWriteError(es, id) && EndedAfterInsert(es, id)
    requires SentBeforeEnd(es, id) == Some(|Sent(es, id)|) && Quiet(At(Exec(es), id))
    ensures var s := At(Exec(es), id);
      && s.rec.None? && s.pipes != [] && s.pipes[0].shutdowns == 1
      && s.pipes[0].bytes == Flatten(Sent(es, id))
  {
    HeardIsInserted(es, id);
    RestDelivers(es, id);
  }

  // ---------------------------------------------------------------------------------------
  // Every run can go on to such an end
  // ---------------------------------------------------------------------------------------

  /** Steps of this stream's removers and loops, none of which fails. */
  predicate Undisturbed(es: seq<Event>, id: u32) {
    forall i :: 0 <= i < |es| ==> es[i].id == id && OfTask(es[i].action) && !es[i].action.ItemFailed?
  }

  lemma RunOn(es: seq<Event>, e: Event)
    requires IsRun(es) && CanHappen(Exec(es), e)
    ensures IsRun(es + [e]) && Exec(es + [e]) == Happen(Exec(es), e)
  {
    assert (es + [e])[..|es|] == es;
  }

  /** A step of the stream's tasks, with what it does to the whole. */
  lemma TaskStep(es: seq<Event>, id: u32, a: Action)
    requires IsRun(es) && OfTask(a) && Enabled(At(Exec(es), id), a)
    ensures IsRun(es + [Event(id, a)])
    ensures 0 <= Work(At(Exec(es + [Event(id, a)]), id)) < Work(At(Exec(es), id))
  {
    InvAlways(es, id);
    WorkDecreases(At(Exec(es), id), a);
    RunOn(es, Event(id, a));
    InvAlways(es + [Event(id, a)], id);
    WorkBounded(At(Exec(es + [Event(id, a)]), id));
  }

  lemma RunIsBounded(es: seq<Event>, id: u32)
    requires IsRun(es)
    ensures Work(At(Exec(es), id)) >= 0
  {
    InvAlways(es, id);
    WorkBounded(At(Exec(es), id));
  }

  /** After these further steps the stream is at rest. */
  ghost predicate RestsAfter(es: seq<Event>, later: seq<Event>, id: u32) {
    IsRun(es + later) && Undisturbed(later, id) && Quiet(At(Exec(es + later), id))
  }

  lemma RestsNow(es: seq<Event>, id: u32)
    requires IsRun(es) && Quiet(At(Exec(es), id))
    ensures RestsAfter(es, [], id)
  {
    assert es + [] == es;
  }

  lemma RestsOneEarlier(es: seq<Event>, a: Action, rest: seq<Event>, id: u32)
    requires OfTask(a) && !a.ItemFailed? && RestsAfter(es + [Event(id, a)], rest, id)
    ensures RestsAfter(es, [Event(id, a)] + rest, id)
  {
    assert es + ([Event(id, a)] + rest) == (es + [Event(id, a)]) + rest;
  }

  /** Whatever happened before, the tasks of a stream can come to rest without a write error. */
  lemma {:induction false} CanComeToRest(es: seq<Event>, id: u32) returns (later: seq<Event>)
    requires IsRun(es)
    ensures RestsAfter(es, later, id)
    decreases Work(At(Exec(es), id))
  {
    RunIsBounded(es, id);
    if Quiet(At(Exec(es), id)) {
      later := [];
      RestsNow(es, id);
    } else {
      var a :| OfTask(a) && !a.ItemFailed? && Enabled(At(Exec(es), id), a);
      TaskStep(es, id, a);
      var rest := CanComeToRest(es + [Event(id, a)], id);
      RestsOneEarlier(es, a, rest, id);
      later := [Event(id, a)] + rest;
    }
  }

  /** The data frames of these segments. */
  function DataFrames(id: u32, segments: seq<Segment>): seq<Event> {
    seq(|segments|, i requires 0 <= i < |segments| => Event(id, Data(segments[i])))
  }

  lemma {:induction false} FramesDispatched(id: u32, segments: seq<Segment>)
    ensures var es := [Event(id, Insert)] + DataFrames(id, segments);
      IsRun(es) && Sent(es, id) == segments && SentBeforeEnd(es, id).None?
  {
    var es := [Event(id, Insert)] + DataFrames(id, segments);
    assert es[0] == Event(id, Insert);
    if segments == [] {
      assert es == [] + [Event(id, Insert)];
      RunOn([], Event(id, Insert));
      SentSnoc([], Event(id, Insert), id);
    } else {
      var n := |segments| - 1;
      var front := [Event(id, Insert)] + DataFrames(id, segments[..n]);
      FramesDispatched(id, segments[..n]);
      assert es == front + [Event(id, Data(segments[n]))];
      assert front[0] == Event(id, Insert);
      RunOn(front, Event(id, Data(segments[n])));
      SentSnoc(front, Event(id, Data(segments[n])), id);
      assert segments == segments[..n] + [segments[n]];
    }
  }

  lemma {:induction false} TasksSendNothing(es: seq<Event>, later: seq<Event>, id: u32)
    requires Undisturbed(later, id)
    ensures Sent(es + later, id) == Sent(es, id) && SentBeforeEnd(es + later, id) == SentBeforeEnd(es, id)
    ensures NoWriteError(es, id) ==> NoWriteError(es + later, id)
    ensures EndedAfterInsert(es, id) ==> EndedAfterInsert(es + later, id)
  {
    if later == [] {
      assert es + later == es;
    } else {
      var n := |later| - 1;
      TasksSendNothing(es, later[..n], id);
      assert es + later == (es + later[..n]) + [later[n]];
      SentSnoc(es + later[..n], later[n], id);
      EndedAfterInsertSnoc(es + later[..n], later[n], id);
    }
  }

  lemma AllSent(id: u32, segments: seq<Segment>) returns (sent: seq<Event>)
    ensures IsRun(sent) && Sent(sent, id) == segments && SentBeforeEnd(sent, id) == Some(|segments|)
    ensures NoWriteError(sent, id) && EndedAfterInsert(sent, id)
  {
    var front := [Event(id, Insert)] + DataFrames(id, segments);
    FramesDispatched(id, segments);
    assert front[0] == Event(id, Insert);
    RunOn(front, Event(id, End));
    SentSnoc(front, Event(id, End), id);
    EndedAfterInsertSnoc(front, Event(id, End), id);
    sent := front + [Event(id, End)];
  }

  /** Any segments can be sent on a stream, and then be delivered and shut down. */
  lemma AnythingCanBeDelivered(id: u32, segments: seq<Segment>) returns (es: seq<Event>)
    ensures IsRun(es) && Sent(es, id) == segments && NoWriteError(es, id)
    ensures var s := At(Exec(es), id);
      s.pipes != [] && s.pipes[0].shutdowns == 1 && s.pipes[0].bytes == Flatten(segments)
  {
    var sent := AllSent(id, segments);
    var later := CanComeToRest(sent, id);
    TasksSendNothing(sent, later, id);
    es := sent + later;
    DeliveredInTheEnd(es, id);
  }

  // ---------------------------------------------------------------------------------------
  // Why ids must be fresh
  // ---------------------------------------------------------------------------------------

  /** An id inserted again while its first loop is waiting for the lock. */
  const REUSE: seq<Action> :=
    [Insert, Data([1]), Insert, Data([2]), Lock(0), WriteSome(0, 1), ItemDone(0)]

  lemma Prepend(s: Stream, a: Action, rest: seq<Action>)
    requires Enabled(s, a) && IsRunFrom(Next(s, a), rest)
    ensures IsRunFrom(s, [a] + rest) && ExecFrom(s, [a] + rest) == ExecFrom(Next(s, a), rest)
  {
    assert ([a] + rest)[1..] == rest;
  }

  /** The state of that run when both loops are waiting for the lock. */
  const BOTH_WAITING: Stream := Stream(
    Some(StreamRec(None, [[2]], false)), [WriteLoop(0, [], AtLock), WriteLoop(1, [], AtLock)],
    0, [], [Pipe([], [], 0), Pipe([], [], 0)], [[1], [2]], [[1], [2]], None, false)

  const LAST_STEPS: seq<Action> := [Lock(0), WriteSome(0, 1), ItemDone(0)]

  lemma ReuseHead()
    ensures Next(Next(Next(Next(EMPTY, Insert), Data([1])), Insert), Data([2])) == BOTH_WAITING
  {
    var s1 := Next(EMPTY, Insert);
    assert s1.pipes == [Pipe([], [], 0)];
    var s2 := Next(s1, Data([1]));
    assert s2.loops == [WriteLoop(0, [], AtLock)] && s2.accepted == s2.dispatched == [[1]];
    var s3 := Next(s2, Insert);
    assert s3.pipes == BOTH_WAITING.pipes;
    var s4 := Next(s3, Data([2]));
    assert s4.loops == BOTH_WAITING.loops && s4.accepted == s4.dispatched == [[1], [2]];
    assert s4.rec.value.q == [[2]];
  }

  lemma ReuseTail()
    ensures IsRunFrom(BOTH_WAITING, LAST_STEPS)
    ensures var s := ExecFrom(BOTH_WAITING, LAST_STEPS);
      |s.pipes| == 2 && s.pipes[0].bytes == [2] && s.pipes[1].bytes == [] && Pending(s) == []
  {
    var l := WriteLoop(1, [], AtLock);
    var s5 := Next(BOTH_WAITING, Lock(0));
    assert s5.loops == [WriteLoop(0, [[2]], Writing(0)), l];
    var s6 := Next(s5, WriteSome(0, 1));
    assert s6.loops == [WriteLoop(0, [[2]], Writing(1)), l];
    assert s6.pipes[0].bytes == [2];
    assert s6.pipes == [Pipe([2], [], 0), Pipe([], [], 0)];
    var s7 := Next(s6, ItemDone(0));
    assert s7.loops == [WriteLoop(0, [], AtLock), l];
    Prepend(s6, ItemDone(0), []);
    assert [ItemDone(0)] == [ItemDone(0)] + [];
    Prepend(s5, WriteSome(0, 1), [ItemDone(0)]);
    assert [WriteSome(0, 1), ItemDone(0)] == [WriteSome(0, 1)] + [ItemDone(0)];
    Prepend(BOTH_WAITING, Lock(0), [WriteSome(0, 1), ItemDone(0)]);
    assert LAST_STEPS == [Lock(0)] + [WriteSome(0, 1), ItemDone(0)];
  }

  /**
   * Freshness is needed: when an id is inserted again, the first stream's loop picks up the
   * second stream's segment and writes it to the first stream's reader.
   */
  lemma ReusedIdMisdelivers()
    ensures IsRunFrom(EMPTY, REUSE)
    ensures var s := ExecFrom(EMPTY, REUSE);
      |s.pipes| == 2 && s.pipes[0].bytes == [2] && s.pipes[1].bytes == [] && Pending(s) == []
  {
    var s1 := Next(EMPTY, Insert);
    var s2 := Next(s1, Data([1]));
    var s3 := Next(s2, Insert);
    ReuseHead();
    ReuseTail();
    Prepend(s3, Data([2]), LAST_STEPS);
    Prepend(s2, Insert, [Data([2])] + LAST_STEPS);
    Prepend(s1, Data([1]), [Insert] + ([Data([2])] + LAST_STEPS));
    Prepend(EMPTY, Insert, [Data([1])] + ([Insert] + ([Data([2])] + LAST_STEPS)));
    assert REUSE == [Insert] + ([Data([1])] + ([Insert] + ([Data([2])] + LAST_STEPS)));
  }
}
