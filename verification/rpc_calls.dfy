/**
 * Request/response correlation: the id counter, the serving side of the dispatcher, and the
 * life of `RpcCaller::call` against replies that may overtake it.
 */
module RpcCalls {
  import opened Common

  // ---------------------------------------------------------------------------------------
  // Ids
  // ---------------------------------------------------------------------------------------

  const ID_SPACE: nat := 0x1_0000_0000

  /** The id handed out when `n` ids were handed out before: the counter wraps. */
  function IdOf(n: nat): u32 { n % ID_SPACE }

  class IdCounter {
    var value: u32

    constructor ()
      ensures value == IdOf(0)
    {
      value := 0;
    }

    /** `fetch_add(1)`, which wraps around. */
    method Next(ghost taken: nat) returns (id: u32)
      requires value == IdOf(taken)
      modifies this
      ensures id == IdOf(taken) && value == IdOf(taken + 1)
    {
      id := value;
      value := if value == 0xffff_ffff then 0 else value + 1;
    }

    /** The ids of a duplex call, taken one after the other. */
    method TakeMany(count: nat, ghost taken: nat) returns (ids: seq<u32>)
      requires value == IdOf(taken)
      modifies this
      ensures value == IdOf(taken + count)
      ensures |ids| == count && forall i :: 0 <= i < count ==> ids[i] == IdOf(taken + i)
    {
      ids := [];
      while |ids| < count
        invariant |ids| <= count && value == IdOf(taken + |ids|)
        invariant forall i :: 0 <= i < |ids| ==> ids[i] == IdOf(taken + i)
      {
        var id := Next(taken + |ids|);
        ids := ids + [id];
      }
    }
  }

  ghost predicate Distinct(n: nat) {
    forall i, j :: 0 <= i < j < n ==> IdOf(i) != IdOf(j)
  }

  /** The first n ids differ from each other exactly as long as there are at most 2^32 of them. */
  lemma IdsDistinctExactly(n: nat)
    ensures Distinct(n) <==> n <= ID_SPACE
  {
    if n > ID_SPACE {
      assert IdOf(0) == IdOf(ID_SPACE);
    }
  }

  // ---------------------------------------------------------------------------------------
  // The serving side: dispatch_with_partial and the registered methods
  // ---------------------------------------------------------------------------------------

  /** How a registered method fares on a request. */
  datatype Handling = BadParams | Succeeds(result: int) | Fails

  datatype Reply =
    | Success(id: u32, result: int)
    | Failure(id: u32, code: int)

  /** The reply the dispatcher sends for an incoming message that names a method. */
  function Serve(id: Option<u32>, registered: bool, handling: Handling): Option<Reply> {
    if id.None? then None
    else if !registered then Some(Failure(id.value, -1))
    else match handling
      case BadParams => Some(Failure(id.value, 0))
      case Succeeds(result) => Some(Success(id.value, result))
      case Fails => Some(Failure(id.value, -1))
  }

  /** The parts of an incoming message that decide where it goes; `failed` if it has an error. */
  datatype Incoming = Incoming(id: Option<u32>, name: Option<string>, failed: bool)

  datatype Outcome =
    | Served(reply: Option<Reply>)
    | CalledBack(callback: nat, failed: bool)   // with the error, or with the body
    | Dropped
    | Panicked

  class Dispatcher {
    const methods: set<string>
    var calls: map<u32, nat>

    constructor (methods: set<string>)
      ensures this.methods == methods && calls == map[]
    {
      this.methods := methods;
      calls := map[];
    }

    method StoreCallback(id: u32, callback: nat)
      modifies this
      ensures calls == old(calls)[id := callback]
    {
      calls := calls[id := callback];
    }

    /**
     * `dispatch_with_partial`: requests never touch the pending calls, replies and errors use
     * up the callback stored under their id, and a message with neither method nor id is the
     * one that unwraps a missing id.
     */
    method Dispatch(message: Incoming, handling: Handling) returns (out: Outcome)
      modifies this
      ensures message.name.Some? ==>
        && calls == old(calls)
        && out == Served(Serve(message.id, message.name.value in methods, handling))
      ensures message.name.None? ==> calls == old(calls) - (if message.id.Some? then {message.id.value} else {})
      ensures out.Panicked? <==> message.name.None? && message.id.None?
      ensures message.name.None? && message.id.Some? ==>
        out == if message.id.value in old(calls) then CalledBack(old(calls)[message.id.value], message.failed)
               else Dropped
    {
      if message.name.Some? {
        out := Served(Serve(message.id, message.name.value in methods, handling));
      } else if message.id.None? {
        out := Panicked;
        assert calls == calls - {};
      } else if message.id.value in calls {
        out := CalledBack(calls[message.id.value], message.failed);
        calls := calls - {message.id.value};
      } else {
        out := Dropped;
        assert calls == calls - {message.id.value};
      }
    }
  }

  // ---------------------------------------------------------------------------------------
  // The calling side, its peer, and what is in flight between them
  // ---------------------------------------------------------------------------------------

  /** How far a `call` has got; `Abandoned` is the branch where sending fails. */
  datatype Phase = Numbered | Sent | Registered | Abandoned

  datatype Call = Call(id: u32, phase: Phase, answer: Option<Reply>)

  /** A request on its way, with the call it was made by (history; None for a notification). */
  datatype Request = Request(id: Option<u32>, maker: Option<nat>)

  /** A reply on its way, with the call its request was made by (history). */
  datatype Answer = Answer(reply: Reply, to: nat)

  /**
   * `taken` counts ids handed out and `pending` is the shared `calls` map, whose values stand
   * for the stored callbacks. `early` is history: calls whose reply was dispatched before
   * their callback was stored.
   */
  datatype State = State(
    taken: nat,
    calls: seq<Call>,
    pending: map<u32, nat>,
    requests: seq<Request>,
    serving: seq<Request>,
    replies: seq<Answer>,
    arrived: seq<Answer>,
    early: set<nat>,
    open: bool)

  const INIT: State := State(0, [], map[], [], [], [], [], {}, true)

  datatype Action =
    | Begin                                      // call takes an id and serializes
    | TakeIds(n: nat)                            // stream ids come from the same counter
    | Notify                                     // a message without an id is sent
    | Send(c: nat)                               // call c puts its request into the channel
    | Register(c: nat)                           // call c stores its callback
    | Deliver                                    // the peer dispatches the next request
    | Finish(k: nat, registered: bool, handling: Handling)   // the peer finishes request k
    | Arrive                                     // the next reply is dispatched
    | CloseChannel

  predicate Enabled(s: State, a: Action) {
    match a
    case Begin => true
    case TakeIds(_) => true
    case Notify => s.open
    case Send(c) => c < |s.calls| && s.calls[c].phase.Numbered?
    case Register(c) => c < |s.calls| && s.calls[c].phase.Sent?
    case Deliver => s.requests != []
    case Finish(k, _, _) => k < |s.serving|
    case Arrive => s.replies != []
    case CloseChannel => true
  }

  function Next(s: State, a: Action): State
    requires Enabled(s, a)
  {
    match a
    case Begin =>
      s.(taken := s.taken + 1, calls := s.calls + [Call(IdOf(s.taken), Numbered, None)])
    case TakeIds(n) => s.(taken := s.taken + n)
    case Notify => s.(requests := s.requests + [Request(None, None)])
    case Send(c) =>
      if s.open then
        s.(calls := s.calls[c := s.calls[c].(phase := Sent)],
           requests := s.requests + [Request(Some(s.calls[c].id), Some(c))])
      else s.(calls := s.calls[c := s.calls[c].(phase := Abandoned)])
    case Register(c) =>
      s.(calls := s.calls[c := s.calls[c].(phase := Registered)],
         pending := s.pending[s.calls[c].id := c])
    case Deliver =>
      s.(requests := s.requests[1..], serving := s.serving + [s.requests[0]])
    case Finish(k, registered, handling) =>
      var r := s.serving[k];
      var s' := s.(serving := s.serving[..k] + s.serving[k + 1..]);
      var reply := Serve(r.id, registered, handling);
      if reply.Some? && r.maker.Some?
      then s'.(replies := s.replies + [Answer(reply.value, r.maker.value)]) else s'
    case Arrive =>
      var answer := s.replies[0];
      var id := answer.reply.id;
      var s' := s.(replies := s.replies[1..], arrived := s.arrived + [answer],
                   early := if answer.to < |s.calls| && s.calls[answer.to].phase.Registered?
                            then s.early else s.early + {answer.to});
      if id in s.pending then
        var c := s.pending[id];
        s'.(pending := s.pending - {id},
            calls := if c < |s.calls| then s.calls[c := s.calls[c].(answer := Some(answer.reply))] else s.calls)
      else s'
    case CloseChannel => s.(open := false)
  }

  predicate IsRun(actions: seq<Action>)
    decreases |actions|, 0
  {
    actions != [] ==>
      IsRun(actions[..|actions| - 1])
      && Enabled(Exec(actions[..|actions| - 1]), actions[|actions| - 1])
  }

  function Exec(actions: seq<Action>): State
    requires IsRun(actions)
    decreases |actions|, 1
  {
    if actions == [] then INIT
    else Next(Exec(actions[..|actions| - 1]), actions[|actions| - 1])
  }

  // ---------------------------------------------------------------------------------------
  // The invariant
  // ---------------------------------------------------------------------------------------

  /** How many of the requests were made by call c. */
  function MadeBy(rs: seq<Request>, c: nat): nat {
    if rs == [] then 0 else (if rs[0].maker == Some(c) then 1 else 0) + MadeBy(rs[1..], c)
  }

  /** How many of the replies answer call c. */
  function SentTo(xs: seq<Answer>, c: nat): nat {
    if xs == [] then 0 else (if xs[0].to == c then 1 else 0) + SentTo(xs[1..], c)
  }

  lemma {:induction false} MadeByConcat(a: seq<Request>, b: seq<Request>, c: nat)
    ensures MadeBy(a + b, c) == MadeBy(a, c) + MadeBy(b, c)
  {
    if a == [] {
      assert a + b == b;
    } else {
      assert (a + b)[1..] == a[1..] + b;
      MadeByConcat(a[1..], b, c);
    }
  }

  lemma MadeBySnoc(rs: seq<Request>, r: Request, c: nat)
    ensures MadeBy(rs + [r], c) == MadeBy(rs, c) + if r.maker == Some(c) then 1 else 0
  {
    MadeByConcat(rs, [r], c);
    assert MadeBy([r], c) == (if r.maker == Some(c) then 1 else 0) + MadeBy([], c);
  }

  lemma MadeByWithout(rs: seq<Request>, k: nat, c: nat)
    requires k < |rs|
    ensures MadeBy(rs, c)
      == MadeBy(rs[..k] + rs[k + 1..], c) + if rs[k].maker == Some(c) then 1 else 0
  {
    assert rs == rs[..k] + [rs[k]] + rs[k + 1..];
    MadeByConcat(rs[..k] + [rs[k]], rs[k + 1..], c);
    MadeBySnoc(rs[..k], rs[k], c);
    MadeByConcat(rs[..k], rs[k + 1..], c);
  }

  lemma {:induction false} SentToSnoc(xs: seq<Answer>, x: Answer, c: nat)
    ensures SentTo(xs + [x], c) == SentTo(xs, c) + if x.to == c then 1 else 0
  {
    if xs == [] {
      assert xs + [x] == [x];
      assert SentTo([x], c) == (if x.to == c then 1 else 0) + SentTo([], c);
    } else {
      assert (xs + [x])[1..] == xs[1..] + [x];
      SentToSnoc(xs[1..], x, c);
    }
  }

  /** The traces of call c outside the caller: its request or its reply, wherever it is. */
  function Traces(s: State, c: nat): nat {
    MadeBy(s.requests, c) + MadeBy(s.serving, c) + SentTo(s.replies, c) + SentTo(s.arrived, c)
  }

  predicate WasSent(s: State, c: nat) {
    c < |s.calls| && (s.calls[c].phase.Sent? || s.calls[c].phase.Registered?)
  }

  predicate RequestOk(s: State, r: Request) {
    match r.maker
    case None => r.id.None?
    case Some(c) => c < |s.calls| && r.id == Some(s.calls[c].id)
  }

  predicate AnswerOk(s: State, a: Answer) {
    a.to < |s.calls| && a.reply.id == s.calls[a.to].id
  }

  ghost predicate IdsInv(s: State) {
    && |s.calls| <= s.taken
    && (forall c :: 0 <= c < |s.calls| ==> s.calls[c].id < s.taken)
    && (forall c, d :: 0 <= c < d < |s.calls| ==> s.calls[c].id < s.calls[d].id)
  }

  predicate RequestsOk(s: State, rs: seq<Request>) {
    forall i :: 0 <= i < |rs| ==> RequestOk(s, rs[i])
  }

  predicate AnswersOk(s: State, xs: seq<Answer>) {
    forall i :: 0 <= i < |xs| ==> AnswerOk(s, xs[i])
  }

  predicate InFlightOk(s: State) {
    RequestsOk(s, s.requests) && RequestsOk(s, s.serving) && AnswersOk(s, s.replies) && AnswersOk(s, s.arrived)
  }

  /** A call that was sent has left exactly one trace, any other none. */
  ghost predicate TracesOk(s: State) {
    forall c: nat :: Traces(s, c) == if WasSent(s, c) then 1 else 0
  }

  /** Whether the reply to call c was dispatched. */
  predicate ReplyArrived(s: State, c: nat) { SentTo(s.arrived, c) > 0 }

  predicate Waiting(s: State, c: nat)
    requires c < |s.calls|
  {
    s.calls[c].id in s.pending && s.pending[s.calls[c].id] == c
  }

  ghost predicate PendingOk(s: State) {
    forall id :: id in s.pending ==>
      && s.pending[id] < |s.calls|
      && s.calls[s.pending[id]].id == id
      && s.calls[s.pending[id]].phase.Registered?
  }

  predicate CallOk(s: State, c: nat)
    requires c < |s.calls|
  {
    var call := s.calls[c];
    && (call.answer.Some? <==> ReplyArrived(s, c) && c !in s.early)
    && (call.phase.Registered? ==> (Waiting(s, c) <==> call.answer.None?))
    && (call.answer.Some? ==> call.phase.Registered? && Answer(call.answer.value, c) in s.arrived)
  }

  ghost predicate EarlyOk(s: State) {
    forall c :: c in s.early ==> ReplyArrived(s, c)
  }

  ghost predicate Inv(s: State) {
    && IdsInv(s) && InFlightOk(s) && TracesOk(s) && PendingOk(s) && EarlyOk(s)
    && forall c :: 0 <= c < |s.calls| ==> CallOk(s, c)
  }

  /** At most 2^32 ids have been handed out. */
  predicate WithinIdSpace(s: State) { s.taken <= ID_SPACE }

  lemma ServeKeepsId(id: Option<u32>, registered: bool, handling: Handling)
    ensures Serve(id, registered, handling).Some? <==> id.Some?
    ensures id.Some? ==> Serve(id, registered, handling).value.id == id.value
    ensures id.Some? ==>
      var reply := Serve(id, registered, handling).value;
      && (reply.Success? <==> registered && handling.Succeeds?)
      && (reply.Success? ==> reply.result == handling.result)
      && (reply.Failure? ==> reply.code == if registered && handling.BadParams? then 0 else -1)
  {}

  lemma IdsStep(s: State, a: Action)
    requires IdsInv(s) && Enabled(s, a) && WithinIdSpace(Next(s, a))
    ensures IdsInv(Next(s, a))
  {}

  lemma TracesFinish(s: State, k: nat, registered: bool, handling: Handling, c: nat)
    requires InFlightOk(s) && k < |s.serving|
    ensures Traces(Next(s, Finish(k, registered, handling)), c) == Traces(s, c)
  {
    var r := s.serving[k];
    assert RequestOk(s, r);
    MadeByWithout(s.serving, k, c);
    ServeKeepsId(r.id, registered, handling);
    if r.maker.Some? {
      SentToSnoc(s.replies, Answer(Serve(r.id, registered, handling).value, r.maker.value), c);
    }
  }

  lemma TracesStep(s: State, a: Action, c: nat)
    requires InFlightOk(s) && Enabled(s, a)
    ensures Traces(Next(s, a), c) == Traces(s, c) + if a == Send(c) && s.open then 1 else 0
  {
    match a
    case Notify => MadeBySnoc(s.requests, Request(None, None), c);
    case Send(d) => MadeBySnoc(s.requests, Request(Some(s.calls[d].id), Some(d)), c);
    case Deliver => MadeBySnoc(s.serving, s.requests[0], c);
    case Finish(k, registered, handling) => TracesFinish(s, k, registered, handling, c);
    case Arrive => SentToSnoc(s.arrived, s.replies[0], c);
    case _ =>
  }

  lemma TracesOkStep(s: State, a: Action)
    requires InFlightOk(s) && TracesOk(s) && Enabled(s, a)
    ensures TracesOk(Next(s, a))
  {
    forall c: nat
      ensures Traces(Next(s, a), c) == if WasSent(Next(s, a), c) then 1 else 0
    {
      TracesStep(s, a, c);
      assert Traces(s, c) == if WasSent(s, c) then 1 else 0;
    }
  }

  /** What is in flight stays in order while calls are only added or change their phase. */
  lemma StillOk(s: State, s': State)
    requires InFlightOk(s)
    requires |s.calls| <= |s'.calls|
    requires forall c :: 0 <= c < |s.calls| ==> s.calls[c].id == s'.calls[c].id
    ensures RequestsOk(s', s.requests) && RequestsOk(s', s.serving)
    ensures AnswersOk(s', s.replies) && AnswersOk(s', s.arrived)
  {
    forall i | 0 <= i < |s.requests| ensures RequestOk(s', s.requests[i]) {
      assert RequestOk(s, s.requests[i]);
    }
    forall i | 0 <= i < |s.serving| ensures RequestOk(s', s.serving[i]) {
      assert RequestOk(s, s.serving[i]);
    }
  }

  lemma InFlightStep(s: State, a: Action)
    requires InFlightOk(s) && Enabled(s, a)
    ensures InFlightOk(Next(s, a))
  {
    var s' := Next(s, a);
    StillOk(s, s');
    match a
    case Finish(k, registered, handling) =>
      assert RequestOk(s, s.serving[k]);
      ServeKeepsId(s.serving[k].id, registered, handling);
    case _ =>
  }

  lemma EarlyStep(s: State, a: Action)
    requires EarlyOk(s) && Enabled(s, a)
    ensures EarlyOk(Next(s, a))
  {
    if a.Arrive? {
      forall c | c in Next(s, a).early ensures ReplyArrived(Next(s, a), c) {
        SentToSnoc(s.arrived, s.replies[0], c);
      }
    }
  }

  lemma PendingArrive(s: State)
    requires IdsInv(s) && PendingOk(s) && Enabled(s, Arrive)
    ensures PendingOk(Next(s, Arrive))
  {}

  lemma PendingRegister(s: State, c: nat)
    requires IdsInv(s) && PendingOk(s) && Enabled(s, Register(c))
    ensures PendingOk(Next(s, Register(c)))
  {}

  lemma PendingOther(s: State, a: Action)
    requires PendingOk(s) && Enabled(s, a) && !a.Arrive? && !a.Register?
    ensures PendingOk(Next(s, a))
  {}

  lemma PendingStep(s: State, a: Action)
    requires IdsInv(s) && PendingOk(s) && Enabled(s, a)
    ensures PendingOk(Next(s, a))
  {
    if a.Arrive? { PendingArrive(s); } else if a.Register? { PendingRegister(s, a.c); } else { PendingOther(s, a); }
  }

  /** The reply at the head of the line is the first one for its call. */
  lemma FirstArrival(s: State)
    requires TracesOk(s) && InFlightOk(s) && s.replies != []
    ensures var t := s.replies[0].to;
      t < |s.calls| && WasSent(s, t) && !ReplyArrived(s, t) && s.replies[0].reply.id == s.calls[t].id
  {
    var t := s.replies[0].to;
    assert AnswerOk(s, s.replies[0]);
    assert SentTo(s.replies, t) >= 1;
    assert Traces(s, t) <= 1;
  }

  lemma CallArrive(s: State, c: nat)
    requires Inv(s) && Enabled(s, Arrive) && c < |s.calls|
    ensures CallOk(Next(s, Arrive), c)
  {
    var t := s.replies[0].to;
    FirstArrival(s);
    SentToSnoc(s.arrived, s.replies[0], c);
    assert CallOk(s, c) && CallOk(s, t);
    assert s.calls[t].phase.Registered? ==> Waiting(s, t);
    assert !s.calls[t].phase.Registered? ==> s.calls[t].id !in s.pending;
    assert t !in s.early;
  }

  lemma BeginIsUntraced(s: State)
    requires TracesOk(s) && EarlyOk(s)
    ensures !ReplyArrived(s, |s.calls|) && |s.calls| !in s.early
  {
    assert !WasSent(s, |s.calls|);
    assert Traces(s, |s.calls|) == 0;
  }

  lemma CallStep(s: State, a: Action, c: nat)
    requires Inv(s) && Enabled(s, a) && WithinIdSpace(Next(s, a)) && c < |Next(s, a).calls|
    ensures CallOk(Next(s, a), c)
  {
    match a
    case Arrive => CallArrive(s, c);
    case Begin =>
      BeginIsUntraced(s);
      if c < |s.calls| { assert CallOk(s, c); }
    case _ => assert CallOk(s, c);
  }

  lemma InvStep(s: State, a: Action)
    requires Inv(s) && Enabled(s, a) && WithinIdSpace(Next(s, a))
    ensures Inv(Next(s, a))
  {
    IdsStep(s, a);
    InFlightStep(s, a);
    TracesOkStep(s, a);
    PendingStep(s, a);
    EarlyStep(s, a);
    forall c | 0 <= c < |Next(s, a).calls| ensures CallOk(Next(s, a), c) {
      CallStep(s, a, c);
    }
  }

  lemma {:induction false} InvAlways(actions: seq<Action>)
    requires IsRun(actions) && WithinIdSpace(Exec(actions))
    ensures Inv(Exec(actions))
  {
    if actions != [] {
      var front, a := actions[..|actions| - 1], actions[|actions| - 1];
      assert Exec(front).taken <= Exec(actions).taken;
      InvAlways(front);
      InvStep(Exec(front), a);
    }
  }

  // ---------------------------------------------------------------------------------------
  // Main results
  // ---------------------------------------------------------------------------------------

  lemma {:induction false} TracesAlways(actions: seq<Action>)
    requires IsRun(actions)
    ensures InFlightOk(Exec(actions)) && TracesOk(Exec(actions))
  {
    if actions != [] {
      var front, a := actions[..|actions| - 1], actions[|actions| - 1];
      TracesAlways(front);
      InFlightStep(Exec(front), a);
      TracesOkStep(Exec(front), a);
    }
  }

  /** A request gets at most one reply, which has its id, even after ids have repeated. */
  lemma AtMostOneReply(actions: seq<Action>, c: nat)
    requires IsRun(actions)
    ensures var s := Exec(actions);
      && SentTo(s.replies, c) + SentTo(s.arrived, c) <= 1
      && forall i :: 0 <= i < |s.arrived| && s.arrived[i].to == c ==>
           c < |s.calls| && s.arrived[i].reply.id == s.calls[c].id
  {
    TracesAlways(actions);
    var s := Exec(actions);
    assert Traces(s, c) <= 1;
    forall i | 0 <= i < |s.arrived| && s.arrived[i].to == c
      ensures c < |s.calls| && s.arrived[i].reply.id == s.calls[c].id
    {
      assert AnswerOk(s, s.arrived[i]);
    }
  }

  /** A call is answered by its own reply only. */
  lemma RepliesCorrelate(actions: seq<Action>, c: nat)
    requires IsRun(actions) && WithinIdSpace(Exec(actions))
    requires c < |Exec(actions).calls| && Exec(actions).calls[c].answer.Some?
    ensures var s := Exec(actions);
      Answer(s.calls[c].answer.value, c) in s.arrived && s.calls[c].answer.value.id == s.calls[c].id
  {
    InvAlways(actions);
    var s := Exec(actions);
    assert CallOk(s, c);
    var i :| 0 <= i < |s.arrived| && s.arrived[i] == Answer(s.calls[c].answer.value, c);
    assert AnswerOk(s, s.arrived[i]);
  }

  /** A pending call resolves once: an answer is never replaced. */
  lemma AnswerIsFinal(s: State, a: Action, c: nat)
    requires Inv(s) && Enabled(s, a) && c < |s.calls| && s.calls[c].answer.Some?
    ensures Next(s, a).calls[c].answer == s.calls[c].answer
  {
    assert CallOk(s, c);
    if a.Arrive? && s.replies[0].reply.id in s.pending {
      var d := s.pending[s.replies[0].reply.id];
      assert CallOk(s, d);
    }
  }

  /** The j-th action dispatches the reply to call c. */
  predicate ArrivesAt(actions: seq<Action>, j: nat, c: nat)
    requires IsRun(actions) && j < |actions|
  {
    RunPrefix(actions, j);
    actions[j].Arrive? && Exec(actions[..j]).replies[0].to == c
  }

  lemma {:induction false} RunPrefix(actions: seq<Action>, j: nat)
    requires IsRun(actions) && j < |actions|
    ensures IsRun(actions[..j]) && Enabled(Exec(actions[..j]), actions[j])
    decreases |actions|
  {
    var n := |actions| - 1;
    if j < n {
      RunPrefix(actions[..n], j);
      assert actions[..n][..j] == actions[..j];
    }
  }

  lemma PhaseStep(s: State, a: Action, c: nat)
    requires Enabled(s, a)
    ensures var s' := Next(s, a);
      c < |s'.calls| && s'.calls[c].phase.Registered?
      <==> (c < |s.calls| && s.calls[c].phase.Registered?) || a == Register(c)
  {}

  lemma {:induction false} PhaseFollowsRun(actions: seq<Action>, c: nat)
    requires IsRun(actions)
    ensures var s := Exec(actions);
      c < |s.calls| && s.calls[c].phase.Registered? <==> Register(c) in actions
  {
    if actions != [] {
      var front, a := actions[..|actions| - 1], actions[|actions| - 1];
      PhaseFollowsRun(front, c);
      PhaseStep(Exec(front), a, c);
      assert actions == front + [a];
    }
  }

  lemma ArrivalStep(s: State, a: Action, c: nat)
    requires Enabled(s, a)
    ensures var s' := Next(s, a);
      var now := a.Arrive? && s.replies[0].to == c;
      && (ReplyArrived(s', c) <==> ReplyArrived(s, c) || now)
      && (c in s'.early <==>
            c in s.early || (now && !(c < |s.calls| && s.calls[c].phase.Registered?)))
  {
    if a.Arrive? { SentToSnoc(s.arrived, s.replies[0], c); }
  }

  lemma ArrivesInPrefix(actions: seq<Action>, n: nat, j: nat, c: nat)
    requires IsRun(actions) && j < n < |actions|
    ensures IsRun(actions[..n]) && actions[..n][..j] == actions[..j]
    ensures ArrivesAt(actions, j, c) == ArrivesAt(actions[..n], j, c)
  {
    RunPrefix(actions, n);
    assert actions[..n][..j] == actions[..j];
  }

  ghost predicate HasArrival(actions: seq<Action>, c: nat)
    requires IsRun(actions)
  {
    exists j :: 0 <= j < |actions| && ArrivesAt(actions, j, c)
  }

  ghost predicate HasEarlyArrival(actions: seq<Action>, c: nat)
    requires IsRun(actions)
  {
    exists j :: 0 <= j < |actions| && ArrivesAt(actions, j, c) && Register(c) !in actions[..j]
  }

  lemma HasArrivalSnoc(actions: seq<Action>, n: nat, c: nat)
    requires IsRun(actions) && |actions| == n + 1 && IsRun(actions[..n])
    ensures HasArrival(actions, c) <==> HasArrival(actions[..n], c) || ArrivesAt(actions, n, c)
  {
    var front := actions[..n];
    if HasArrival(actions, c) {
      var j :| 0 <= j < |actions| && ArrivesAt(actions, j, c);
      if j < n { ArrivesInPrefix(actions, n, j, c); }
    }
    if HasArrival(front, c) {
      var j :| 0 <= j < n && ArrivesAt(front, j, c);
      ArrivesInPrefix(actions, n, j, c);
    }
  }

  lemma HasEarlyArrivalSnoc(actions: seq<Action>, n: nat, c: nat)
    requires IsRun(actions) && |actions| == n + 1 && IsRun(actions[..n])
    ensures HasEarlyArrival(actions, c) <==>
      HasEarlyArrival(actions[..n], c) || (ArrivesAt(actions, n, c) && Register(c) !in actions[..n])
  {
    var front := actions[..n];
    if HasEarlyArrival(actions, c) {
      var j :| 0 <= j < |actions| && ArrivesAt(actions, j, c) && Register(c) !in actions[..j];
      if j < n { ArrivesInPrefix(actions, n, j, c); }
    }
    if HasEarlyArrival(front, c) {
      var j :| 0 <= j < n && ArrivesAt(front, j, c) && Register(c) !in front[..j];
      ArrivesInPrefix(actions, n, j, c);
    }
  }

  lemma {:induction false} EarlyFollowsRun(actions: seq<Action>, c: nat)
    requires IsRun(actions)
    ensures c in Exec(actions).early <==> HasEarlyArrival(actions, c)
    ensures ReplyArrived(Exec(actions), c) <==> HasArrival(actions, c)
  {
    if actions != [] {
      var n := |actions| - 1;
      EarlyFollowsRun(actions[..n], c);
      PhaseFollowsRun(actions[..n], c);
      ArrivalStep(Exec(actions[..n]), actions[n], c);
      HasArrivalSnoc(actions, n, c);
      HasEarlyArrivalSnoc(actions, n, c);
      RunPrefix(actions, n);
    }
  }

  /**
   * A call is answered exactly when its reply was dispatched after its callback was stored.
   * `call` stores the callback only after sending the request, so the other order can happen.
   */
  lemma AnsweredExactly(actions: seq<Action>, c: nat)
    requires IsRun(actions) && WithinIdSpace(Exec(actions)) && c < |Exec(actions).calls|
    ensures Exec(actions).calls[c].answer.Some? <==>
      exists j :: 0 <= j < |actions| && ArrivesAt(actions, j, c) && Register(c) in actions[..j]
  {
    InvAlways(actions);
    EarlyFollowsRun(actions, c);
    var s := Exec(actions);
    assert CallOk(s, c);
    forall i, j | 0 <= i < |actions| && 0 <= j < |actions| && ArrivesAt(actions, i, c) && ArrivesAt(actions, j, c)
      ensures i == j
    {
      if i < j { ArrivesOnce(actions, i, j, c); }
      if j < i { ArrivesOnce(actions, j, i, c); }
    }
  }

  lemma ArrivesOnce(actions: seq<Action>, i: nat, j: nat, c: nat)
    requires IsRun(actions) && WithinIdSpace(Exec(actions)) && i < j < |actions|
    requires ArrivesAt(actions, i, c)
    ensures !ArrivesAt(actions, j, c)
  {
    RunPrefix(actions, j);
    var front := actions[..j];
    TakenGrows(actions, j);
    InvAlways(front);
    RunPrefix(front, i);
    assert front[..i] == actions[..i];
    assert ArrivesAt(front, i, c);
    EarlyFollowsRun(front, c);
    if actions[j].Arrive? { FirstArrival(Exec(front)); }
  }

  lemma TakenStep(s: State, a: Action)
    requires Enabled(s, a)
    ensures s.taken <= Next(s, a).taken
  {}

  lemma {:induction false} TakenGrows(actions: seq<Action>, j: nat)
    requires IsRun(actions) && j < |actions| && IsRun(actions[..j])
    ensures Exec(actions[..j]).taken <= Exec(actions).taken
    decreases |actions|
  {
    var n := |actions| - 1;
    TakenStep(Exec(actions[..n]), actions[n]);
    if j < n {
      assert actions[..n][..j] == actions[..j];
      TakenGrows(actions[..n], j);
    }
  }

  /** Once nothing is in flight, every registered call is answered but for the overtaken ones. */
  lemma AnsweredAtRest(actions: seq<Action>, c: nat)
    requires IsRun(actions) && WithinIdSpace(Exec(actions)) && c < |Exec(actions).calls|
    requires var s := Exec(actions);
      s.requests == [] && s.serving == [] && s.replies == [] && s.calls[c].phase.Registered?
    ensures var s := Exec(actions);
      && (s.calls[c].answer.Some? <==> c !in s.early)
      && (Waiting(s, c) <==> c in s.early)
  {
    InvAlways(actions);
    var s := Exec(actions);
    assert CallOk(s, c);
    assert Traces(s, c) == 1;
  }

  lemma EarlyStays(s: State, a: Action, c: nat)
    requires Enabled(s, a) && c in s.early
    ensures c in Next(s, a).early
  {}

  /** A call whose reply came too early is never answered, however the run goes on. */
  lemma {:induction false} OvertakenForGood(actions: seq<Action>, n: nat, c: nat)
    requires IsRun(actions) && n <= |actions| && IsRun(actions[..n])
    requires WithinIdSpace(Exec(actions)) && c in Exec(actions[..n]).early
    ensures var s := Exec(actions);
      && c in s.early && c < |s.calls| && s.calls[c].answer.None?
      && (s.calls[c].phase.Registered? ==> Waiting(s, c))
    decreases |actions|
  {
    InvAlways(actions);
    EarlySoFar(actions, n, c);
    var s := Exec(actions);
    assert Traces(s, c) >= 1 && WasSent(s, c);
    assert CallOk(s, c);
  }

  lemma {:induction false} EarlySoFar(actions: seq<Action>, n: nat, c: nat)
    requires IsRun(actions) && n <= |actions| && IsRun(actions[..n]) && c in Exec(actions[..n]).early
    ensures c in Exec(actions).early
    decreases |actions|
  {
    var last := |actions| - 1;
    if n == |actions| {
      assert actions[..n] == actions;
    } else {
      assert actions[..last][..n] == actions[..n];
      EarlySoFar(actions[..last], n, c);
      EarlyStays(Exec(actions[..last]), actions[last], c);
    }
  }

  lemma Extend(before: seq<Action>, s: State, a: Action) returns (actions: seq<Action>, s': State)
    requires IsRun(before) && Exec(before) == s && Enabled(s, a)
    ensures IsRun(actions) && Exec(actions) == s' == Next(s, a)
  {
    actions, s' := before + [a], Next(s, a);
    assert actions[..|before|] == before;
  }

  lemma OneCallSent() returns (actions: seq<Action>, s: State)
    ensures IsRun(actions) && Exec(actions) == s
    ensures s == INIT.(taken := 1, calls := [Call(0, Sent, None)], requests := [Request(Some(0), Some(0))])
  {
    s := INIT;
    actions := [];
    actions, s := Extend(actions, s, Begin);
    assert s.calls == [Call(0, Numbered, None)];
    actions, s := Extend(actions, s, Send(0));
    assert s.calls == [Call(0, Sent, None)] && s.requests == [Request(Some(0), Some(0))];
  }

  /** The peer dispatches the first request, finishes it and replies. */
  lemma PeerAnswersFirst(before: seq<Action>, s: State, r: Request) returns (actions: seq<Action>, s': State)
    requires IsRun(before) && Exec(before) == s && r.id.Some? && r.maker.Some?
    requires |s.requests| > 0 && s.requests[0] == r && s.serving == [] && s.replies == []
    ensures IsRun(actions) && Exec(actions) == s'
    ensures s' == s.(requests := s.requests[1..], replies := [Answer(Success(r.id.value, 7), r.maker.value)])
  {
    actions, s' := Extend(before, s, Deliver);
    assert s'.serving == [r];
    actions, s' := Extend(actions, s', Finish(0, true, Succeeds(7)));
    assert s'.serving == [];
    assert s'.replies == [Answer(Success(r.id.value, 7), r.maker.value)];
  }

  /** The reply overtakes the callback: the call is never answered and its entry never leaves. */
  lemma OvertakenCallIsLost() returns (actions: seq<Action>)
    ensures IsRun(actions) && WithinIdSpace(Exec(actions))
    ensures var s := Exec(actions);
      && |s.calls| == 1 && s.calls[0].phase.Registered? && s.calls[0].answer.None? && Waiting(s, 0)
      && s.requests == [] && s.serving == [] && s.replies == [] && |s.arrived| == 1
  {
    var s;
    actions, s := OneCallSent();
    actions, s := PeerAnswersFirst(actions, s, s.requests[0]);
    actions, s := Extend(actions, s, Arrive);
    assert s.replies == [] && |s.arrived| == 1 && s.calls == [Call(0, Sent, None)];
    actions, s := Extend(actions, s, Register(0));
  }

  lemma SecondCallSent() returns (actions: seq<Action>, s: State)
    ensures IsRun(actions) && Exec(actions) == s && s.taken == ID_SPACE + 1
    ensures s.calls == [Call(0, Registered, None), Call(0, Numbered, None)]
    ensures s.requests == [Request(Some(0), Some(0))] && s.pending == map[0 := 0]
    ensures s.serving == [] && s.replies == [] && s.arrived == [] && s.open
  {
    actions, s := OneCallSent();
    actions, s := Extend(actions, s, Register(0));
    assert s.calls == [Call(0, Registered, None)];
    actions, s := Extend(actions, s, TakeIds(ID_SPACE - 1));
    actions, s := Extend(actions, s, Begin);
  }

  lemma SecondRegistered(before: seq<Action>, s: State) returns (actions: seq<Action>, s': State)
    requires IsRun(before) && Exec(before) == s
    requires s.calls == [Call(0, Registered, None), Call(0, Sent, None)] && s.pending == map[0 := 0]
    ensures IsRun(actions) && Exec(actions) == s'
    ensures s' == s.(calls := [Call(0, Registered, None), Call(0, Registered, None)], pending := map[0 := 1])
  {
    actions, s' := Extend(before, s, Register(1));
    assert s'.calls == [Call(0, Registered, None), Call(0, Registered, None)] && s'.pending == map[0 := 1];
  }

  lemma TwoCallsRegistered() returns (actions: seq<Action>, s: State)
    ensures IsRun(actions) && Exec(actions) == s && s.taken == ID_SPACE + 1
    ensures s.calls == [Call(0, Registered, None), Call(0, Registered, None)] && s.pending == map[0 := 1]
    ensures |s.requests| == 2 && s.requests[0] == Request(Some(0), Some(0))
    ensures s.serving == [] && s.replies == [] && s.arrived == []
  {
    actions, s := SecondCallSent();
    actions, s := Extend(actions, s, Send(1));
    assert s.calls == [Call(0, Registered, None), Call(0, Sent, None)] && s.pending == map[0 := 0];
    actions, s := SecondRegistered(actions, s);
  }

  /** Once ids repeat, a call can be answered with the reply to another call's request. */
  lemma RepeatedIdMisroutes() returns (actions: seq<Action>)
    ensures IsRun(actions) && Exec(actions).taken == ID_SPACE + 1
    ensures var s := Exec(actions);
      && |s.calls| == 2 && s.arrived == [Answer(Success(0, 7), 0)]
      && s.calls[0].answer.None? && s.calls[1].answer == Some(Success(0, 7))
  {
    var s;
    actions, s := TwoCallsRegistered();
    actions, s := PeerAnswersFirst(actions, s, Request(Some(0), Some(0)));
    assert s.replies == [Answer(Success(0, 7), 0)] && s.arrived == [];
    actions, s := Extend(actions, s, Arrive);
  }
}
