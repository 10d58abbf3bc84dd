/**
 * What becomes of calls: when nothing moves any more all of them are resolved, every call can
 * get its answer, and the answer is what the peer made of the call's own request.
 */
module RpcProgress {
  import opened Common
  import opened RpcCalls

  /** A step of a `call` that was begun, of the peer or of the dispatcher. */
  predicate Moves(a: Action) {
    a.Send? || a.Register? || a.Deliver? || a.Finish? || a.Arrive?
  }

  ghost predicate Quiet(s: State) {
    forall a :: Moves(a) ==> !Enabled(s, a)
  }

  /** The reply came after the callback was stored, before it, or there was never a request. */
  predicate Resolved(s: State, c: nat)
    requires c < |s.calls|
  {
    || s.calls[c].phase.Abandoned?
    || (s.calls[c].phase.Registered? && (s.calls[c].answer.Some? <==> c !in s.early))
  }

  lemma QuietMeansResolved(s: State)
    requires Inv(s) && Quiet(s)
    ensures s.requests == [] && s.serving == [] && s.replies == []
    ensures forall c :: 0 <= c < |s.calls| ==> Resolved(s, c)
  {
    assert Moves(Deliver) && Moves(Finish(0, false, Fails)) && Moves(Arrive);
    assert !Enabled(s, Deliver) && !Enabled(s, Finish(0, false, Fails)) && !Enabled(s, Arrive);
    forall c | 0 <= c < |s.calls| ensures Resolved(s, c) {
      assert Moves(Send(c)) && !Enabled(s, Send(c)) && Moves(Register(c)) && !Enabled(s, Register(c));
      assert CallOk(s, c) && Traces(s, c) == if WasSent(s, c) then 1 else 0;
    }
  }

  // ---------------------------------------------------------------------------------------
  // Nothing moves for ever
  // ---------------------------------------------------------------------------------------

  function CallWork(call: Call): nat {
    match call.phase
    case Numbered => 5
    case Sent => 1
    case _ => 0
  }

  function CallsWork(calls: seq<Call>): nat {
    if calls == [] then 0 else CallWork(calls[0]) + CallsWork(calls[1..])
  }

  lemma {:induction false} CallsWorkUpdate(calls: seq<Call>, c: nat, call: Call)
    requires c < |calls|
    ensures CallsWork(calls[c := call]) + CallWork(calls[c]) == CallsWork(calls) + CallWork(call)
  {
    var after := calls[c := call];
    if c > 0 {
      assert after[1..] == calls[1..][c - 1 := call];
      CallsWorkUpdate(calls[1..], c - 1, call);
    } else {
      assert after[1..] == calls[1..];
    }
  }

  /** The steps that are left at most. */
  function Work(s: State): nat {
    CallsWork(s.calls) + 3 * |s.requests| + 2 * |s.serving| + |s.replies|
  }

  lemma WorkDecreases(s: State, a: Action)
    requires Enabled(s, a) && Moves(a)
    ensures Work(Next(s, a)) < Work(s)
  {
    match a
    case Send(c) => CallsWorkUpdate(s.calls, c, Next(s, a).calls[c]);
    case Register(c) => CallsWorkUpdate(s.calls, c, Next(s, a).calls[c]);
    case Arrive => AnswerIsNoWork(s);
    case _ =>
  }

  lemma AnswerIsNoWork(s: State)
    requires Enabled(s, Arrive)
    ensures CallsWork(Next(s, Arrive).calls) == CallsWork(s.calls)
  {
    var id := s.replies[0].reply.id;
    if id in s.pending && s.pending[id] < |s.calls| {
      CallsWorkUpdate(s.calls, s.pending[id], Next(s, Arrive).calls[s.pending[id]]);
    }
  }

  predicate AllMove(before: seq<Action>, actions: seq<Action>) {
    before <= actions && forall i :: |before| <= i < |actions| ==> Moves(actions[i])
  }

  lemma Furthered(before: seq<Action>, s: State, a: Action) returns (actions: seq<Action>, s': State)
    requires IsRun(before) && Exec(before) == s && Enabled(s, a) && Moves(a)
    ensures IsRun(actions) && AllMove(before, actions) && Exec(actions) == s' == Next(s, a)
    ensures s'.taken == s.taken
  {
    actions, s' := before + [a], Next(s, a);
    assert actions[..|before|] == before;
  }

  /** Once a callback is stored, the reply can no longer be too early. */
  predicate Safe(s: State, c: nat) {
    c < |s.calls| && s.calls[c].phase.Registered? && c !in s.early
  }

  lemma StaysSafe(s: State, a: Action, c: nat)
    requires Enabled(s, a) && Safe(s, c)
    ensures Safe(Next(s, a), c)
  {
    PhaseStep(s, a, c);
    ArrivalStep(s, a, c);
  }

  /** Any run can be carried on, with steps of this kind only, until none is left to take. */
  lemma {:induction false} CanComeToRest(before: seq<Action>, c: nat) returns (actions: seq<Action>)
    requires IsRun(before)
    ensures IsRun(actions) && AllMove(before, actions) && Quiet(Exec(actions))
    ensures Exec(actions).taken == Exec(before).taken
    ensures Safe(Exec(before), c) ==> Safe(Exec(actions), c)
    decreases Work(Exec(before))
  {
    var s := Exec(before);
    actions := before;
    if !Quiet(s) {
      var a :| Moves(a) && Enabled(s, a);
      var one, t := Furthered(before, s, a);
      WorkDecreases(s, a);
      if Safe(s, c) { StaysSafe(s, a, c); }
      actions := CanComeToRest(one, c);
    }
  }

  /**
   * Whatever has happened so far, a call can get its answer, unless the channel was closed before
   * its request was sent or its reply overtook the callback.
   */
  lemma AnyCallCanBeAnswered(before: seq<Action>, c: nat) returns (actions: seq<Action>)
    requires IsRun(before) && WithinIdSpace(Exec(before))
    requires var s := Exec(before);
      && c < |s.calls| && !s.calls[c].phase.Abandoned? && c !in s.early
      && (s.calls[c].phase.Numbered? ==> s.open)
    ensures IsRun(actions) && AllMove(before, actions)
    ensures c < |Exec(actions).calls| && Exec(actions).calls[c].answer.Some?
  {
    var s := Exec(before);
    actions := before;
    if s.calls[c].phase.Numbered? {
      actions, s := Furthered(actions, s, Send(c));
    }
    if s.calls[c].phase.Sent? {
      actions, s := Furthered(actions, s, Register(c));
    }
    actions := CanComeToRest(actions, c);
    InvAlways(actions);
    QuietMeansResolved(Exec(actions));
    assert Resolved(Exec(actions), c);
  }

  // ---------------------------------------------------------------------------------------
  // What the answer says
  // ---------------------------------------------------------------------------------------

  /** The j-th action finishes the request of the call that this answers, with this reply. */
  predicate MadeAt(actions: seq<Action>, j: nat, x: Answer)
    requires IsRun(actions) && j < |actions|
  {
    RunPrefix(actions, j);
    && actions[j].Finish?
    && Exec(actions[..j]).serving[actions[j].k].maker == Some(x.to)
    && Serve(Some(x.reply.id), actions[j].registered, actions[j].handling) == Some(x.reply)
  }

  ghost predicate Made(actions: seq<Action>, x: Answer)
    requires IsRun(actions)
  {
    exists j :: 0 <= j < |actions| && MadeAt(actions, j, x)
  }

  lemma MadeBefore(actions: seq<Action>, n: nat, x: Answer)
    requires IsRun(actions) && |actions| == n + 1 && IsRun(actions[..n]) && Made(actions[..n], x)
    ensures Made(actions, x)
  {
    var j :| 0 <= j < n && MadeAt(actions[..n], j, x);
    assert actions[..n][..j] == actions[..j];
    assert MadeAt(actions, j, x);
  }

  /** Every reply, on its way or dispatched, is what the peer made of a request. */
  lemma {:induction false} RepliesAreMade(actions: seq<Action>, x: Answer)
    requires IsRun(actions) && (x in Exec(actions).replies || x in Exec(actions).arrived)
    ensures Made(actions, x)
  {
    var n := |actions| - 1;
    var front, a := actions[..n], actions[n];
    var s := Exec(front);
    if x in s.replies || x in s.arrived {
      RepliesAreMade(front, x);
      MadeBefore(actions, n, x);
    } else {
      TracesAlways(front);
      assert RequestOk(s, s.serving[a.k]);
      ServeKeepsId(s.serving[a.k].id, a.registered, a.handling);
      RunPrefix(actions, n);
      assert MadeAt(actions, n, x);
    }
  }

  /** The answer of a call is the reply that the peer made when it finished that call's request. */
  lemma AnswerIsThePeers(actions: seq<Action>, c: nat)
    requires IsRun(actions) && WithinIdSpace(Exec(actions))
    requires c < |Exec(actions).calls| && Exec(actions).calls[c].answer.Some?
    ensures Made(actions, Answer(Exec(actions).calls[c].answer.value, c))
  {
    RepliesCorrelate(actions, c);
    RepliesAreMade(actions, Answer(Exec(actions).calls[c].answer.value, c));
  }
}
