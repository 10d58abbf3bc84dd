/**
 * The calling side as objects: the id counter and the dispatcher with its map of callbacks, and
 * a scheduler whose every step is a step of the calls of `RpcCalls`.
 */
module RpcClient {
  import opened Common
  import opened RpcCalls

  class Client {
    const counter: IdCounter
    const dispatcher: Dispatcher
    var rest: State

    /** The callbacks are in the dispatcher's map, and nowhere else. */
    ghost predicate Valid()
      reads this, counter
    {
      rest.pending == map[] && counter.value == IdOf(rest.taken)
    }

    /** The state of the model that this heap stands for. */
    ghost function View(): State
      reads this, dispatcher
    {
      rest.(pending := dispatcher.calls)
    }

    constructor (methods: set<string>)
      ensures Valid() && fresh(counter) && fresh(dispatcher) && View() == INIT
    {
      counter := new IdCounter();
      dispatcher := new Dispatcher(methods);
      rest := INIT;
    }

    /** The first part of `call`: an id of its own. */
    method Begin()
      requires Valid()
      modifies this, counter
      ensures Valid() && View() == Next(old(View()), RpcCalls.Begin)
    {
      var id := counter.Next(rest.taken);
      rest := rest.(taken := rest.taken + 1, calls := rest.calls + [Call(id, Numbered, None)]);
    }

    /** The ids of streams. */
    method TakeIds(n: nat)
      requires Valid()
      modifies this, counter
      ensures Valid() && View() == Next(old(View()), RpcCalls.TakeIds(n))
    {
      var _ := counter.TakeMany(n, rest.taken);
      rest := rest.(taken := rest.taken + n);
    }

    /** The last part of `call`: the callback is stored under the id. */
    method Register(c: nat)
      requires Valid() && Enabled(View(), RpcCalls.Register(c))
      modifies this, dispatcher
      ensures Valid() && View() == Next(old(View()), RpcCalls.Register(c))
    {
      dispatcher.StoreCallback(rest.calls[c].id, c);
      rest := rest.(calls := rest.calls[c := rest.calls[c].(phase := Registered)]);
    }

    /** The next reply goes through the dispatcher, which calls the callback back, if there is one. */
    method Arrive()
      requires Valid() && Enabled(View(), RpcCalls.Arrive)
      modifies this, dispatcher
      ensures Valid() && View() == Next(old(View()), RpcCalls.Arrive)
    {
      var answer := rest.replies[0];
      var known := answer.to < |rest.calls| && rest.calls[answer.to].phase.Registered?;
      rest := rest.(replies := rest.replies[1..], arrived := rest.arrived + [answer],
                    early := if known then rest.early else rest.early + {answer.to});
      var out := dispatcher.Dispatch(Incoming(Some(answer.reply.id), None, answer.reply.Failure?), BadParams);
      if out.CalledBack? {
        assert out.failed == answer.reply.Failure?;
        var c := out.callback;
        if c < |rest.calls| {
          rest := rest.(calls := rest.calls[c := rest.calls[c].(answer := Some(answer.reply))]);
        }
      } else {
        assert dispatcher.calls == old(dispatcher.calls);
      }
    }

    /** Steps that do not look at the map of callbacks. */
    method Elsewhere(action: Action)
      requires Valid() && Enabled(View(), action)
      requires action.Notify? || action.Send? || action.Deliver? || action.Finish? || action.CloseChannel?
      modifies this
      ensures Valid() && View() == Next(old(View()), action)
    {
      rest := Next(rest, action);
    }

    method Perform(action: Action)
      requires Valid() && Enabled(View(), action)
      modifies this, counter, dispatcher
      ensures Valid() && View() == Next(old(View()), action)
    {
      match action {
        case Begin => Begin();
        case TakeIds(n) => TakeIds(n);
        case Register(c) => Register(c);
        case Arrive => Arrive();
        case _ => Elsewhere(action);
      }
    }

    /** A whole run, starting from nothing. */
    method Run(actions: seq<Action>)
      requires Valid() && View() == INIT && IsRun(actions)
      modifies this, counter, dispatcher
      ensures Valid() && View() == Exec(actions)
    {
      var i := 0;
      assert actions[..0] == [];
      while i < |actions|
        invariant 0 <= i <= |actions|
        invariant Valid() && IsRun(actions[..i]) && View() == Exec(actions[..i])
      {
        RunPrefix(actions, i);
        assert actions[..i + 1][..i] == actions[..i];
        Perform(actions[i]);
        i := i + 1;
      }
      assert actions[..i] == actions;
    }
  }
}
