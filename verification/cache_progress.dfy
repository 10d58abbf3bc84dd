/**
 * Calls of `create` come to their end: whatever has happened, a call that is still running can
 * return the entry, and what a dead call left behind goes with the next one that stages.
 */
module CacheProgress {
  import opened StagingNames
  import opened CacheProtocol

  /** A step of p in which nothing fails. */
  predicate Proceeds(a: Action, p: nat) {
    && Acts(a, p) && !a.Fail? && !a.Cancel? && !a.Crash? && !a.CreateErr? && !a.ListFails?
    && (a.ReapOne? || a.DropStaging? ==> a.removed)
  }

  /** The run goes on with such steps of p and q only. */
  predicate GoesOn(before: seq<Action>, actions: seq<Action>, p: nat, q: nat) {
    before <= actions
    && forall i :: |before| <= i < |actions| ==> Proceeds(actions[i], p) || Proceeds(actions[i], q)
  }

  /** What a call that holds its lock is going to return, unless something fails. */
  function Outcome(pc: Pc): Result {
    if pc.Dropping? || pc.Unlocking? || pc.Returned? then pc.result else Ok
  }

  function Phase(pc: Pc): nat {
    match pc
    case Locked => 7
    case Absent => 6
    case Reaping(_, _) => 5
    case Reaped(_) => 4
    case Creating(_, _) => 3
    case Renaming(_, _, _) => 2
    case Dropping(_, _, _) => 1
    case _ => 0
  }

  function Todo(pc: Pc): nat { if pc.Reaping? then |pc.todo| else 0 }

  // ---------------------------------------------------------------------------------------
  // What a call brings with it on its way
  // ---------------------------------------------------------------------------------------

  /** Either it is still to look, or the target is there. */
  predicate Targets(s: State, p: nat)
    requires At(s, p)
  {
    s.calls[p].pc.Locked? || Stages(s.calls[p].pc) || s.calls[p].name in s.dirs
  }

  /** Either the place is free for what it stages, or that is in its place. */
  predicate Delivers(s: State, p: nat)
    requires At(s, p)
  {
    var name := s.calls[p].name;
    if Stages(s.calls[p].pc) then Free(s, name) else name in s.dirs && s.dirs[name] == Staged(p, true)
  }

  /** Either it failed to remove nothing so far, or no staging directory of the entry is left. */
  predicate Tidies(s: State, p: nat)
    requires At(s, p)
  {
    var pc := s.calls[p].pc;
    if Stages(pc) || pc.Dropping? then KeptBy(pc) == {} else Matching(s, s.calls[p].name) == {}
  }

  lemma TargetsStep(names: set<string>, s: State, a: Action, p: nat)
    requires Plain(names) && Inv(names, s) && Enabled(names, s, a) && Proceeds(a, p)
    requires a.RenameFails? ==> !Free(s, s.calls[p].name)
    requires Holds(s.calls[p].pc) && Targets(s, p)
    ensures Targets(Next(names, s, a), p)
  {
    assert HolderOk(s, p);
    if a.DropStaging? { PlainReap(names, s.calls[p].name, s.calls[p].name, s.calls[p].pc.uuid); }
  }

  lemma DeliversStep(names: set<string>, s: State, a: Action, p: nat)
    requires Plain(names) && Inv(names, s) && Enabled(names, s, a) && Proceeds(a, p) && !a.RenameFails?
    requires Holds(s.calls[p].pc) && !s.calls[p].pc.Locked? && Delivers(s, p)
    ensures Delivers(Next(names, s, a), p)
  {
    assert HolderOk(s, p);
    var name := s.calls[p].name;
    assert !Reaps(name, name);
    forall uuid | IsUuid(uuid) ensures Staging(name, uuid) != name {
      PlainReap(names, name, name, uuid);
    }
  }

  lemma TidiesStep(names: set<string>, s: State, a: Action, p: nat)
    requires Plain(names) && Inv(names, s) && Enabled(names, s, a) && Proceeds(a, p)
    requires Holds(s.calls[p].pc) && !s.calls[p].pc.Locked? && Tidies(s, p)
    ensures Tidies(Next(names, s, a), p)
  {
    assert HolderOk(s, p);
  }

  // ---------------------------------------------------------------------------------------
  // The next step
  // ---------------------------------------------------------------------------------------

  lemma LongerThanAll(texts: set<string>) returns (n: nat)
    ensures forall t :: t in texts ==> |t| < n
  {
    n := 0;
    if texts != {} {
      var t :| t in texts;
      n := LongerThanAll(texts - {t});
      n := if |t| < n then n else |t| + 1;
    }
  }

  lemma FreshUuid(s: State, name: string) returns (uuid: string)
    ensures IsUuid(uuid) && Staging(name, uuid) !in s.dirs
  {
    var n := LongerThanAll(s.dirs.Keys);
    uuid := seq(n, _ => '0');
    assert |Staging(name, uuid)| >= n;
  }

  /** A step for whoever holds a lock. */
  lemma HolderCan(names: set<string>, s: State, p: nat) returns (a: Action)
    requires Plain(names) && Inv(names, s) && At(s, p) && Holds(s.calls[p].pc)
    ensures Proceeds(a, p) && Enabled(names, s, a)
    ensures a.RenameFails? ==> !Free(s, s.calls[p].name)
  {
    assert HolderOk(s, p);
    match s.calls[p].pc
    case Locked => a := Recheck(p);
    case Absent => a := List(p);
    case Reaping(todo, _) =>
      if todo == {} {
        a := ReapDone(p);
      } else {
        var d :| d in todo;
        a := ReapOne(p, d, true);
      }
    case Reaped(_) =>
      var uuid := FreshUuid(s, s.calls[p].name);
      a := MakeDir(p, uuid);
    case Creating(_, _) => a := CreateOk(p);
    case Renaming(_, _, _) => a := if Free(s, s.calls[p].name) then Rename(p) else RenameFails(p);
    case Dropping(_, _, _) => a := DropStaging(p, true);
    case Unlocking(_) => a := Unlock(p);
  }

  /** Any such step brings it nearer to its end. */
  lemma StepIsNearer(names: set<string>, s: State, a: Action, p: nat)
    requires Enabled(names, s, a) && Proceeds(a, p) && Holds(s.calls[p].pc)
    requires a.RenameFails? ==> !Free(s, s.calls[p].name)
    ensures var pc, pc' := s.calls[p].pc, Next(names, s, a).calls[p].pc;
      && Outcome(pc') == Outcome(pc)
      && if Holds(pc') then Phase(pc') < Phase(pc) || (Phase(pc') == Phase(pc) && Todo(pc') < Todo(pc))
         else pc' == Returned(Outcome(pc))
  {
    if a.ReapOne? {
      ReapIsNearer(names, s, a, p);
    } else {
      OtherIsNearer(names, s, a, p);
    }
  }

  lemma ReapIsNearer(names: set<string>, s: State, a: Action, p: nat)
    requires Enabled(names, s, a) && Proceeds(a, p) && a.ReapOne?
    ensures var pc, pc' := s.calls[p].pc, Next(names, s, a).calls[p].pc;
      pc.Reaping? && pc'.Reaping? && |pc'.todo| < |pc.todo|
  {}

  lemma OtherIsNearer(names: set<string>, s: State, a: Action, p: nat)
    requires Enabled(names, s, a) && Proceeds(a, p) && Holds(s.calls[p].pc) && !a.ReapOne?
    requires a.RenameFails? ==> !Free(s, s.calls[p].name)
    ensures var pc, pc' := s.calls[p].pc, Next(names, s, a).calls[p].pc;
      && Outcome(pc') == Outcome(pc)
      && if Holds(pc') then Phase(pc') < Phase(pc) else pc' == Returned(Outcome(pc))
  {}

  /** From the call's point of view, the run `before` can be completed to `actions`. */
  ghost predicate Completes(names: set<string>, before: seq<Action>, actions: seq<Action>, p: nat)
    requires IsRun(names, before) && IsRun(names, actions) && At(Exec(names, before), p)
  {
    var s, t := Exec(names, before), Exec(names, actions);
    var name, pc := s.calls[p].name, s.calls[p].pc;
    && t.calls == s.calls[p := Call(name, Returned(Outcome(pc)))]
    && t.locks == s.locks - {name}
    && (Targets(s, p) ==> name in t.dirs)
    && (!pc.Locked? && Delivers(s, p) ==> name in t.dirs && t.dirs[name] == Staged(p, true))
    && (!pc.Locked? && Tidies(s, p) ==> Matching(t, name) == {})
  }

  lemma CompletedLater(names: set<string>, before: seq<Action>, a: Action, actions: seq<Action>, p: nat)
    requires Plain(names) && IsRun(names, before) && IsRun(names, before + [a]) && IsRun(names, actions)
    requires var s := Exec(names, before);
      && Inv(names, s) && Enabled(names, s, a) && Exec(names, before + [a]) == Next(names, s, a)
      && Proceeds(a, p) && Holds(s.calls[p].pc)
      && (a.RenameFails? ==> !Free(s, s.calls[p].name))
      && Outcome(Next(names, s, a).calls[p].pc) == Outcome(s.calls[p].pc)
    requires if Holds(Exec(names, before + [a]).calls[p].pc) then Completes(names, before + [a], actions, p)
      else actions == before + [a] && Exec(names, actions).calls[p].pc.Returned?
    ensures Completes(names, before, actions, p)
  {
    var s := Exec(names, before);
    Moves(names, s, a, p);
    if Targets(s, p) { TargetsStep(names, s, a, p); }
    if !s.calls[p].pc.Locked? && Delivers(s, p) { DeliversStep(names, s, a, p); }
    if !s.calls[p].pc.Locked? && Tidies(s, p) { TidiesStep(names, s, a, p); }
  }

  /**
   * Whoever holds a lock can give it back by steps of its own in which nothing fails, and returns
   * Ok with the target in place, unless it is already on its way out.
   */
  lemma {:induction false} HolderReturns(names: set<string>, before: seq<Action>, p: nat)
    returns (actions: seq<Action>)
    requires Plain(names) && IsRun(names, before)
    requires At(Exec(names, before), p) && Holds(Exec(names, before).calls[p].pc)
    ensures IsRun(names, actions) && GoesOn(before, actions, p, p) && Completes(names, before, actions, p)
    decreases Phase(Exec(names, before).calls[p].pc), Todo(Exec(names, before).calls[p].pc)
  {
    var s := Exec(names, before);
    InvAlways(names, before);
    var a := HolderCan(names, s, p);
    StepIsNearer(names, s, a, p);
    var one, t := Extend(names, before, s, a);
    if Holds(t.calls[p].pc) {
      actions := HolderReturns(names, one, p);
    } else {
      actions := one;
    }
    CompletedLater(names, before, a, actions, p);
  }

  // ---------------------------------------------------------------------------------------
  // Any call that is still running
  // ---------------------------------------------------------------------------------------

  lemma GoesOnTwice(a: seq<Action>, b: seq<Action>, c: seq<Action>, p: nat, q: nat)
    requires GoesOn(a, b, p, q) && GoesOn(b, c, p, q)
    ensures GoesOn(a, c, p, q)
  {}

  /** A call that waits gets its lock as soon as the one that has it, if any, has returned. */
  lemma WaiterLocks(names: set<string>, before: seq<Action>, p: nat) returns (actions: seq<Action>, q: nat)
    requires Plain(names) && IsRun(names, before)
    requires At(Exec(names, before), p) && Exec(names, before).calls[p].pc.Waiting?
    ensures IsRun(names, actions) && GoesOn(before, actions, p, q)
    ensures var s, t := Exec(names, before), Exec(names, actions);
      var name := s.calls[p].name;
      && At(t, p) && t.calls[p] == Call(name, Locked)
      && (if name in s.locks then q == s.locks[name] else q == p && t.dirs == s.dirs)
  {
    var s := Exec(names, before);
    var name := s.calls[p].name;
    LocksAlways(names, before);
    actions, q := before, p;
    if name in s.locks {
      q := s.locks[name];
      actions := HolderReturns(names, before, q);
    }
    var t := Exec(names, actions);
    assert t.calls[p] == s.calls[p] && name !in t.locks;
    actions, t := Extend(names, actions, t, TryLock(p));
  }

  lemma LookedCallCanReturn(names: set<string>, before: seq<Action>, p: nat) returns (actions: seq<Action>, q: nat)
    requires Plain(names) && IsRun(names, before) && At(Exec(names, before), p)
    requires var s := Exec(names, before); var pc := s.calls[p].pc;
      pc.Waiting? || Holds(pc) || (pc == Returned(Ok) && s.calls[p].name in s.dirs)
    ensures var s := Exec(names, before);
      q == p || (s.calls[p].name in s.locks && q == s.locks[s.calls[p].name])
    ensures IsRun(names, actions) && GoesOn(before, actions, p, q)
    ensures var s, t := Exec(names, before), Exec(names, actions);
      var name, pc := s.calls[p].name, s.calls[p].pc;
      && At(t, p) && t.calls[p] == Call(name, Returned(Outcome(pc)))
      && (!pc.Dropping? && !pc.Unlocking? ==> name in t.dirs)
  {
    actions, q := before, p;
    if Exec(names, before).calls[p].pc.Waiting? {
      actions, q := WaiterLocks(names, before, p);
    }
    if Holds(Exec(names, actions).calls[p].pc) {
      var done := HolderReturns(names, actions, p);
      GoesOnTwice(before, actions, done, p, q);
      actions := done;
    }
  }

  /**
   * Whatever has happened so far, a call that did not give up itself and did not crash can return
   * Ok with its target in place, by steps of its own and of whoever has its lock, none failing.
   */
  lemma AnyCallCanReturn(names: set<string>, before: seq<Action>, p: nat) returns (actions: seq<Action>, q: nat)
    requires Plain(names) && IsRun(names, before) && At(Exec(names, before), p)
    requires var pc := Exec(names, before).calls[p].pc; !pc.Returned? && !pc.Dead?
    ensures var s := Exec(names, before);
      q == p || (s.calls[p].name in s.locks && q == s.locks[s.calls[p].name])
    ensures IsRun(names, actions) && GoesOn(before, actions, p, q)
    ensures var s, t := Exec(names, before), Exec(names, actions);
      var name, pc := s.calls[p].name, s.calls[p].pc;
      && At(t, p) && t.calls[p] == Call(name, Returned(Outcome(pc)))
      && (!pc.Dropping? && !pc.Unlocking? ==> name in t.dirs)
  {
    actions := before;
    if Exec(names, before).calls[p].pc.Started? {
      var s;
      actions, s := Extend(names, before, Exec(names, before), FirstCheck(p));
    }
    var looked := actions;
    actions, q := LookedCallCanReturn(names, looked, p);
    GoesOnTwice(before, looked, actions, p, q);
  }

  /** A new call for an entry that is not there and not locked looks twice and has the lock. */
  lemma NewcomerLooks(names: set<string>, before: seq<Action>, q: nat, name: string) returns (actions: seq<Action>)
    requires IsRun(names, before)
    requires var s := Exec(names, before); !At(s, q) && name in names && name !in s.dirs && name !in s.locks
    ensures IsRun(names, actions) && GoesOn(before + [Begin(q, name)], actions, q, q)
    ensures var s, t := Exec(names, before), Exec(names, actions);
      t.dirs == s.dirs && At(t, q) && t.calls[q] == Call(name, Absent)
  {
    var t;
    actions, t := CheckedAgain(names, before, Exec(names, before), q, name);
    OwnStepsOnly(before + [Begin(q, name)], [FirstCheck(q), TryLock(q), Recheck(q)], q);
    assert actions == before + [Begin(q, name)] + [FirstCheck(q), TryLock(q), Recheck(q)];
  }

  lemma OwnStepsOnly(before: seq<Action>, more: seq<Action>, q: nat)
    requires forall i :: 0 <= i < |more| ==> Proceeds(more[i], q)
    ensures GoesOn(before, before + more, q, q)
  {}

  /** A call that dies while it stages leaves its lock free and its directory behind. */
  lemma DeathLeaves(names: set<string>, s: State, p: nat)
    requires Plain(names) && Inv(names, s) && At(s, p)
    requires s.calls[p].pc.Creating? || s.calls[p].pc.Renaming?
    ensures Enabled(names, s, Crash(p))
    ensures var t := Next(names, s, Crash(p));
      && t.dirs == s.dirs && s.calls[p].name !in t.locks && t.calls.Keys == s.calls.Keys
      && Staging(s.calls[p].name, s.calls[p].pc.uuid) in t.dirs
  {
    assert HolderOk(s, p);
  }

  /**
   * A call dies while it stages. Its lock is free and its directory stays; the next call for the
   * entry, if nothing fails in it, removes the directory and installs what it staged itself.
   */
  lemma DeadAttemptIsReaped(names: set<string>, before: seq<Action>, p: nat, q: nat)
    returns (dead: seq<Action>, actions: seq<Action>)
    requires Plain(names) && IsRun(names, before) && At(Exec(names, before), p) && !At(Exec(names, before), q)
    requires var call := Exec(names, before).calls[p];
      (call.pc.Creating? || call.pc.Renaming?) && call.name !in Exec(names, before).dirs
    ensures dead == before + [Crash(p)] && IsRun(names, dead)
    ensures var s, t := Exec(names, before), Exec(names, dead);
      t.dirs == s.dirs && Staging(s.calls[p].name, s.calls[p].pc.uuid) in t.dirs
    ensures IsRun(names, actions) && GoesOn(dead + [Begin(q, Exec(names, before).calls[p].name)], actions, q, q)
    ensures var name, t := Exec(names, before).calls[p].name, Exec(names, actions);
      && At(t, q) && t.calls[q] == Call(name, Returned(Ok))
      && name in t.dirs && t.dirs[name] == Staged(q, true) && Matching(t, name) == {}
  {
    var s := Exec(names, before);
    var name := s.calls[p].name;
    InvAlways(names, before);
    DeathLeaves(names, s, p);
    var t;
    dead, t := Extend(names, before, s, Crash(p));
    var absent := NewcomerLooks(names, dead, q, name);
    actions := HolderReturns(names, absent, q);
    GoesOnTwice(dead + [Begin(q, name)], absent, actions, q, q);
  }
}
