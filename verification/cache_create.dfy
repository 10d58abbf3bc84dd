/**
 * `DownloadCache::create` itself: the lock loop, the reaping loop and the rename loop, working on
 * shared directories and lock files that other processes change between any two of its steps.
 */
module CacheCreate {
  import opened StagingNames
  import opened CacheProtocol

  const LOCK_WAIT_INITIAL_DELAY: nat := 200
  const LOCK_WAIT_MAX_DELAY: nat := 2000

  /** The k-th wait for the lock, in milliseconds. */
  function WaitAt(k: nat): (delay: nat)
    ensures LOCK_WAIT_INITIAL_DELAY <= delay <= LOCK_WAIT_MAX_DELAY
  {
    if k == 0 then LOCK_WAIT_INITIAL_DELAY
    else
      var twice := 2 * WaitAt(k - 1);
      if twice < LOCK_WAIT_MAX_DELAY then twice else LOCK_WAIT_MAX_DELAY
  }

  /** The waits double from 200 ms on, and stay at 2 s from the fifth. */
  lemma {:induction false} WaitsLevelOff(k: nat)
    ensures WaitAt(k) == if k < 4 then [200, 400, 800, 1600][k] else LOCK_WAIT_MAX_DELAY
  {
    if k > 0 { WaitsLevelOff(k - 1); }
  }

  /**
   * What happens just before a step of the call: other processes make these steps, as far as they
   * can, and then the step works, if it can, or does not. `dropped` is for the waits of the
   * rename loop, in which the future may be dropped.
   */
  datatype Moment = Moment(others: seq<Action>, works: bool, dropped: bool)

  /** The moments of a run, one after the other; how many waits the caller puts up with. */
  datatype Fate = Fate(moments: nat -> Moment, patience: nat, uuid: string, created: Result)

  /** Nobody interferes and nothing fails. */
  ghost predicate Smooth(fate: Fate) {
    && (forall n :: fate.moments(n).others == [] && fate.moments(n).works)
    && fate.created == Ok
  }

  /** From moment `from` on and before moment `to`, something the call does fails. */
  ghost predicate SomeFail(fate: Fate, from: nat, to: nat) {
    exists n :: from <= n < to && !fate.moments(n).works
  }

  /** In one of these moments the future is dropped. */
  ghost predicate SomeDrop(fate: Fate, from: nat, to: nat) {
    exists n :: from <= n < to && fate.moments(n).dropped
  }

  /** Every attempt since `from` worked, and after each the call waited as long as it should. */
  ghost predicate Waited(fate: Fate, from: nat, to: nat, waits: seq<nat>) {
    && to == from + |waits| && |waits| <= fate.patience
    && (forall n :: from <= n < to ==> fate.moments(n).works)
    && (forall i :: 0 <= i < |waits| ==> waits[i] == WaitAt(i))
  }

  lemma WaitOnce(fate: Fate, from: nat, to: nat, waits: seq<nat>)
    requires Waited(fate, from, to, waits)
    ensures |waits| < fate.patience && fate.moments(to).works ==>
      Waited(fate, from, to + 1, waits + [WaitAt(|waits|)])
    ensures WaitAt(|waits| + 1) ==
      if 2 * WaitAt(|waits|) < LOCK_WAIT_MAX_DELAY then 2 * WaitAt(|waits|) else LOCK_WAIT_MAX_DELAY
  {}

  /** What an attempt to get the lock that works, or does not, can lead to. */
  predicate Tried(s: State, p: nat, name: string, works: bool)
    requires At(s, p)
  {
    match s.calls[p].pc
    case Waiting => works && name in s.locks && name !in s.dirs
    case Locked => works && name in s.locks && s.locks[name] == p
    case Returned(Ok) => works && name in s.locks && name in s.dirs
    case Returned(Err) => !works
    case _ => false
  }

  /** And the loop, whose last attempt works or does not. */
  predicate Awaited(s: State, p: nat, name: string, works: bool, patienceEnds: bool)
    requires At(s, p)
  {
    match s.calls[p].pc
    case Locked => works && name in s.locks && s.locks[name] == p
    case Returned(Ok) => works && name in s.dirs
    case Returned(Err) => !works
    case Returned(Cancelled) => works && patienceEnds && name in s.locks && name !in s.dirs
    case _ => false
  }

  /** A step of somebody else. */
  predicate Foreign(a: Action, p: nat) { !a.Evict? && !a.Plant? ==> a.p != p }

  lemma ForeignStep(names: set<string>, s: State, a: Action, p: nat)
    requires At(s, p) && Enabled(names, s, a) && Foreign(a, p)
    ensures At(Next(names, s, a), p) && Next(names, s, a).calls[p] == s.calls[p]
  {}

  /** Nobody else touches what the holder of a lock relies on. */
  lemma ForeignIsHarmless(names: set<string>, s: State, a: Action, p: nat)
    requires Plain(names) && Inv(names, s) && Enabled(names, s, a) && Foreign(a, p)
    requires At(s, p) && Holds(s.calls[p].pc)
    ensures Harmless(s, Next(names, s, a), s.calls[p].name)
  {
    if a.Evict? || a.Plant? {
      OutsideUndisturbed(names, s, a, s.calls[p].name);
    } else if !a.Begin? {
      ActorIsHarmless(names, s, a, a.p, p);
    }
  }

  lemma ActorIsHarmless(names: set<string>, s: State, a: Action, q: nat, p: nat)
    requires Plain(names) && Inv(names, s) && Enabled(names, s, a) && Acts(a, q)
    requires At(s, p) && p != q && Holds(s.calls[p].pc)
    ensures Harmless(s, Next(names, s, a), s.calls[p].name)
  {
    assert HolderOk(s, q);
    if Holds(s.calls[q].pc) {
      OtherEntriesUndisturbed(names, s, a, q, s.calls[p].name);
    }
  }

  lemma HarmlessTwice(s: State, t: State, u: State, name: string)
    requires Harmless(s, t, name) && Harmless(t, u, name)
    ensures Harmless(s, u, name)
  {}

  lemma OnlyFailedAreLeft(names: set<string>, log: seq<Action>, p: nat)
    requires Plain(names) && IsRun(names, log) && At(Exec(names, log), p) && Exec(names, log).calls[p].pc.Reaped?
    ensures var s := Exec(names, log);
      forall d :: d in s.dirs && Reaps(s.calls[p].name, d) ==> FailedToRemove(log, p, d)
  {
    InvAlways(names, log);
    var s := Exec(names, log);
    assert HolderOk(s, p);
    forall d | d in s.dirs && Reaps(s.calls[p].name, d) ensures FailedToRemove(log, p, d) {
      KeptFailed(names, log, p, d);
    }
  }

  lemma HolderAlways(names: set<string>, log: seq<Action>, p: nat)
    requires Plain(names) && IsRun(names, log) && At(Exec(names, log), p)
    ensures Inv(names, Exec(names, log)) && HolderOk(Exec(names, log), p)
  {
    InvAlways(names, log);
  }

  /** The call goes on from staging to dropping its guards, with the same directories. */
  predicate DropsAs(before: Pc, after: Pc)
    requires before.Creating? || before.Renaming?
  {
    after.Dropping? && after.uuid == before.uuid && after.kept == before.kept
  }

  /** The rename is done, by the call or by somebody else. */
  predicate Renamed(pc: Pc) { pc.Dropping? && pc.result == Ok }

  /** After so many attempts: to be tried again, done, or failed for the last time. */
  predicate Attempts(before: Pc, after: Pc, attempts: nat)
    requires before.Renaming?
  {
    if after.Renaming? then attempts <= 20 && after == before.(attempt := attempts)
    else DropsAs(before, after) && if after.result == Err then attempts == 21 else after.result == Ok
  }

  /** After an attempt that works or not, the target is there exactly if the rename is done. */
  ghost predicate Attempted(names: set<string>, s: State, p: nat, name: string, works: bool)
    requires At(s, p)
  {
    if Renamed(s.calls[p].pc)
    then name in s.dirs && (Plain(names) ==> s.dirs[name] == Staged(p, true) || s.dirs[name].Planted?)
    else name !in s.dirs && (Plain(names) ==> !works)
  }

  /** Causes of an error: do_create or one of the call's own steps; of giving up: the caller. */
  ghost predicate Accounted(fate: Fate, r: Result, from: nat, to: nat) {
    match r
    case Ok => true
    case Err => fate.created == Err || SomeFail(fate, from, to)
    case Cancelled => fate.created == Cancelled || SomeDrop(fate, from, to)
  }

  lemma ReturnedHoldsNothing(names: set<string>, log: seq<Action>, p: nat)
    requires IsRun(names, log) && At(Exec(names, log), p) && Exec(names, log).calls[p].pc.Returned?
    ensures var s := Exec(names, log); forall name :: name in s.locks ==> s.locks[name] != p
  {
    LocksAlways(names, log);
  }

  lemma RunOn(names: set<string>, log: seq<Action>, a: Action)
    requires IsRun(names, log) && Enabled(names, Exec(names, log), a)
    ensures IsRun(names, log + [a]) && Exec(names, log + [a]) == Next(names, Exec(names, log), a)
  {
    assert (log + [a])[..|log|] == log;
  }

  class Cache {
    const names: set<string>
    var dirs: map<string, Content>
    var locks: map<string, nat>
    var calls: map<nat, Call>
    var clock: nat                   // the number of moments so far
    ghost var log: seq<Action>

    constructor (names: set<string>)
      ensures this.names == names && Valid() && log == [] && clock == 0
    {
      this.names := names;
      dirs, locks, calls, clock, log := map[], map[], map[], 0, [];
    }

    function View(): State
      reads this
    {
      State(dirs, locks, calls)
    }

    /** Everything that happened so far is a run of the protocol. */
    ghost predicate Valid()
      reads this
    {
      IsRun(names, log) && Exec(names, log) == View()
    }

    ghost predicate Is(p: nat, name: string, pc: Pc)
      reads this
    {
      Valid() && p in calls && calls[p] == Call(name, pc)
    }

    method Do(a: Action)
      requires Valid() && Enabled(names, View(), a)
      modifies this
      ensures Valid() && View() == Next(names, old(View()), a)
      ensures log == old(log) + [a] && clock == old(clock)
    {
      RunOn(names, log, a);
      var s := Next(names, View(), a);
      dirs, locks, calls := s.dirs, s.locks, s.calls;
      log := log + [a];
    }

    /**
     * The next moment. Other processes go on, as far as they can; the call of p stays where it is,
     * and if it holds its lock, then so does everything it relies on.
     */
    method Interfere(p: nat, fate: Fate) returns (now: Moment)
      requires Valid()
      modifies this
      ensures Valid() && old(log) <= log
      ensures now == fate.moments(old(clock)) && clock == old(clock) + 1
      ensures p in old(calls) ==> p in calls && calls[p] == old(calls[p])
      ensures Plain(names) && p in old(calls) && Holds(old(calls[p].pc)) ==>
        Harmless(old(View()), View(), old(calls[p].name))
      ensures Smooth(fate) ==> View() == old(View())
    {
      now := fate.moments(clock);
      for i := 0 to |now.others|
        invariant Valid() && old(log) <= log && clock == old(clock)
        invariant p in old(calls) ==> p in calls && calls[p] == old(calls[p])
        invariant Plain(names) && p in old(calls) && Holds(old(calls[p].pc)) ==>
          Harmless(old(View()), View(), old(calls[p].name))
        invariant Smooth(fate) ==> View() == old(View())
      {
        var a := now.others[i];
        if Enabled(names, View(), a) && Foreign(a, p) {
          ghost var s := View();
          if p in calls { ForeignStep(names, s, a, p); }
          if Plain(names) && p in old(calls) && Holds(old(calls[p].pc)) {
            InvAlways(names, log);
            ForeignIsHarmless(names, s, a, p);
            HarmlessTwice(old(View()), s, Next(names, s, a), old(calls[p].name));
          }
          Do(a);
        }
      }
      clock := clock + 1;
    }

    /** One round of the lock loop; the call is waiting still if somebody else has the lock. */
    method TryOnce(p: nat, name: string, fate: Fate)
      requires Is(p, name, Waiting)
      modifies this
      ensures p in calls && Is(p, name, calls[p].pc) && old(log) <= log
      ensures clock == old(clock) + 1
      ensures Tried(View(), p, name, fate.moments(old(clock)).works)
      ensures Smooth(fate) && name !in old(locks) ==> calls[p].pc == Locked && dirs == old(dirs)
    {
      var now := Interfere(p, fate);
      if now.works {
        Do(TryLock(p));
      } else {
        Do(Fail(p));
      }
    }

    /**
     * Tries to get the lock, and otherwise waits longer and longer, until it has the lock or the
     * target is there. It fails only if an attempt itself does, and gives up only if the caller does.
     */
    method AwaitLock(p: nat, name: string, fate: Fate) returns (waits: seq<nat>)
      requires Is(p, name, Waiting)
      modifies this
      ensures p in calls && Is(p, name, calls[p].pc) && old(log) <= log
      ensures old(clock) < clock && Waited(fate, old(clock), clock - 1, waits)
      ensures Awaited(View(), p, name, fate.moments(clock - 1).works, |waits| == fate.patience)
      ensures Smooth(fate) && name !in old(locks) ==> calls[p].pc == Locked && dirs == old(dirs)
    {
      waits := [];
      var delay := LOCK_WAIT_INITIAL_DELAY;
      ghost var easy, start := Smooth(fate) && name !in locks, clock;
      while true
        invariant Is(p, name, Waiting) && old(log) <= log
        invariant Waited(fate, start, clock, waits) && delay == WaitAt(|waits|)
        invariant easy ==> waits == [] && View() == old(View())
        decreases fate.patience - |waits|
      {
        WaitOnce(fate, start, clock, waits);
        TryOnce(p, name, fate);
        if calls[p].pc != Waiting { return; }
        if |waits| == fate.patience {
          Do(Cancel(p));
          return;
        }
        waits := waits + [delay];
        delay := if 2 * delay < LOCK_WAIT_MAX_DELAY then 2 * delay else LOCK_WAIT_MAX_DELAY;
      }
    }

    /** Lists the directories that match, or fails to. */
    method ListOrphans(p: nat, name: string, fate: Fate) returns (listed: bool)
      requires Is(p, name, Absent)
      modifies this
      ensures p in calls && Is(p, name, calls[p].pc) && old(log) <= log
      ensures clock == old(clock) + 1 && listed == fate.moments(old(clock)).works
      ensures if listed then calls[p].pc == Reaping(Matching(View(), name), {})
        else calls[p].pc == Reaped(Matching(View(), name))
      ensures Smooth(fate) ==>
        listed && calls[p].pc == Reaping(Matching(old(View()), name), {}) && dirs == old(dirs)
    {
      var now := Interfere(p, fate);
      listed := now.works;
      if listed {
        Do(List(p));
      } else {
        Do(ListFails(p));
      }
    }

    /** Tries to remove one of the directories listed. */
    method RemoveNext(p: nat, name: string, fate: Fate) returns (d: string)
      requires p in calls && Is(p, name, calls[p].pc) && calls[p].pc.Reaping? && calls[p].pc.todo != {}
      modifies this
      ensures p in calls && Is(p, name, calls[p].pc) && calls[p].pc.Reaping? && old(log) <= log
      ensures d in old(calls[p].pc.todo) && calls[p].pc.todo == old(calls[p].pc.todo) - {d}
      ensures clock == old(clock) + 1
      ensures if fate.moments(old(clock)).works then calls[p].pc.kept == old(calls[p].pc.kept) && d !in dirs
        else calls[p].pc.kept == old(calls[p].pc.kept) + {d}
      ensures Smooth(fate) ==> dirs == old(dirs) - {d}
    {
      d :| d in calls[p].pc.todo;
      var now := Interfere(p, fate);
      Do(ReapOne(p, d, now.works));
    }

    /**
     * Goes once over the directories that match and removes them, where it can. Whatever others do
     * meanwhile, those that are there afterwards are those it failed to remove.
     */
    method RemoveOrphans(p: nat, name: string, fate: Fate)
      requires Is(p, name, Absent)
      modifies this
      ensures p in calls && Is(p, name, calls[p].pc) && calls[p].pc.Reaped? && old(log) <= log
      ensures old(clock) < clock && (calls[p].pc.kept == {} || SomeFail(fate, old(clock), clock))
      ensures Plain(names) ==> forall d :: d in dirs && Reaps(name, d) ==> FailedToRemove(log, p, d)
      ensures Smooth(fate) ==> dirs == old(dirs) - Matching(old(View()), name)
    {
      var listed := ListOrphans(p, name, fate);
      if listed { RemoveListed(p, name, fate); }
      if Plain(names) { OnlyFailedAreLeft(names, log, p); }
    }

    /** Tries to remove all directories that were listed. */
    method RemoveListed(p: nat, name: string, fate: Fate)
      requires p in calls && Is(p, name, calls[p].pc) && calls[p].pc.Reaping?
      modifies this
      ensures p in calls && Is(p, name, calls[p].pc) && calls[p].pc.Reaped? && old(log) <= log
      ensures old(clock) <= clock
      ensures calls[p].pc.kept == old(calls[p].pc.kept) || SomeFail(fate, old(clock), clock)
      ensures Smooth(fate) ==> dirs == old(dirs) - old(calls[p].pc.todo)
    {
      ghost var pc, before, start := calls[p].pc, dirs, clock;
      while calls[p].pc.todo != {}
        invariant p in calls && Is(p, name, calls[p].pc) && calls[p].pc.Reaping? && old(log) <= log
        invariant start <= clock && (calls[p].pc.kept == pc.kept || SomeFail(fate, start, clock))
        invariant calls[p].pc.todo <= pc.todo
        invariant Smooth(fate) ==> dirs == before - (pc.todo - calls[p].pc.todo)
        decreases calls[p].pc.todo
      {
        var _ := RemoveNext(p, name, fate);
        assert !fate.moments(clock - 1).works ==> SomeFail(fate, start, clock);
      }
      Do(ReapDone(p));
    }

    /** One attempt at the rename; afterwards the call is to try again or drops its guards. */
    method RenameOnce(p: nat, name: string, fate: Fate, attempt: nat) returns (dropped: bool)
      requires p in calls && Is(p, name, calls[p].pc) && calls[p].pc.Renaming? && calls[p].pc.attempt == attempt
      requires attempt <= 20
      modifies this
      ensures p in calls && Is(p, name, calls[p].pc) && old(log) <= log
      ensures clock == old(clock) + 1 && dropped == fate.moments(old(clock)).dropped
      ensures Attempts(old(calls[p].pc), calls[p].pc, attempt + 1)
      ensures Attempted(names, View(), p, name, fate.moments(old(clock)).works)
      ensures var staged := Staging(name, old(calls[p].pc.uuid));
        Smooth(fate) && name !in old(dirs) && staged in old(dirs) ==>
          Renamed(calls[p].pc) && name in dirs && dirs[name] == old(dirs)[staged]
    {
      var now := Interfere(p, fate);
      if Plain(names) { HolderAlways(names, log, p); }
      if now.works && Free(View(), name) && Staging(name, calls[p].pc.uuid) in dirs {
        Do(Rename(p));
      } else {
        Do(RenameFails(p));
      }
      dropped := now.dropped;
    }

    /** Renames, trying again up to twenty times as long as nobody else has made the target. */
    method RenameRetrying(p: nat, name: string, fate: Fate) returns (attempts: nat)
      requires p in calls && Is(p, name, calls[p].pc) && calls[p].pc.Renaming? && calls[p].pc.attempt == 0
      modifies this
      ensures p in calls && Is(p, name, calls[p].pc) && old(log) <= log
      ensures calls[p].pc.Dropping? && DropsAs(old(calls[p].pc), calls[p].pc)
      ensures 0 < attempts <= 21 && clock == old(clock) + attempts
      ensures Plain(names) ==> forall n :: old(clock) <= n < clock - 1 ==> !fate.moments(n).works
      ensures match calls[p].pc.result
        case Ok => name in dirs && (Plain(names) ==> dirs[name] == Staged(p, true) || dirs[name].Planted?)
        case Err => attempts == 21 && name !in dirs && (Plain(names) ==> !fate.moments(clock - 1).works)
        case Cancelled => fate.moments(clock - 1).dropped && name !in dirs
      ensures var staged := Staging(name, old(calls[p].pc.uuid));
        Smooth(fate) && name !in old(dirs) && staged in old(dirs) ==>
          attempts == 1 && calls[p].pc.result == Ok && name in dirs && dirs[name] == old(dirs)[staged]
    {
      var dropped := RenameOnce(p, name, fate, 0);
      attempts := 1;
      if calls[p].pc.Renaming? && !dropped {
        attempts := RenameAgain(p, name, fate);
      }
      if calls[p].pc.Renaming? { Do(Cancel(p)); }
    }

    /** The attempts after the first one, until the rename is done, the last one failed or a drop. */
    method RenameAgain(p: nat, name: string, fate: Fate) returns (attempts: nat)
      requires p in calls && Is(p, name, calls[p].pc) && calls[p].pc.Renaming? && calls[p].pc.attempt == 1
      requires clock > 0 && !fate.moments(clock - 1).dropped
      requires Attempted(names, View(), p, name, fate.moments(clock - 1).works)
      modifies this
      ensures p in calls && Is(p, name, calls[p].pc) && old(log) <= log
      ensures 1 < attempts <= 21 && clock == old(clock) + attempts - 1
      ensures Attempts(old(calls[p].pc), calls[p].pc, attempts)
      ensures Attempted(names, View(), p, name, fate.moments(clock - 1).works)
      ensures Plain(names) ==> forall n :: old(clock) - 1 <= n < clock - 1 ==> !fate.moments(n).works
      ensures calls[p].pc.Renaming? ==> fate.moments(clock - 1).dropped
    {
      ghost var pc, start := calls[p].pc, clock;
      var dropped := false;
      attempts := 1;
      while calls[p].pc.Renaming? && !dropped
        invariant 0 < attempts <= 21 && clock == start + attempts - 1 && old(log) <= log
        invariant p in calls && Is(p, name, calls[p].pc) && dropped == fate.moments(clock - 1).dropped
        invariant Plain(names) ==> forall n :: start - 1 <= n < clock - 1 ==> !fate.moments(n).works
        invariant Attempts(pc, calls[p].pc, attempts)
        invariant Attempted(names, View(), p, name, fate.moments(clock - 1).works)
        invariant attempts == 1 ==> calls[p].pc.Renaming? && !dropped
        decreases if calls[p].pc.Renaming? then 21 - attempts else 0
      {
        dropped := RenameOnce(p, name, fate, attempts);
        attempts := attempts + 1;
      }
    }

    /** Makes the staging directory, which fails if there is one of that name. */
    method MakeStaging(p: nat, name: string, fate: Fate) returns (made: bool)
      requires p in calls && Is(p, name, calls[p].pc) && calls[p].pc.Reaped? && IsUuid(fate.uuid)
      modifies this
      ensures p in calls && Is(p, name, calls[p].pc) && old(log) <= log
      ensures clock == old(clock) + 1
      ensures if made then calls[p].pc == Creating(old(calls[p].pc.kept), fate.uuid)
        else calls[p].pc == Unlocking(Err) && (Staging(name, fate.uuid) in dirs || !fate.moments(old(clock)).works)
      ensures Plain(names) && old(calls[p].pc.kept) == {} && fate.moments(old(clock)).works ==> made
      ensures var staged := Staging(name, fate.uuid);
        Smooth(fate) && staged !in old(dirs) ==> made && dirs == old(dirs)[staged := Staged(p, false)]
    {
      var now := Interfere(p, fate);
      if Plain(names) {
        HolderAlways(names, log, p);
        PlainReap(names, name, name, fate.uuid);
      }
      made := now.works && Staging(name, fate.uuid) !in dirs;
      if made {
        Do(MakeDir(p, fate.uuid));
      } else {
        Do(Fail(p));
      }
    }

    /** Awaits do_create and renames what it made, or does not get that far. */
    method Stage(p: nat, name: string, fate: Fate)
      requires p in calls && Is(p, name, calls[p].pc) && calls[p].pc.Creating?
      modifies this
      ensures p in calls && Is(p, name, calls[p].pc) && old(log) <= log
      ensures calls[p].pc.Dropping? && DropsAs(old(calls[p].pc), calls[p].pc) && old(clock) < clock
      ensures fate.created != Ok ==> calls[p].pc.result == fate.created
      ensures fate.created == Ok ==>
        match calls[p].pc.result
        case Ok => name in dirs
        case Err => clock == old(clock) + 22 && (Plain(names) ==> SomeFail(fate, old(clock), clock))
        case Cancelled => SomeDrop(fate, old(clock), clock)
      ensures var staged := Staging(name, old(calls[p].pc.uuid));
        Smooth(fate) && name !in old(dirs) && staged in old(dirs) ==>
          calls[p].pc.result == Ok && name in dirs && dirs[name] == Staged(p, true)
    {
      var _ := Interfere(p, fate);
      match fate.created {
        case Ok =>
          Do(CreateOk(p));
          var _ := RenameRetrying(p, name, fate);
        case Err => Do(CreateErr(p));
        case Cancelled => Do(Cancel(p));
      }
    }

    /** The end of the scope: the staging guard goes first, then the lock guard. */
    method DropGuards(p: nat, name: string, fate: Fate)
      requires p in calls && Is(p, name, calls[p].pc) && (calls[p].pc.Unlocking? || calls[p].pc.Dropping?)
      modifies this
      ensures Is(p, name, Returned(old(calls[p].pc.result))) && old(log) <= log
      ensures old(clock) < clock && name !in locks
      ensures Plain(names) && old(calls[p].pc.Dropping?) && fate.moments(old(clock)).works ==>
        forall d :: d in dirs && Reaps(name, d) ==> d in old(KeptBy(calls[p].pc)) && FailedToRemove(log, p, d)
      ensures Smooth(fate) && name in old(dirs) ==> name in dirs && dirs[name] == old(dirs)[name]
    {
      if calls[p].pc.Dropping? {
        var now := Interfere(p, fate);
        DropStagingDirectory(p, name, now.works);
      }
      GiveLockBack(p, name, fate);
    }

    /** What the lock guard does; meanwhile nobody adds a directory that matches. */
    method GiveLockBack(p: nat, name: string, fate: Fate)
      requires p in calls && Is(p, name, calls[p].pc) && calls[p].pc.Unlocking?
      modifies this
      ensures Is(p, name, Returned(old(calls[p].pc.result))) && old(log) <= log
      ensures clock == old(clock) + 1 && name !in locks
      ensures Plain(names) ==> forall d :: d in dirs && Reaps(name, d) ==> d in old(dirs)
      ensures Smooth(fate) ==> dirs == old(dirs)
    {
      var _ := Interfere(p, fate);
      Do(Unlock(p));
    }

    /** What the staging guard does; of the directories that match, only those kept before may be left. */
    method DropStagingDirectory(p: nat, name: string, works: bool)
      requires p in calls && Is(p, name, calls[p].pc) && calls[p].pc.Dropping?
      modifies this
      ensures Is(p, name, Unlocking(old(calls[p].pc.result))) && log == old(log) + [DropStaging(p, works)]
      ensures clock == old(clock)
      ensures dirs == if works then old(dirs) - {Staging(name, old(calls[p].pc.uuid))} else old(dirs)
      ensures Plain(names) && works ==>
        forall d :: d in dirs && Reaps(name, d) ==> d in old(KeptBy(calls[p].pc)) && FailedToRemove(log, p, d)
    {
      if Plain(names) && works {
        HolderAlways(names, log, p);
        NothingLeftBehind(names, log, p);
      }
      Do(DropStaging(p, works));
    }

    /** Looks for the target once more, now that nobody else can be staging it. */
    method CheckAgain(p: nat, name: string, fate: Fate) returns (there: bool)
      requires Is(p, name, Locked)
      modifies this
      ensures Is(p, name, if there then Unlocking(Ok) else Absent) && old(log) <= log && clock == old(clock) + 1
      ensures there <==> name in dirs
      ensures Smooth(fate) ==> dirs == old(dirs) && (there <==> name in dirs)
    {
      var _ := Interfere(p, fate);
      Do(Recheck(p));
      there := calls[p].pc == Unlocking(Ok);
    }

    /** The part of a call between getting the lock and giving it back. */
    method CreateLocked(p: nat, name: string, fate: Fate)
      requires Is(p, name, Locked) && IsUuid(fate.uuid)
      modifies this
      ensures p in calls && Is(p, name, calls[p].pc) && calls[p].pc.Returned? && old(log) <= log
      ensures name !in locks && old(clock) < clock
      ensures Plain(names) ==> Accounted(fate, calls[p].pc.result, old(clock), clock)
      ensures Plain(names) && calls[p].pc.result != Ok && !SomeFail(fate, old(clock), clock) ==>
        Matching(View(), name) == {}
      ensures Smooth(fate) ==>
        && calls[p].pc.result == Ok && name in dirs
        && dirs[name] == if name in old(dirs) then old(dirs)[name] else Staged(p, true)
    {
      var there := CheckAgain(p, name, fate);
      if !there {
        StageEntry(p, name, fate);
      }
      DropGuards(p, name, fate);
    }

    /** From the second check up to the end of the scope, with whatever outcome. */
    method StageEntry(p: nat, name: string, fate: Fate)
      requires Is(p, name, Absent) && IsUuid(fate.uuid)
      modifies this
      ensures p in calls && Is(p, name, calls[p].pc) && old(log) <= log && old(clock) < clock
      ensures calls[p].pc.Dropping? || calls[p].pc == Unlocking(Err)
      ensures Plain(names) ==> Accounted(fate, calls[p].pc.result, old(clock), clock)
      ensures Plain(names) && !SomeFail(fate, old(clock), clock) ==> calls[p].pc.Dropping? && calls[p].pc.kept == {}
      ensures Smooth(fate) && name !in old(dirs) ==>
        calls[p].pc.result == Ok && name in dirs && dirs[name] == Staged(p, true)
    {
      RemoveOrphans(p, name, fate);
      var made := MakeStaging(p, name, fate);
      if made { Stage(p, name, fate); }
    }

    /** The look before the lock, which most calls get by with. */
    method FirstLook(p: nat, name: string, fate: Fate) returns (there: bool)
      requires Valid() && p !in calls && name in names
      modifies this
      ensures Is(p, name, if there then Returned(Ok) else Waiting) && old(log) <= log && clock == old(clock) + 1
      ensures there <==> name in dirs
      ensures Smooth(fate) ==> dirs == old(dirs) && locks == old(locks) && (there <==> name in dirs)
    {
      Do(Begin(p, name));
      var _ := Interfere(p, fate);
      Do(FirstCheck(p));
      there := calls[p].pc == Returned(Ok);
    }

    /**
     * One call from beginning to end, unless its process dies. Among plain names it returns an
     * error or is given up for the causes listed only, and then, if its removals work, leaves
     * no staging directory behind.
     */
    method Create(p: nat, name: string, fate: Fate) returns (r: Result, waits: seq<nat>)
      requires Valid() && p !in calls && name in names && IsUuid(fate.uuid)
      modifies this
      ensures Is(p, name, Returned(r)) && old(log) <= log
      ensures r == Ok ==> SawTarget(names, log, p)
      ensures Plain(names) ==>
        Accounted(fate, r, old(clock), clock) || (r == Cancelled && |waits| == fate.patience)
      ensures Plain(names) && r != Ok && |waits| < fate.patience && !SomeFail(fate, old(clock), clock) ==>
        Matching(View(), name) == {}
      ensures forall other :: other in locks ==> locks[other] != p
      ensures forall i :: 0 <= i < |waits| ==> waits[i] == WaitAt(i)
      ensures Smooth(fate) && name !in old(locks) ==>
        && r == Ok && name in dirs
        && dirs[name] == if name in old(dirs) then old(dirs)[name] else Staged(p, true)
    {
      waits := [];
      var there := FirstLook(p, name, fate);
      if !there {
        waits := AwaitLock(p, name, fate);
        if calls[p].pc == Locked { CreateLocked(p, name, fate); }
      }
      r := calls[p].pc.result;
      if r == Ok { OkMeansPresent(names, log, p); }
      ReturnedHoldsNothing(names, log, p);
    }
  }
}
