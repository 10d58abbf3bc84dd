/**
 * `DownloadCache::create` as run by any number of processes over one cache directory, with
 * crashes, cancellation and eviction at any moment.
 *
 * Contracts of what lies outside: at most one holder per lock file, released when its holder
 * unlocks or dies; rename and removal of a directory either happen or leave everything as it is,
 * and a rename does not replace a directory that holds anything. Whoever likes to, be it the
 * do_create of a running call, may put a directory in the place of an entry at any time.
 */
module CacheProtocol {
  import opened Common
  import opened StagingNames

  /**
   * What is in a directory: what call p staged, and whether its do_create succeeded, or what was
   * put there by anything else than `create`.
   */
  datatype Content =
    | Staged(p: nat, complete: bool)
    | Planted(empty: bool)

  datatype Result = Ok | Err | Cancelled

  const RENAME_ATTEMPTS: nat := 20

  /**
   * Where a call of `create` is. `todo` are the directories it is still to reap, `kept` those
   * that it could not remove, and `uuid` names its own staging directory.
   */
  datatype Pc =
    | Started
    | Waiting                                          // in the lock loop
    | Locked                                           // lock taken, target not checked again
    | Absent                                           // checked again: it is not there
    | Reaping(todo: set<string>, kept: set<string>)
    | Reaped(kept: set<string>)
    | Creating(kept: set<string>, uuid: string)        // do_create is running
    | Renaming(kept: set<string>, uuid: string, attempt: nat)
    | Dropping(kept: set<string>, uuid: string, result: Result)   // the staging guard is dropped
    | Unlocking(result: Result)                        // the lock guard is dropped
    | Returned(result: Result)
    | Dead

  datatype Call = Call(name: string, pc: Pc)

  datatype State = State(
    dirs: map<string, Content>,
    locks: map<string, nat>,
    calls: map<nat, Call>)

  const INIT: State := State(map[], map[], map[])

  datatype Action =
    | Begin(p: nat, name: string)
    | FirstCheck(p: nat)
    | TryLock(p: nat)
    | Recheck(p: nat)
    | List(p: nat)                 // the directories to reap are listed
    | ListFails(p: nat)            // they cannot be listed: nothing is reaped
    | ReapOne(p: nat, dir: string, removed: bool)
    | ReapDone(p: nat)
    | MakeDir(p: nat, uuid: string)
    | CreateOk(p: nat)
    | CreateErr(p: nat)
    | Rename(p: nat)               // the rename succeeds
    | RenameFails(p: nat)          // it fails
    | DropStaging(p: nat, removed: bool)
    | Unlock(p: nat)
    | Fail(p: nat)                 // an error outside of do_create and rename
    | Cancel(p: nat)               // the future is dropped at an await
    | Crash(p: nat)
    | Evict(name: string)          // touch or delete, of any process, removes an entry
    | Plant(name: string, empty: bool)   // something else makes or fills a directory there

  predicate Holds(pc: Pc) {
    match pc
    case Locked => true
    case Absent => true
    case Reaping(_, _) => true
    case Reaped(_) => true
    case Creating(_, _) => true
    case Renaming(_, _, _) => true
    case Dropping(_, _, _) => true
    case Unlocking(_) => true
    case _ => false
  }

  predicate At(s: State, p: nat) { p in s.calls }

  /** There is no directory, or an empty one that a rename replaces. */
  predicate Free(s: State, name: string) { name !in s.dirs || s.dirs[name] == Planted(true) }

  function Matching(s: State, name: string): set<string> {
    set d | d in s.dirs && Reaps(name, d)
  }

  predicate Enabled(names: set<string>, s: State, a: Action) {
    match a
    case Begin(p, name) => p !in s.calls && name in names
    case FirstCheck(p) => At(s, p) && s.calls[p].pc.Started?
    case TryLock(p) => At(s, p) && s.calls[p].pc.Waiting?
    case Recheck(p) => At(s, p) && s.calls[p].pc.Locked?
    case List(p) => At(s, p) && s.calls[p].pc.Absent?
    case ListFails(p) => At(s, p) && s.calls[p].pc.Absent?
    case ReapOne(p, dir, _) => At(s, p) && s.calls[p].pc.Reaping? && dir in s.calls[p].pc.todo
    case ReapDone(p) => At(s, p) && s.calls[p].pc.Reaping? && s.calls[p].pc.todo == {}
    case MakeDir(p, uuid) =>
      && At(s, p) && s.calls[p].pc.Reaped? && IsUuid(uuid)
      && Staging(s.calls[p].name, uuid) !in s.dirs
    case CreateOk(p) => At(s, p) && s.calls[p].pc.Creating?
    case CreateErr(p) => At(s, p) && s.calls[p].pc.Creating?
    case Rename(p) =>
      && At(s, p) && s.calls[p].pc.Renaming? && Free(s, s.calls[p].name)
      && Staging(s.calls[p].name, s.calls[p].pc.uuid) in s.dirs
    case RenameFails(p) => At(s, p) && s.calls[p].pc.Renaming?
    case DropStaging(p, _) => At(s, p) && s.calls[p].pc.Dropping?
    case Unlock(p) => At(s, p) && s.calls[p].pc.Unlocking?
    case Fail(p) =>
      At(s, p) && (s.calls[p].pc.Started? || s.calls[p].pc.Waiting? || s.calls[p].pc.Reaped?)
    case Cancel(p) =>
      At(s, p) && (s.calls[p].pc.Waiting? || s.calls[p].pc.Creating? || s.calls[p].pc.Renaming?)
    case Crash(p) => At(s, p) && !s.calls[p].pc.Returned? && !s.calls[p].pc.Dead?
    case Evict(name) => name in names
    case Plant(name, _) => name in names && Free(s, name)
  }

  function Go(s: State, p: nat, pc: Pc): State
    requires At(s, p)
  {
    s.(calls := s.calls[p := s.calls[p].(pc := pc)])
  }

  function Next(names: set<string>, s: State, a: Action): State
    requires Enabled(names, s, a)
  {
    match a
    case Begin(p, name) => s.(calls := s.calls[p := Call(name, Started)])
    case FirstCheck(p) => Go(s, p, if s.calls[p].name in s.dirs then Returned(Ok) else Waiting)
    case TryLock(p) =>
      var name := s.calls[p].name;
      if name !in s.locks then Go(s, p, Locked).(locks := s.locks[name := p])
      else if name in s.dirs then Go(s, p, Returned(Ok))
      else s
    case Recheck(p) => Go(s, p, if s.calls[p].name in s.dirs then Unlocking(Ok) else Absent)
    case List(p) => Go(s, p, Reaping(Matching(s, s.calls[p].name), {}))
    case ListFails(p) => Go(s, p, Reaped(Matching(s, s.calls[p].name)))
    case ReapOne(p, dir, removed) =>
      var pc := s.calls[p].pc;
      Go(s, p, Reaping(pc.todo - {dir}, if removed then pc.kept else pc.kept + {dir}))
        .(dirs := if removed then s.dirs - {dir} else s.dirs)
    case ReapDone(p) => Go(s, p, Reaped(s.calls[p].pc.kept))
    case MakeDir(p, uuid) =>
      Go(s, p, Creating(s.calls[p].pc.kept, uuid))
        .(dirs := s.dirs[Staging(s.calls[p].name, uuid) := Staged(p, false)])
    case CreateOk(p) =>
      var pc := s.calls[p].pc;
      var dir := Staging(s.calls[p].name, pc.uuid);
      Go(s, p, Renaming(pc.kept, pc.uuid, 0))
        .(dirs := if dir in s.dirs then s.dirs[dir := Staged(p, true)] else s.dirs)
    case CreateErr(p) => Go(s, p, Dropping(s.calls[p].pc.kept, s.calls[p].pc.uuid, Err))
    case Rename(p) =>
      var pc := s.calls[p].pc;
      var dir := Staging(s.calls[p].name, pc.uuid);
      Go(s, p, Dropping(pc.kept, pc.uuid, Ok))
        .(dirs := (s.dirs - {dir})[s.calls[p].name := s.dirs[dir]])
    case RenameFails(p) =>
      var pc := s.calls[p].pc;
      Go(s, p,
         if s.calls[p].name in s.dirs then Dropping(pc.kept, pc.uuid, Ok)
         else if pc.attempt == RENAME_ATTEMPTS then Dropping(pc.kept, pc.uuid, Err)
         else pc.(attempt := pc.attempt + 1))
    case DropStaging(p, removed) =>
      var pc := s.calls[p].pc;
      var s' := Go(s, p, Unlocking(pc.result));
      if removed then s'.(dirs := s.dirs - {Staging(s.calls[p].name, pc.uuid)}) else s'
    case Unlock(p) =>
      Go(s, p, Returned(s.calls[p].pc.result)).(locks := s.locks - {s.calls[p].name})
    case Fail(p) => Go(s, p, if s.calls[p].pc.Reaped? then Unlocking(Err) else Returned(Err))
    case Cancel(p) =>
      var pc := s.calls[p].pc;
      Go(s, p, if pc.Waiting? then Returned(Cancelled) else Dropping(pc.kept, pc.uuid, Cancelled))
    case Crash(p) =>
      var s' := Go(s, p, Dead);
      if Holds(s.calls[p].pc) then s'.(locks := s.locks - {s.calls[p].name}) else s'
    case Evict(name) => s.(dirs := s.dirs - {name})
    case Plant(name, empty) => s.(dirs := s.dirs[name := Planted(empty)])
  }

  predicate IsRun(names: set<string>, actions: seq<Action>)
    decreases |actions|, 0
  {
    actions != [] ==>
      IsRun(names, actions[..|actions| - 1])
      && Enabled(names, Exec(names, actions[..|actions| - 1]), actions[|actions| - 1])
  }

  function Exec(names: set<string>, actions: seq<Action>): State
    requires IsRun(names, actions)
    decreases |actions|, 1
  {
    if actions == [] then INIT
    else Next(names, Exec(names, actions[..|actions| - 1]), actions[|actions| - 1])
  }

  // ---------------------------------------------------------------------------------------
  // The invariant
  // ---------------------------------------------------------------------------------------

  /** The lock map and the calls that believe to hold a lock agree. */
  predicate LocksOk(names: set<string>, s: State) {
    && (forall p :: p in s.calls ==> s.calls[p].name in names)
    && (forall p :: p in s.calls && Holds(s.calls[p].pc) ==>
          s.calls[p].name in s.locks && s.locks[s.calls[p].name] == p)
    && (forall name :: name in s.locks ==>
          s.locks[name] in s.calls && s.calls[s.locks[name]].name == name
          && Holds(s.calls[s.locks[name]].pc))
  }

  ghost predicate IsStagingOf(name: string, dir: string) {
    exists uuid :: IsUuid(uuid) && dir == Staging(name, uuid)
  }

  ghost predicate DirOk(names: set<string>, s: State, d: string)
    requires d in s.dirs
  {
    if s.dirs[d].Planted? then d in names
    else
      var p := s.dirs[d].p;
      && p in s.calls
      && if d in names then s.dirs[d].complete && s.calls[p].name == d else IsStagingOf(s.calls[p].name, d)
  }

  /** Every directory is a finished entry, a planted one or somebody's staging directory. */
  ghost predicate DirsOk(names: set<string>, s: State) {
    forall d :: d in s.dirs ==> DirOk(names, s, d)
  }

  /** Nothing that `create` made is visible under this name. */
  predicate OnlyPlanted(s: State, name: string) { name in s.dirs ==> s.dirs[name].Planted? }

  /** What the holder of a lock can count on, depending on where it is. */
  predicate HolderOk(s: State, p: nat)
    requires At(s, p)
  {
    var name := s.calls[p].name;
    match s.calls[p].pc
    case Absent => OnlyPlanted(s, name)
    case Reaping(todo, kept) =>
      OnlyPlanted(s, name) && OnlyLeft(s, name, todo + kept) && forall d :: d in todo ==> Reaps(name, d)
    case Reaped(kept) => OnlyPlanted(s, name) && OnlyLeft(s, name, kept)
    case Creating(kept, uuid) =>
      && OnlyPlanted(s, name) && IsUuid(uuid) && OnlyLeft(s, name, kept + {Staging(name, uuid)})
      && Staging(name, uuid) in s.dirs && s.dirs[Staging(name, uuid)] == Staged(p, false)
    case Renaming(kept, uuid, attempt) =>
      && OnlyPlanted(s, name) && IsUuid(uuid) && OnlyLeft(s, name, kept + {Staging(name, uuid)})
      && Staging(name, uuid) in s.dirs && s.dirs[Staging(name, uuid)] == Staged(p, true)
      && attempt <= RENAME_ATTEMPTS
    case Dropping(kept, uuid, _) => IsUuid(uuid) && OnlyLeft(s, name, kept + {Staging(name, uuid)})
    case _ => true
  }

  /** Of the directories that match `name`, only those in `left` exist. */
  predicate OnlyLeft(s: State, name: string, left: set<string>) {
    forall d :: d in s.dirs && Reaps(name, d) ==> d in left
  }

  ghost predicate Inv(names: set<string>, s: State) {
    && LocksOk(names, s)
    && DirsOk(names, s)
    && forall p :: p in s.calls ==> HolderOk(s, p)
  }

  predicate Acts(a: Action, p: nat) {
    !a.Evict? && !a.Plant? && !a.Begin? && a.p == p
  }

  /** A call that moves on keeps its name, and takes or gives back the lock of that name only. */
  lemma Moves(names: set<string>, s: State, a: Action, p: nat)
    requires Enabled(names, s, a) && Acts(a, p)
    ensures var s' := Next(names, s, a);
      && At(s, p) && At(s', p)
      && var name, pc, pc' := s.calls[p].name, s.calls[p].pc, s'.calls[p].pc;
      && s'.calls == s.calls[p := Call(name, pc')]
      && (Holds(pc) == Holds(pc') ==> s'.locks == s.locks)
      && (!Holds(pc) && Holds(pc') ==> name !in s.locks && s'.locks == s.locks[name := p])
      && (Holds(pc) && !Holds(pc') ==> s'.locks == s.locks - {name})
  {
    assert s.calls[p] == Call(s.calls[p].name, s.calls[p].pc);
    assert s.calls == s.calls[p := s.calls[p]];
  }

  lemma LocksStep(names: set<string>, s: State, a: Action)
    requires LocksOk(names, s) && Enabled(names, s, a)
    ensures LocksOk(names, Next(names, s, a))
  {
    match a
    case Evict(_) =>
    case Plant(_, _) =>
    case Begin(_, _) =>
    case _ => LocksActs(names, s, a, a.p);
  }

  lemma LocksActs(names: set<string>, s: State, a: Action, p: nat)
    requires LocksOk(names, s) && Enabled(names, s, a) && Acts(a, p)
    ensures LocksOk(names, Next(names, s, a))
  {
    Moves(names, s, a, p);
    LocksMove(names, s, p, Next(names, s, a));
  }

  lemma LocksMove(names: set<string>, s: State, p: nat, s': State)
    requires LocksOk(names, s) && At(s, p) && At(s', p)
    requires var name, pc, pc' := s.calls[p].name, s.calls[p].pc, s'.calls[p].pc;
      && s'.calls == s.calls[p := Call(name, pc')]
      && (Holds(pc) == Holds(pc') ==> s'.locks == s.locks)
      && (!Holds(pc) && Holds(pc') ==> name !in s.locks && s'.locks == s.locks[name := p])
      && (Holds(pc) && !Holds(pc') ==> s'.locks == s.locks - {name})
    ensures LocksOk(names, s')
  {}

  /** A change of the cache directory that does not concern whoever holds the lock of `name`. */
  ghost predicate Harmless(s: State, s': State, name: string) {
    && (OnlyPlanted(s, name) ==> OnlyPlanted(s', name))
    && (forall d :: d in s'.dirs && Reaps(name, d) ==> d in s.dirs)
    && (forall uuid :: IsUuid(uuid) && Staging(name, uuid) in s.dirs ==>
          Staging(name, uuid) in s'.dirs && s'.dirs[Staging(name, uuid)] == s.dirs[Staging(name, uuid)])
  }

  lemma HolderUndisturbed(s: State, s': State, q: nat)
    requires At(s, q) && HolderOk(s, q) && At(s', q) && s'.calls[q] == s.calls[q]
    requires Harmless(s, s', s.calls[q].name)
    ensures HolderOk(s', q)
  {}

  /** Steps taken while holding one entry's lock do not concern the holders of other locks. */
  lemma OtherEntriesUndisturbed(names: set<string>, s: State, a: Action, p: nat, name: string)
    requires Plain(names) && LocksOk(names, s) && Enabled(names, s, a) && Acts(a, p) && HolderOk(s, p)
    requires name in names && name != s.calls[p].name
    ensures Harmless(s, Next(names, s, a), name)
  {
    var s' := Next(names, s, a);
    var mine := s.calls[p].name;
    assert !Reaps(name, mine) && !Reaps(mine, name);
    forall uuid | IsUuid(uuid)
      ensures !Reaps(mine, Staging(name, uuid)) && !Reaps(name, Staging(mine, uuid))
      ensures Reaps(name, Staging(name, uuid)) && Staging(mine, uuid) != name && Staging(name, uuid) != mine
    {
      PlainReap(names, mine, name, uuid);
      PlainReap(names, name, mine, uuid);
      PlainReap(names, name, name, uuid);
    }
  }

  /** Evicting an entry or planting a directory in its place concerns nobody who stages. */
  lemma OutsideUndisturbed(names: set<string>, s: State, a: Action, name: string)
    requires Plain(names) && Enabled(names, s, a) && (a.Evict? || a.Plant?) && name in names
    ensures Harmless(s, Next(names, s, a), name)
  {
    assert !Reaps(name, a.name);
    forall uuid | IsUuid(uuid) ensures Staging(name, uuid) != a.name {
      PlainReap(names, name, name, uuid);
    }
  }

  // ---------------------------------------------------------------------------------------
  // What holds even if reapers hit other entries' staging directories
  // ---------------------------------------------------------------------------------------

  /** The call's staging directory may be gone, but nobody else's is in its place. */
  predicate OwnOk(s: State, p: nat)
    requires At(s, p)
  {
    var pc := s.calls[p].pc;
    (pc.Creating? || pc.Renaming? || pc.Dropping?) ==>
      var own := Staging(s.calls[p].name, pc.uuid);
      IsUuid(pc.uuid) && (!pc.Dropping? && own in s.dirs ==> s.dirs[own] == Staged(p, pc.Renaming?))
  }

  ghost predicate Weak(names: set<string>, s: State) {
    && LocksOk(names, s)
    && DirsOk(names, s)
    && forall p :: p in s.calls ==> OwnOk(s, p)
  }

  lemma DirsMade(names: set<string>, s: State, p: nat, uuid: string)
    requires NoneIsStaging(names) && LocksOk(names, s) && DirsOk(names, s) && Enabled(names, s, MakeDir(p, uuid))
    ensures DirsOk(names, Next(names, s, MakeDir(p, uuid)))
  {
    var name, s' := s.calls[p].name, Next(names, s, MakeDir(p, uuid));
    forall d | d in s'.dirs ensures DirOk(names, s', d) {
      if d != Staging(name, uuid) { assert DirOk(names, s, d); }
    }
  }

  lemma DirsRenamed(names: set<string>, s: State, a: Action, p: nat)
    requires NoneIsStaging(names) && LocksOk(names, s) && DirsOk(names, s) && Enabled(names, s, a)
    requires (a == CreateOk(p) || a == Rename(p)) && OwnOk(s, p)
    ensures DirsOk(names, Next(names, s, a))
  {
    var s' := Next(names, s, a);
    forall d | d in s'.dirs ensures DirOk(names, s', d) {
      if d in s.dirs { assert DirOk(names, s, d); }
    }
  }

  lemma DirsLeft(names: set<string>, s: State, a: Action)
    requires LocksOk(names, s) && DirsOk(names, s) && Enabled(names, s, a)
    requires !a.MakeDir? && !a.CreateOk? && !a.Rename?
    ensures DirsOk(names, Next(names, s, a))
  {
    var s' := Next(names, s, a);
    forall d | d in s'.dirs ensures DirOk(names, s', d) {
      if d in s.dirs { assert DirOk(names, s, d); }
    }
  }

  lemma DirsStep(names: set<string>, s: State, a: Action)
    requires NoneIsStaging(names) && Weak(names, s) && Enabled(names, s, a)
    ensures DirsOk(names, Next(names, s, a))
  {
    if a.MakeDir? { DirsMade(names, s, a.p, a.uuid); }
    else if a.CreateOk? || a.Rename? { DirsRenamed(names, s, a, a.p); }
    else { DirsLeft(names, s, a); }
  }

  lemma OwnOkActs(names: set<string>, s: State, a: Action, p: nat)
    requires Weak(names, s) && Enabled(names, s, a) && Acts(a, p)
    ensures OwnOk(Next(names, s, a), p)
  {
    assert OwnOk(s, p);
  }

  /** Others only add or change directories that are named after their own entry. */
  lemma OwnOkOthers(names: set<string>, s: State, a: Action, q: nat, p: nat)
    requires NoneIsStaging(names) && Weak(names, s) && Enabled(names, s, a) && Acts(a, q)
    requires At(s, p) && p != q
    ensures OwnOk(Next(names, s, a), p)
  {
    var s' := Next(names, s, a);
    var pc := s.calls[p].pc;
    assert OwnOk(s, p) && OwnOk(s, q) && s'.calls[p] == s.calls[p];
    if pc.Creating? || pc.Renaming? {
      var own := Staging(s.calls[p].name, pc.uuid);
      if own in s'.dirs {
        assert own !in names && s.calls[q].name in names;
        if Holds(s.calls[q].pc) {
          assert s.calls[q].name != s.calls[p].name;
          forall u | IsUuid(u) ensures Staging(s.calls[q].name, u) != own {
            if Staging(s.calls[q].name, u) == own {
              StagingTellsEntry(s.calls[q].name, u, s.calls[p].name, pc.uuid);
            }
          }
        }
        assert own in s.dirs && s'.dirs[own] == s.dirs[own];
      }
    }
  }

  lemma OwnOkOutside(names: set<string>, s: State, a: Action, p: nat)
    requires NoneIsStaging(names) && Weak(names, s) && Enabled(names, s, a) && (a.Evict? || a.Plant? || a.Begin?)
    requires At(Next(names, s, a), p)
    ensures OwnOk(Next(names, s, a), p)
  {
    if At(s, p) { assert OwnOk(s, p); }
  }

  lemma OwnOkStep(names: set<string>, s: State, a: Action, p: nat)
    requires NoneIsStaging(names) && Weak(names, s) && Enabled(names, s, a) && At(Next(names, s, a), p)
    ensures OwnOk(Next(names, s, a), p)
  {
    if a.Evict? || a.Plant? || a.Begin? {
      OwnOkOutside(names, s, a, p);
    } else if a.p == p {
      OwnOkActs(names, s, a, p);
    } else {
      ActorsStay(names, s, a, p);
      OwnOkOthers(names, s, a, a.p, p);
    }
  }

  lemma {:induction false} WeakAlways(names: set<string>, actions: seq<Action>)
    requires NoneIsStaging(names) && IsRun(names, actions)
    ensures Weak(names, Exec(names, actions))
  {
    if actions != [] {
      var front, a := actions[..|actions| - 1], actions[|actions| - 1];
      var s := Exec(names, front);
      WeakAlways(names, front);
      LocksStep(names, s, a);
      DirsStep(names, s, a);
      forall p | At(Next(names, s, a), p) ensures OwnOk(Next(names, s, a), p) {
        OwnOkStep(names, s, a, p);
      }
    }
  }

  lemma InvIsWeak(names: set<string>, s: State)
    requires Inv(names, s)
    ensures Weak(names, s)
  {
    forall p | p in s.calls ensures OwnOk(s, p) { assert HolderOk(s, p); }
  }

  lemma OwnMakeDir(names: set<string>, s: State, p: nat, uuid: string)
    requires Plain(names) && Inv(names, s) && Enabled(names, s, MakeDir(p, uuid))
    ensures HolderOk(Next(names, s, MakeDir(p, uuid)), p)
  {
    assert HolderOk(s, p);
    PlainReap(names, s.calls[p].name, s.calls[p].name, uuid);
  }

  /** Whoever acts keeps its own promises. */
  lemma OwnStep(names: set<string>, s: State, a: Action, p: nat)
    requires Plain(names) && Inv(names, s) && Enabled(names, s, a) && Acts(a, p)
    ensures HolderOk(Next(names, s, a), p)
  {
    if a.MakeDir? {
      OwnMakeDir(names, s, p, a.uuid);
    } else if a.List? || a.ListFails? || a.ReapOne? || a.ReapDone? {
      OwnReaping(names, s, a, p);
    } else {
      OwnOther(names, s, a, p);
    }
  }

  lemma OwnReaping(names: set<string>, s: State, a: Action, p: nat)
    requires Inv(names, s) && Enabled(names, s, a) && Acts(a, p)
    requires a.List? || a.ListFails? || a.ReapOne? || a.ReapDone?
    ensures HolderOk(Next(names, s, a), p)
  {
    assert HolderOk(s, p);
  }

  lemma OwnOther(names: set<string>, s: State, a: Action, p: nat)
    requires Inv(names, s) && Enabled(names, s, a) && Acts(a, p)
    requires !a.MakeDir? && !a.List? && !a.ListFails? && !a.ReapOne? && !a.ReapDone?
    ensures HolderOk(Next(names, s, a), p)
  {
    assert HolderOk(s, p);
  }

  lemma OutsideStep(names: set<string>, s: State, a: Action, q: nat)
    requires Plain(names) && Inv(names, s) && Enabled(names, s, a) && (a.Evict? || a.Plant? || a.Begin?)
    requires At(Next(names, s, a), q)
    ensures HolderOk(Next(names, s, a), q)
  {
    if At(s, q) {
      assert HolderOk(s, q);
      if !a.Begin? {
        OutsideUndisturbed(names, s, a, s.calls[q].name);
        HolderUndisturbed(s, Next(names, s, a), q);
      }
    }
  }

  lemma ActorsStay(names: set<string>, s: State, a: Action, q: nat)
    requires Enabled(names, s, a) && At(Next(names, s, a), q) && !a.Begin?
    ensures At(s, q)
  {}

  lemma InvStep(names: set<string>, s: State, a: Action)
    requires Plain(names) && Inv(names, s) && Enabled(names, s, a)
    ensures Inv(names, Next(names, s, a))
  {
    LocksStep(names, s, a);
    InvIsWeak(names, s);
    PlainIsNoneStaging(names);
    DirsStep(names, s, a);
    forall q | q in Next(names, s, a).calls ensures HolderOk(Next(names, s, a), q) {
      HolderStep(names, s, a, q);
    }
  }

  lemma HolderStep(names: set<string>, s: State, a: Action, q: nat)
    requires Plain(names) && Inv(names, s) && Enabled(names, s, a) && At(Next(names, s, a), q)
    ensures HolderOk(Next(names, s, a), q)
  {
    if a.Evict? || a.Plant? || a.Begin? {
      OutsideStep(names, s, a, q);
    } else {
      ActorsStay(names, s, a, q);
      OthersStep(names, s, a, a.p, q);
    }
  }

  lemma OthersStep(names: set<string>, s: State, a: Action, p: nat, q: nat)
    requires Plain(names) && Inv(names, s) && Enabled(names, s, a) && Acts(a, p)
    requires At(s, q) && At(Next(names, s, a), q)
    ensures HolderOk(Next(names, s, a), q)
  {
    var s' := Next(names, s, a);
    if q == p {
      OwnStep(names, s, a, p);
    } else {
      assert HolderOk(s, p) && HolderOk(s, q);
      Moves(names, s, a, p);
      if s.calls[q].name != s.calls[p].name {
        OtherEntriesUndisturbed(names, s, a, p, s.calls[q].name);
        HolderUndisturbed(s, s', q);
      } else if !Holds(s.calls[p].pc) {
        assert s'.dirs == s.dirs;
      } else {
        assert !Holds(s.calls[q].pc);
      }
    }
  }

  lemma {:induction false} InvAlways(names: set<string>, actions: seq<Action>)
    requires Plain(names) && IsRun(names, actions)
    ensures Inv(names, Exec(names, actions))
  {
    if actions != [] {
      var front := actions[..|actions| - 1];
      InvAlways(names, front);
      InvStep(names, Exec(names, front), actions[|actions| - 1]);
    }
  }

  /** The locks are in order whatever the entry names are. */
  lemma {:induction false} LocksAlways(names: set<string>, actions: seq<Action>)
    requires IsRun(names, actions)
    ensures LocksOk(names, Exec(names, actions))
  {
    if actions != [] {
      var front := actions[..|actions| - 1];
      LocksAlways(names, front);
      LocksStep(names, Exec(names, front), actions[|actions| - 1]);
    }
  }

  // ---------------------------------------------------------------------------------------
  // Main results, over all runs
  // ---------------------------------------------------------------------------------------

  /** At most one call is ever between taking and giving back the lock of an entry. */
  lemma OneHolderPerEntry(names: set<string>, actions: seq<Action>, p: nat, q: nat)
    requires IsRun(names, actions) && p != q
    requires var s := Exec(names, actions); At(s, p) && At(s, q) && Holds(s.calls[p].pc) && Holds(s.calls[q].pc)
    ensures Exec(names, actions).calls[p].name != Exec(names, actions).calls[q].name
  {
    LocksAlways(names, actions);
  }

  predicate Carries(pc: Pc, result: Result) {
    pc == Returned(result) || pc == Unlocking(result) || (pc.Dropping? && pc.result == result)
  }

  /** One of the call's own steps began or ended with the target in place. */
  ghost predicate SawTarget(names: set<string>, actions: seq<Action>, p: nat)
    requires IsRun(names, actions) && At(Exec(names, actions), p)
  {
    var name := Exec(names, actions).calls[p].name;
    exists j :: 0 <= j < |actions| && Acts(actions[j], p) && TargetAround(names, actions, j, name)
  }

  predicate TargetAround(names: set<string>, actions: seq<Action>, j: nat, name: string)
    requires IsRun(names, actions) && j < |actions|
  {
    RunPrefix(names, actions, j);
    var s := Exec(names, actions[..j]);
    name in s.dirs || name in Next(names, s, actions[j]).dirs
  }

  lemma {:induction false} RunPrefix(names: set<string>, actions: seq<Action>, j: nat)
    requires IsRun(names, actions) && j < |actions|
    ensures IsRun(names, actions[..j]) && Enabled(names, Exec(names, actions[..j]), actions[j])
    decreases |actions|
  {
    var n := |actions| - 1;
    if j < n {
      RunPrefix(names, actions[..n], j);
      assert actions[..n][..j] == actions[..j];
    }
  }

  lemma OkStep(names: set<string>, s: State, a: Action, p: nat)
    requires Enabled(names, s, a) && At(Next(names, s, a), p)
    requires Carries(Next(names, s, a).calls[p].pc, Ok)
    ensures At(s, p) && Next(names, s, a).calls[p].name == s.calls[p].name
    ensures Carries(s.calls[p].pc, Ok)
      || (Acts(a, p) && (s.calls[p].name in s.dirs || s.calls[p].name in Next(names, s, a).dirs))
  {}

  /** Whoever gets Ok from `create` saw the target in place at some moment of its call. */
  lemma {:induction false} OkMeansPresent(names: set<string>, actions: seq<Action>, p: nat)
    requires IsRun(names, actions) && At(Exec(names, actions), p)
    requires Carries(Exec(names, actions).calls[p].pc, Ok)
    ensures SawTarget(names, actions, p)
  {
    var n := |actions| - 1;
    var front, a := actions[..n], actions[n];
    var s := Exec(names, front);
    OkStep(names, s, a, p);
    var name := s.calls[p].name;
    if Carries(s.calls[p].pc, Ok) {
      OkMeansPresent(names, front, p);
      var j :| 0 <= j < n && Acts(front[j], p) && TargetAround(names, front, j, name);
      assert front[..j] == actions[..j];
      assert TargetAround(names, actions, j, name);
    } else {
      assert TargetAround(names, actions, n, name);
    }
  }

  lemma CompleteStep(names: set<string>, s: State, a: Action, d: string, q: nat)
    requires Enabled(names, s, a)
    requires d in Next(names, s, a).dirs && Next(names, s, a).dirs[d] == Staged(q, true)
    ensures (exists e :: e in s.dirs && s.dirs[e] == Staged(q, true)) || a == CreateOk(q)
  {
    match a
    case CreateOk(p) =>
      if d != Staging(s.calls[p].name, s.calls[p].pc.uuid) { assert d in s.dirs; }
    case Rename(p) =>
      var dir := Staging(s.calls[p].name, s.calls[p].pc.uuid);
      if d == s.calls[p].name { assert dir in s.dirs; } else { assert d in s.dirs; }
    case MakeDir(p, uuid) =>
      if d != Staging(s.calls[p].name, uuid) { assert d in s.dirs; }
    case _ => assert d in s.dirs;
  }

  /** The call that staged a complete directory, under whatever name, got Ok from its do_create. */
  lemma {:induction false} CompleteCameFrom(names: set<string>, actions: seq<Action>, d: string, q: nat)
    requires IsRun(names, actions)
    requires d in Exec(names, actions).dirs && Exec(names, actions).dirs[d] == Staged(q, true)
    ensures CreateOk(q) in actions
  {
    var n := |actions| - 1;
    var front, a := actions[..n], actions[n];
    CompleteStep(names, Exec(names, front), a, d, q);
    if a != CreateOk(q) {
      var e :| e in Exec(names, front).dirs && Exec(names, front).dirs[e] == Staged(q, true);
      CompleteCameFrom(names, front, e, q);
    }
  }

  lemma PlantedStep(names: set<string>, s: State, a: Action, d: string, empty: bool)
    requires Weak(names, s) && Enabled(names, s, a)
    requires d in Next(names, s, a).dirs && Next(names, s, a).dirs[d] == Planted(empty)
    ensures a == Plant(d, empty) || (d in s.dirs && s.dirs[d] == Planted(empty))
  {
    if a.Rename? { PlantedRename(names, s, a.p, d); }
  }

  lemma PlantedRename(names: set<string>, s: State, p: nat, d: string)
    requires Weak(names, s) && Enabled(names, s, Rename(p))
    requires d in Next(names, s, Rename(p)).dirs && Next(names, s, Rename(p)).dirs[d].Planted?
    ensures d in s.dirs && s.dirs[d] == Next(names, s, Rename(p)).dirs[d]
  {
    assert OwnOk(s, p);
  }

  lemma {:induction false} PlantedCameFrom(names: set<string>, actions: seq<Action>, d: string, empty: bool)
    requires NoneIsStaging(names) && IsRun(names, actions)
    requires d in Exec(names, actions).dirs && Exec(names, actions).dirs[d] == Planted(empty)
    ensures Plant(d, empty) in actions
  {
    var n := |actions| - 1;
    WeakAlways(names, actions[..n]);
    PlantedStep(names, Exec(names, actions[..n]), actions[n], d, empty);
    if actions[n] != Plant(d, empty) { PlantedCameFrom(names, actions[..n], d, empty); }
  }

  /** The entry was put there by something else than `create`, or a call for it completed it. */
  ghost predicate ProperEntry(names: set<string>, actions: seq<Action>, name: string)
    requires IsRun(names, actions) && name in Exec(names, actions).dirs
  {
    var s := Exec(names, actions);
    var content := s.dirs[name];
    if content.Planted? then Plant(name, content.empty) in actions
    else content.complete && At(s, content.p) && s.calls[content.p].name == name && CreateOk(content.p) in actions
  }

  lemma VisibleEntryIsComplete(names: set<string>, actions: seq<Action>, name: string)
    requires NoneIsStaging(names) && IsRun(names, actions)
    requires name in names && name in Exec(names, actions).dirs
    ensures ProperEntry(names, actions, name)
  {
    WeakAlways(names, actions);
    assert DirOk(names, Exec(names, actions), name);
    match Exec(names, actions).dirs[name]
    case Planted(empty) => PlantedCameFrom(names, actions, name, empty);
    case Staged(q, _) => CompleteCameFrom(names, actions, name, q);
  }

  // ---------------------------------------------------------------------------------------
  // The lost rename race
  // ---------------------------------------------------------------------------------------

  /** Since call p checked again, something was put in the target's place, and not evicted. */
  predicate PlantedSinceRecheck(actions: seq<Action>, p: nat, name: string) {
    actions != [] &&
      var front, a := actions[..|actions| - 1], actions[|actions| - 1];
      a != Recheck(p) && a != Evict(name)
      && ((a.Plant? && a.name == name) || PlantedSinceRecheck(front, p, name))
  }

  /** Between checking again and having renamed. */
  predicate Stages(pc: Pc) { pc.Absent? || pc.Reaping? || pc.Reaped? || pc.Creating? || pc.Renaming? }

  lemma StagesBefore(names: set<string>, s: State, a: Action, p: nat)
    requires Enabled(names, s, a) && At(Next(names, s, a), p) && Stages(Next(names, s, a).calls[p].pc)
    ensures At(s, p) && Next(names, s, a).calls[p].name == s.calls[p].name
    ensures a == Recheck(p) || Stages(s.calls[p].pc)
    ensures !Acts(a, p) ==> Next(names, s, a).calls[p] == s.calls[p]
  {}

  lemma StagesOutside(names: set<string>, s: State, a: Action, name: string)
    requires Enabled(names, s, a) && (a.Evict? || a.Plant? || a.Begin?)
    ensures name in Next(names, s, a).dirs <==>
      a != Evict(name) && ((a.Plant? && a.name == name) || name in s.dirs)
  {}

  lemma OthersTargetStays(names: set<string>, s: State, a: Action, q: nat, p: nat)
    requires Plain(names) && Inv(names, s) && Enabled(names, s, a) && Acts(a, q)
    requires At(s, p) && p != q && Holds(s.calls[p].pc)
    ensures s.calls[p].name in Next(names, s, a).dirs <==> s.calls[p].name in s.dirs
  {
    OtherTargetStays(names, s, a, q, s.calls[p].name);
  }

  lemma OwnTargetStays(names: set<string>, s: State, a: Action, p: nat)
    requires Plain(names) && Inv(names, s) && Enabled(names, s, a) && Acts(a, p)
    requires Stages(Next(names, s, a).calls[p].pc)
    ensures s.calls[p].name in Next(names, s, a).dirs <==> a != Recheck(p) && s.calls[p].name in s.dirs
  {
    assert HolderOk(s, p);
    var name := s.calls[p].name;
    if a.ReapOne? { assert !Reaps(name, name); }
  }

  /** No call moves the target of another entry, nor that of an entry whose lock it does not hold. */
  lemma OtherTargetStays(names: set<string>, s: State, a: Action, q: nat, name: string)
    requires Plain(names) && Inv(names, s) && Enabled(names, s, a) && Acts(a, q)
    requires name in names && (Holds(s.calls[q].pc) ==> s.calls[q].name != name)
    ensures name in Next(names, s, a).dirs <==> name in s.dirs
  {
    assert HolderOk(s, q);
    var mine := s.calls[q].name;
    assert !Reaps(mine, name);
    forall uuid | IsUuid(uuid) ensures Staging(mine, uuid) != name {
      PlainReap(names, mine, mine, uuid);
    }
  }

  /** The target of a call that stages is there exactly if something was planted meanwhile. */
  lemma {:induction false} TargetIsPlanted(names: set<string>, actions: seq<Action>, p: nat)
    requires Plain(names) && IsRun(names, actions) && At(Exec(names, actions), p)
    requires Stages(Exec(names, actions).calls[p].pc)
    ensures var s := Exec(names, actions);
      s.calls[p].name in s.dirs <==> PlantedSinceRecheck(actions, p, s.calls[p].name)
  {
    var n := |actions| - 1;
    var front, a := actions[..n], actions[n];
    InvAlways(names, front);
    var s := Exec(names, front);
    StagesBefore(names, s, a, p);
    if a.Evict? || a.Plant? || a.Begin? {
      StagesOutside(names, s, a, s.calls[p].name);
    } else if a.p == p {
      OwnTargetStays(names, s, a, p);
    } else {
      OthersTargetStays(names, s, a, a.p, p);
    }
    if a != Recheck(p) { TargetIsPlanted(names, front, p); }
  }

  /** The branch for a lost race is taken exactly when something was planted since the recheck. */
  lemma LostRaceExactly(names: set<string>, actions: seq<Action>, p: nat)
    requires Plain(names) && IsRun(names, actions) && Enabled(names, Exec(names, actions), RenameFails(p))
    ensures var s := Exec(names, actions);
      Next(names, s, RenameFails(p)).calls[p].pc == Dropping(s.calls[p].pc.kept, s.calls[p].pc.uuid, Ok)
      <==> PlantedSinceRecheck(actions, p, s.calls[p].name)
  {
    TargetIsPlanted(names, actions, p);
  }

  lemma {:induction false} NothingPlanted(actions: seq<Action>, p: nat, name: string)
    requires forall empty :: Plant(name, empty) !in actions
    ensures !PlantedSinceRecheck(actions, p, name)
  {
    if actions != [] {
      assert actions[|actions| - 1] != Plant(name, true) && actions[|actions| - 1] != Plant(name, false);
      NothingPlanted(actions[..|actions| - 1], p, name);
    }
  }

  lemma Extend(names: set<string>, before: seq<Action>, s: State, a: Action)
    returns (actions: seq<Action>, s': State)
    requires IsRun(names, before) && Exec(names, before) == s && Enabled(names, s, a)
    ensures IsRun(names, actions) && actions == before + [a] && Exec(names, actions) == s' == Next(names, s, a)
  {
    actions, s' := before + [a], Next(names, s, a);
    assert actions[..|before|] == before;
  }

  predicate NoPlants(actions: seq<Action>) {
    forall i :: 0 <= i < |actions| ==> !actions[i].Plant?
  }

  /** Nothing is planted, and nothing is tried to be reaped. */
  predicate Clean(actions: seq<Action>) {
    NoPlants(actions) && forall i :: 0 <= i < |actions| ==> !actions[i].ReapOne? && !actions[i].ListFails?
  }

  /** Call p has the lock of an entry that is not there. */
  predicate Alone(s: State, p: nat, name: string, pc: Pc) {
    name !in s.dirs && At(s, p) && s.calls[p] == Call(name, pc)
  }

  /** A new call for an entry that is not there and not locked gets past the second check. */
  lemma CheckedAgain(names: set<string>, before: seq<Action>, s: State, p: nat, name: string)
    returns (actions: seq<Action>, s': State)
    requires IsRun(names, before) && Exec(names, before) == s
    requires name in names && p !in s.calls && name !in s.dirs && name !in s.locks
    ensures IsRun(names, actions) && Exec(names, actions) == s'
    ensures actions == before + [Begin(p, name), FirstCheck(p), TryLock(p), Recheck(p)]
    ensures Clean(before) ==> Clean(actions)
    ensures s' == s.(calls := s.calls[p := Call(name, Absent)], locks := s.locks[name := p])
  {
    actions, s' := NewCallWaits(names, before, s, p, name);
    actions, s' := LockedAndChecked(names, actions, s', p, name);
    assert s'.calls == s.calls[p := Call(name, Absent)];
  }

  lemma NothingThere(names: set<string>, s: State, p: nat, name: string)
    requires At(s, p) && s.calls[p] == Call(name, Started) && name !in s.dirs
    ensures Enabled(names, s, FirstCheck(p))
    ensures Next(names, s, FirstCheck(p)) == s.(calls := s.calls[p := Call(name, Waiting)])
  {}

  lemma NewCallWaits(names: set<string>, before: seq<Action>, s: State, p: nat, name: string)
    returns (actions: seq<Action>, s': State)
    requires IsRun(names, before) && Exec(names, before) == s
    requires name in names && p !in s.calls && name !in s.dirs
    ensures IsRun(names, actions) && Exec(names, actions) == s'
    ensures actions == before + [Begin(p, name), FirstCheck(p)]
    ensures Clean(before) ==> Clean(actions)
    ensures s' == s.(calls := s.calls[p := Call(name, Waiting)])
  {
    var begun, t := Extend(names, before, s, Begin(p, name));
    NothingThere(names, t, p, name);
    actions, s' := Extend(names, begun, t, FirstCheck(p));
    assert s'.calls == s.calls[p := Call(name, Waiting)];
  }

  lemma LockedAndChecked(names: set<string>, before: seq<Action>, s: State, p: nat, name: string)
    returns (actions: seq<Action>, s': State)
    requires IsRun(names, before) && Exec(names, before) == s
    requires Alone(s, p, name, Waiting) && name !in s.locks
    ensures IsRun(names, actions) && Exec(names, actions) == s'
    ensures actions == before + [TryLock(p), Recheck(p)]
    ensures Clean(before) ==> Clean(actions)
    ensures s' == s.(calls := s.calls[p := Call(name, Absent)], locks := s.locks[name := p])
  {
    actions, s' := Extend(names, before, s, TryLock(p));
    assert s' == s.(calls := s.calls[p := Call(name, Locked)], locks := s.locks[name := p]);
    actions, s' := Extend(names, actions, s', Recheck(p));
    assert s'.calls == s.calls[p := Call(name, Absent)];
  }

  lemma NothingReaped(names: set<string>, before: seq<Action>, s: State, p: nat, name: string)
    returns (actions: seq<Action>, s': State)
    requires IsRun(names, before) && Exec(names, before) == s
    requires Alone(s, p, name, Absent) && Matching(s, name) == {}
    ensures IsRun(names, actions) && Exec(names, actions) == s'
    ensures Clean(before) ==> Clean(actions)
    ensures s' == s.(calls := s.calls[p := Call(name, Reaped({}))])
  {
    actions, s' := Extend(names, before, s, List(p));
    assert s' == s.(calls := s.calls[p := Call(name, Reaping({}, {}))]);
    actions, s' := Extend(names, actions, s', ReapDone(p));
    assert s'.calls == s.calls[p := Call(name, Reaped({}))];
  }

  /** With nothing to reap, it goes on to make its staging directory. */
  lemma StagingMade(names: set<string>, before: seq<Action>, s: State, p: nat, name: string, uuid: string)
    returns (actions: seq<Action>, s': State)
    requires IsRun(names, before) && Exec(names, before) == s
    requires Alone(s, p, name, Absent) && Matching(s, name) == {} && IsUuid(uuid)
    ensures IsRun(names, actions) && Exec(names, actions) == s'
    ensures Clean(before) ==> Clean(actions)
    ensures s' == s.(calls := s.calls[p := Call(name, Creating({}, uuid))],
                     dirs := s.dirs[Staging(name, uuid) := Staged(p, false)])
  {
    assert Staging(name, uuid) in s.dirs <==> Staging(name, uuid) in Matching(s, name);
    actions, s' := NothingReaped(names, before, s, p, name);
    actions, s' := Extend(names, actions, s', MakeDir(p, uuid));
    assert s'.calls == s.calls[p := Call(name, Creating({}, uuid))];
  }

  /** From nothing, call 0 stages its entry. */
  lemma FirstStages(names: set<string>, name: string, uuid: string) returns (actions: seq<Action>, s: State)
    requires name in names && IsUuid(uuid)
    ensures IsRun(names, actions) && Exec(names, actions) == s
    ensures s == State(map[Staging(name, uuid) := Staged(0, false)], map[name := 0],
                       map[0 := Call(name, Creating({}, uuid))])
    ensures Clean(actions)
  {
    actions, s := CheckedAgain(names, [], INIT, 0, name);
    actions, s := StagingMade(names, actions, s, 0, name, uuid);
  }

  /** A do_create that makes the target itself: the rename fails, and the call returns Ok. */
  lemma LostRaceHappens(names: set<string>, name: string, uuid: string) returns (actions: seq<Action>)
    requires name in names && IsUuid(uuid)
    ensures IsRun(names, actions) && At(Exec(names, actions), 0)
    ensures Exec(names, actions).calls[0] == Call(name, Dropping({}, uuid, Ok))
    ensures name in Exec(names, actions).dirs && Exec(names, actions).dirs[name] == Planted(false)
  {
    var s;
    var dir := Staging(name, uuid);
    actions, s := FirstStages(names, name, uuid);
    assert |dir| > |name|;
    actions, s := Extend(names, actions, s, Plant(name, false));
    assert s.dirs == map[dir := Staged(0, false), name := Planted(false)];
    actions, s := Extend(names, actions, s, CreateOk(0));
    assert s.calls[0] == Call(name, Renaming({}, uuid, 0)) && name in s.dirs;
    actions, s := Extend(names, actions, s, RenameFails(0));
  }

  // ---------------------------------------------------------------------------------------
  // The staging directory
  // ---------------------------------------------------------------------------------------

  /** The removal of this directory failed in call p, or that of all of them did. */
  predicate FailedToRemove(actions: seq<Action>, p: nat, d: string) {
    ReapOne(p, d, false) in actions || ListFails(p) in actions
  }

  function KeptBy(pc: Pc): set<string> {
    match pc
    case Reaping(_, kept) => kept
    case Reaped(kept) => kept
    case Creating(kept, _) => kept
    case Renaming(kept, _, _) => kept
    case Dropping(kept, _, _) => kept
    case _ => {}
  }

  lemma KeptStep(names: set<string>, s: State, a: Action, p: nat, d: string)
    requires Enabled(names, s, a) && At(Next(names, s, a), p) && d in KeptBy(Next(names, s, a).calls[p].pc)
    ensures (At(s, p) && d in KeptBy(s.calls[p].pc)) || a == ReapOne(p, d, false) || a == ListFails(p)
  {}

  lemma {:induction false} KeptFailed(names: set<string>, actions: seq<Action>, p: nat, d: string)
    requires IsRun(names, actions) && At(Exec(names, actions), p)
    requires d in KeptBy(Exec(names, actions).calls[p].pc)
    ensures FailedToRemove(actions, p, d)
  {
    var n := |actions| - 1;
    var s := Exec(names, actions[..n]);
    KeptStep(names, s, actions[n], p, d);
    if At(s, p) && d in KeptBy(s.calls[p].pc) { KeptFailed(names, actions[..n], p, d); }
  }

  /**
   * While do_create runs and until the rename, the call's staging directory exists and holds what
   * this call made, and any other directory that matches the entry is one it failed to remove.
   */
  lemma StagingIsOwn(names: set<string>, actions: seq<Action>, p: nat)
    requires Plain(names) && IsRun(names, actions) && At(Exec(names, actions), p)
    requires var pc := Exec(names, actions).calls[p].pc; pc.Creating? || pc.Renaming?
    ensures var s := Exec(names, actions);
      var name, pc := s.calls[p].name, s.calls[p].pc;
      var own := Staging(name, pc.uuid);
      && own in s.dirs && s.dirs[own] == Staged(p, pc.Renaming?)
      && forall d :: d in s.dirs && Reaps(name, d) && d != own ==> FailedToRemove(actions, p, d)
  {
    InvAlways(names, actions);
    var s := Exec(names, actions);
    assert HolderOk(s, p);
    forall d | d in s.dirs && Reaps(s.calls[p].name, d) && d != Staging(s.calls[p].name, s.calls[p].pc.uuid)
      ensures FailedToRemove(actions, p, d)
    {
      KeptFailed(names, actions, p, d);
    }
  }

  /**
   * When the staging guard could remove its directory, then whatever the call's outcome is, the
   * only directories that match the entry are those that this call had failed to remove before.
   */
  lemma NothingLeftBehind(names: set<string>, actions: seq<Action>, p: nat)
    requires Plain(names) && IsRun(names, actions) && Enabled(names, Exec(names, actions), DropStaging(p, true))
    ensures var s := Exec(names, actions);
      forall d :: d in Next(names, s, DropStaging(p, true)).dirs && Reaps(s.calls[p].name, d) ==>
        FailedToRemove(actions, p, d)
  {
    InvAlways(names, actions);
    var s := Exec(names, actions);
    assert HolderOk(s, p);
    forall d | d in Next(names, s, DropStaging(p, true)).dirs && Reaps(s.calls[p].name, d)
      ensures FailedToRemove(actions, p, d)
    {
      KeptFailed(names, actions, p, d);
    }
  }

  // ---------------------------------------------------------------------------------------
  // Installs and evictions of one entry alternate
  // ---------------------------------------------------------------------------------------

  function Installs(names: set<string>, actions: seq<Action>, name: string): nat
    requires IsRun(names, actions)
  {
    if actions == [] then 0 else
      var front, a := actions[..|actions| - 1], actions[|actions| - 1];
      Installs(names, front, name)
      + if a.Rename? && Exec(names, front).calls[a.p].name == name then 1 else 0
  }

  function Evictions(names: set<string>, actions: seq<Action>, name: string): nat
    requires IsRun(names, actions)
  {
    if actions == [] then 0 else
      var front, a := actions[..|actions| - 1], actions[|actions| - 1];
      Evictions(names, front, name) + if a == Evict(name) && name in Exec(names, front).dirs then 1 else 0
  }

  lemma PresenceStep(names: set<string>, s: State, a: Action, name: string)
    requires Plain(names) && Inv(names, s) && Enabled(names, s, a) && name in names
    ensures name in Next(names, s, a).dirs <==>
      || (name in s.dirs && a != Evict(name))
      || (a.Rename? && s.calls[a.p].name == name)
      || (a.Plant? && a.name == name)
    ensures a.Rename? && s.calls[a.p].name == name ==> OnlyPlanted(s, name)
  {
    if a.Evict? || a.Plant? || a.Begin? {
      StagesOutside(names, s, a, name);
    } else if a.Rename? {
      PresenceRename(names, s, a.p, name);
    } else {
      PresenceActs(names, s, a, a.p, name);
    }
  }

  lemma PresenceRename(names: set<string>, s: State, p: nat, name: string)
    requires Plain(names) && Inv(names, s) && Enabled(names, s, Rename(p)) && name in names
    ensures name in Next(names, s, Rename(p)).dirs <==> name in s.dirs || s.calls[p].name == name
    ensures s.calls[p].name == name ==> OnlyPlanted(s, name)
  {
    assert HolderOk(s, p);
    PlainReap(names, s.calls[p].name, s.calls[p].name, s.calls[p].pc.uuid);
  }

  lemma PresenceActs(names: set<string>, s: State, a: Action, p: nat, name: string)
    requires Plain(names) && Inv(names, s) && Enabled(names, s, a) && Acts(a, p) && !a.Rename? && name in names
    ensures name in Next(names, s, a).dirs <==> name in s.dirs
  {
    assert HolderOk(s, p);
    var mine := s.calls[p].name;
    assert !Reaps(mine, name);
    forall uuid | IsUuid(uuid) ensures Staging(mine, uuid) != name {
      PlainReap(names, mine, mine, uuid);
    }
  }

  /**
   * Unless something is planted in its place, every install of an entry but the last was undone
   * by an eviction before the next one.
   */
  lemma {:induction false} InstalledOrEvicted(names: set<string>, actions: seq<Action>, name: string)
    requires Plain(names) && IsRun(names, actions) && name in names
    requires forall empty :: Plant(name, empty) !in actions
    ensures Installs(names, actions, name)
      == Evictions(names, actions, name) + if name in Exec(names, actions).dirs then 1 else 0
  {
    if actions != [] {
      var front, a := actions[..|actions| - 1], actions[|actions| - 1];
      InstalledOrEvicted(names, front, name);
      InvAlways(names, front);
      PresenceStep(names, Exec(names, front), a, name);
      assert a != Plant(name, true) && a != Plant(name, false);
      PlainIsNoneStaging(names);
      if name in Exec(names, front).dirs && Exec(names, front).dirs[name].Planted? {
        PlantedCameFrom(names, front, name, Exec(names, front).dirs[name].empty);
      }
    }
  }

  // ---------------------------------------------------------------------------------------
  // Why entry names matter
  // ---------------------------------------------------------------------------------------

  /** In every run, whoever stages has its staging directory. */
  ghost predicate StagingIsSafe(names: set<string>) {
    forall actions, p :: IsRun(names, actions) ==> KeepsStaging(Exec(names, actions), p)
  }

  predicate KeepsStaging(s: State, p: nat) {
    At(s, p) && (s.calls[p].pc.Creating? || s.calls[p].pc.Renaming?) ==>
      Staging(s.calls[p].name, s.calls[p].pc.uuid) in s.dirs
  }

  /** In every run, a visible entry stays until it is evicted. */
  ghost predicate EntriesAreSafe(names: set<string>) {
    forall actions, a, name :: IsRun(names, actions) ==> StaysUnlessEvicted(names, Exec(names, actions), a, name)
  }

  predicate StaysUnlessEvicted(names: set<string>, s: State, a: Action, name: string) {
    Enabled(names, s, a) && name in names && name in s.dirs && a != Evict(name) ==> name in Next(names, s, a).dirs
  }

  /** In every run, a visible entry is complete, unless it was planted. */
  ghost predicate EntriesAreComplete(names: set<string>) {
    forall actions, name :: IsRun(names, actions) && name in names && name in Exec(names, actions).dirs ==>
      ProperEntry(names, actions, name)
  }

  /** A call for `a` lists a directory that its prefix matches, and is about to remove it. */
  lemma ReaperComes(names: set<string>, before: seq<Action>, s: State, a: string, d: string)
    returns (actions: seq<Action>, s': State)
    requires IsRun(names, before) && Exec(names, before) == s
    requires a in names && 1 !in s.calls && a !in s.dirs && a !in s.locks && d in s.dirs && Reaps(a, d)
    ensures IsRun(names, actions) && Exec(names, actions) == s'
    ensures Clean(before) ==> Clean(actions)
    ensures s'.dirs == s.dirs && s'.calls == s.calls[1 := Call(a, Reaping(Matching(s, a), {}))]
    ensures Enabled(names, s', ReapOne(1, d, true))
  {
    actions, s' := CheckedAgain(names, before, s, 1, a);
    actions, s' := Listed(names, actions, s', a);
    assert Matching(s', a) == Matching(s, a) && d in Matching(s, a);
    assert s'.calls == s.calls[1 := Call(a, Reaping(Matching(s, a), {}))];
  }

  lemma Listed(names: set<string>, before: seq<Action>, s: State, a: string)
    returns (actions: seq<Action>, s': State)
    requires IsRun(names, before) && Exec(names, before) == s && Alone(s, 1, a, Absent)
    ensures IsRun(names, actions) && Exec(names, actions) == s'
    ensures Clean(before) ==> Clean(actions)
    ensures s' == s.(calls := s.calls[1 := Call(a, Reaping(Matching(s, a), {}))])
  {
    actions, s' := Extend(names, before, s, List(1));
    assert s'.calls == s.calls[1 := Call(a, Reaping(Matching(s, a), {}))];
  }

  /** Names of which one is matched by the other's prefix: a live staging directory is reaped. */
  lemma LiveStagingReaped(names: set<string>, a: string, b: string, uuid: string) returns (actions: seq<Action>)
    requires a in names && b in names && Reaps(a, b) && IsUuid(uuid)
    ensures IsRun(names, actions) && At(Exec(names, actions), 0)
    ensures Exec(names, actions).calls[0] == Call(b, Creating({}, uuid))
    ensures Staging(b, uuid) !in Exec(names, actions).dirs
  {
    var s;
    actions, s := FirstStages(names, b, uuid);
    assert |a| < |b| < |Staging(b, uuid)|;
    ReapExactly(a, b, uuid);
    actions, s := ReaperComes(names, actions, s, a, Staging(b, uuid));
    actions, s := Extend(names, actions, s, ReapOne(1, Staging(b, uuid), true));
  }

  /** From nothing, call 0 installs its entry. */
  lemma FirstInstalls(names: set<string>, name: string, uuid: string) returns (actions: seq<Action>, s: State)
    requires name in names && IsUuid(uuid)
    ensures IsRun(names, actions) && Exec(names, actions) == s && Clean(actions)
    ensures s == State(map[name := Staged(0, true)], map[name := 0], map[0 := Call(name, Dropping({}, uuid, Ok))])
  {
    actions, s := FirstStages(names, name, uuid);
    assert |name| < |Staging(name, uuid)|;
    actions, s := Extend(names, actions, s, CreateOk(0));
    assert s == State(map[Staging(name, uuid) := Staged(0, true)], map[name := 0],
                      map[0 := Call(name, Renaming({}, uuid, 0))]);
    actions, s := Extend(names, actions, s, Rename(0));
    assert s.dirs == map[name := Staged(0, true)] && s.calls == map[0 := Call(name, Dropping({}, uuid, Ok))];
  }

  /** So is an entry that was installed. */
  lemma VisibleEntryReaped(names: set<string>, a: string, b: string, uuid: string) returns (actions: seq<Action>)
    requires a in names && b in names && Reaps(a, b) && IsUuid(uuid)
    ensures IsRun(names, actions) && Enabled(names, Exec(names, actions), ReapOne(1, b, true))
    ensures b in Exec(names, actions).dirs && Exec(names, actions).dirs[b] == Staged(0, true)
    ensures b !in Next(names, Exec(names, actions), ReapOne(1, b, true)).dirs
    ensures Clean(actions)
  {
    var s;
    actions, s := FirstInstalls(names, b, uuid);
    assert |a| < |b|;
    actions, s := ReaperComes(names, actions, s, a, b);
  }

  /** Staging directories are safe if and only if no entry's prefix matches another entry. */
  lemma StagingIsSafeExactly(names: set<string>)
    ensures StagingIsSafe(names) <==> Plain(names)
  {
    if Plain(names) {
      forall actions, p | IsRun(names, actions) ensures KeepsStaging(Exec(names, actions), p) {
        InvAlways(names, actions);
        if At(Exec(names, actions), p) { assert HolderOk(Exec(names, actions), p); }
      }
    } else {
      var a, b :| a in names && b in names && Reaps(a, b);
      var actions := LiveStagingReaped(names, a, b, "0");
      assert !KeepsStaging(Exec(names, actions), 0);
    }
  }

  /** And so are visible entries. */
  lemma EntriesAreSafeExactly(names: set<string>)
    ensures EntriesAreSafe(names) <==> Plain(names)
  {
    if Plain(names) {
      forall actions, a, name | IsRun(names, actions)
        ensures StaysUnlessEvicted(names, Exec(names, actions), a, name)
      {
        InvAlways(names, actions);
        if Enabled(names, Exec(names, actions), a) && name in names {
          PresenceStep(names, Exec(names, actions), a, name);
        }
      }
    } else {
      var a, b :| a in names && b in names && Reaps(a, b);
      var actions := VisibleEntryReaped(names, a, b, "0");
      assert !StaysUnlessEvicted(names, Exec(names, actions), ReapOne(1, b, true), b);
    }
  }

  /** Visible entries are complete if and only if none of them is named like a staging directory. */
  lemma EntriesAreCompleteExactly(names: set<string>)
    ensures EntriesAreComplete(names) <==> NoneIsStaging(names)
  {
    if NoneIsStaging(names) {
      forall actions, name | IsRun(names, actions) && name in names && name in Exec(names, actions).dirs
        ensures ProperEntry(names, actions, name)
      {
        VisibleEntryIsComplete(names, actions, name);
      }
    } else {
      var a, uuid :| a in names && IsUuid(uuid) && Staging(a, uuid) in names;
      var actions, s := FirstStages(names, a, uuid);
      assert !ProperEntry(names, actions, Staging(a, uuid));
    }
  }

  /** In every run, the target of whoever stages is there exactly if it was planted meanwhile. */
  ghost predicate TargetsAreTold(names: set<string>) {
    forall actions, p :: IsRun(names, actions) ==> TellsTarget(actions, Exec(names, actions), p)
  }

  predicate TellsTarget(actions: seq<Action>, s: State, p: nat) {
    At(s, p) && Stages(s.calls[p].pc) ==>
      (s.calls[p].name in s.dirs <==> PlantedSinceRecheck(actions, p, s.calls[p].name))
  }

  /** A directory planted in the place of an entry that is being staged. */
  lemma PlantedTargetReaped(names: set<string>, a: string, b: string, uuid: string) returns (actions: seq<Action>)
    requires a in names && b in names && Reaps(a, b) && IsUuid(uuid)
    ensures IsRun(names, actions) && Enabled(names, Exec(names, actions), ReapOne(1, b, true))
    ensures At(Exec(names, actions), 0) && Exec(names, actions).calls[0] == Call(b, Creating({}, uuid))
    ensures b in Exec(names, actions).dirs
  {
    var s;
    actions, s := FirstStages(names, b, uuid);
    assert |a| < |b| < |Staging(b, uuid)|;
    actions, s := Extend(names, actions, s, Plant(b, false));
    assert s.calls[0] == Call(b, Creating({}, uuid)) && s.locks == map[b := 0];
    actions, s := ReaperComes(names, actions, s, a, b);
  }

  lemma TargetsAreToldExactly(names: set<string>)
    ensures TargetsAreTold(names) <==> Plain(names)
  {
    if Plain(names) {
      forall actions, p | IsRun(names, actions) ensures TellsTarget(actions, Exec(names, actions), p) {
        var s := Exec(names, actions);
        if At(s, p) && Stages(s.calls[p].pc) { TargetIsPlanted(names, actions, p); }
      }
    } else {
      var a, b :| a in names && b in names && Reaps(a, b);
      var actions := PlantedTargetReaped(names, a, b, "0");
      var more, s := Extend(names, actions, Exec(names, actions), ReapOne(1, b, true));
      assert more[..|more| - 1] == actions;
      assert TellsTarget(actions, Exec(names, actions), 0) ==> !TellsTarget(more, s, 0);
    }
  }

  /** In every run, what matches an entry that is being staged is its own or failed to be removed. */
  ghost predicate StagingIsAlone(names: set<string>) {
    forall actions, p, d :: IsRun(names, actions) ==> OwnOrFailed(actions, Exec(names, actions), p, d)
  }

  predicate OwnOrFailed(actions: seq<Action>, s: State, p: nat, d: string) {
    At(s, p) && (s.calls[p].pc.Creating? || s.calls[p].pc.Renaming?) && d in s.dirs && Reaps(s.calls[p].name, d) ==>
      d == Staging(s.calls[p].name, s.calls[p].pc.uuid) || FailedToRemove(actions, p, d)
  }

  /** Calls for two such entries stage at the same time. */
  lemma BothStage(names: set<string>, a: string, b: string, uuid: string, other: string)
    returns (actions: seq<Action>)
    requires a in names && b in names && Reaps(a, b) && IsUuid(uuid) && IsUuid(other) && b != Staging(a, uuid)
    ensures IsRun(names, actions) && Clean(actions) && At(Exec(names, actions), 0)
    ensures Exec(names, actions).calls[0] == Call(a, Creating({}, uuid))
    ensures Staging(b, other) in Exec(names, actions).dirs
  {
    var s;
    actions, s := FirstStages(names, a, uuid);
    assert |a| < |b|;
    actions, s := CheckedAgain(names, actions, s, 1, b);
    ReapExactly(b, a, uuid);
    assert Matching(s, b) == {};
    actions, s := StagingMade(names, actions, s, 1, b, other);
  }

  lemma StagingIsAloneExactly(names: set<string>)
    ensures StagingIsAlone(names) <==> Plain(names)
  {
    if Plain(names) {
      forall actions, p, d | IsRun(names, actions) ensures OwnOrFailed(actions, Exec(names, actions), p, d) {
        var s := Exec(names, actions);
        if At(s, p) && (s.calls[p].pc.Creating? || s.calls[p].pc.Renaming?) { StagingIsOwn(names, actions, p); }
      }
    } else {
      var a, b :| a in names && b in names && Reaps(a, b);
      var uuid := if b == Staging(a, "0") then "1" else "0";
      assert |a| < |b| && Staging(a, "0")[|Prefix(a)|] != Staging(a, "1")[|Prefix(a)|];
      var actions := BothStage(names, a, b, uuid, "0");
      ReapExactly(a, b, "0");
      if Staging(b, "0") == Staging(a, uuid) { StagingTellsEntry(b, "0", a, uuid); }
      assert !FailedToRemove(actions, 0, Staging(b, "0"));
      assert !OwnOrFailed(actions, Exec(names, actions), 0, Staging(b, "0"));
    }
  }

  /** In every run, installs and evictions of an entry that nobody plants alternate. */
  ghost predicate InstallsAlternate(names: set<string>) {
    forall actions, name :: IsRun(names, actions) && name in names && NoPlants(actions) ==>
      Alternates(names, actions, name)
  }

  predicate Alternates(names: set<string>, actions: seq<Action>, name: string)
    requires IsRun(names, actions)
  {
    Installs(names, actions, name)
      == Evictions(names, actions, name) + if name in Exec(names, actions).dirs then 1 else 0
  }

  lemma InstallsAlternateExactly(names: set<string>)
    ensures InstallsAlternate(names) <==> Plain(names)
  {
    if Plain(names) {
      forall actions, name | IsRun(names, actions) && name in names && NoPlants(actions)
        ensures Alternates(names, actions, name)
      {
        InstalledOrEvicted(names, actions, name);
      }
    } else {
      var a, b :| a in names && b in names && Reaps(a, b);
      var actions := VisibleEntryReaped(names, a, b, "0");
      var more, s := Extend(names, actions, Exec(names, actions), ReapOne(1, b, true));
      assert more[..|more| - 1] == actions;
      assert Installs(names, more, b) == Installs(names, actions, b);
      assert Evictions(names, more, b) == Evictions(names, actions, b);
      assert Alternates(names, actions, b) ==> !Alternates(names, more, b);
    }
  }
}
