/**
 * Where credentials are kept: the keyring, with a file as one-shot fallback, behind a cache of
 * the last value read or stored; over restarts, failures and keyring calls that time out.
 *
 * Contract of what lies outside: unsealing a sealed credential gives it back.
 */
module AuthStorage {
  import opened Common
  import opened Keyring
  import opened PersistedState

  datatype Provider = Microsoft | Github

  datatype Credential = Credential(
    provider: Provider, accessToken: string, refreshToken: Option<string>, expiresAt: Option<int>)

  datatype Codec = Codec(seal: Credential -> string, unseal: string -> Option<Credential>)

  ghost predicate Faithful(codec: Codec) {
    forall c :: codec.unseal(codec.seal(c)) == Some(c)
  }

  /** What outlives the process, and the environment variable that asks for the file. */
  datatype World = World(chain: Chain, file: File<Option<string>>, useFile: bool)

  /**
   * `handles` counts the keyring entries a handle exists for; `lost` is set once a keyring call
   * timed out and took the storage and its handles with it. `cached` is the file's state in memory.
   */
  datatype Backend =
    | KeyringBackend(handles: nat, lost: bool)
    | FileBackend(cached: Option<string>)

  /** `StorageWithLastRead`: the fallback is there as long as the keyring is in use. */
  datatype Session = Session(active: Backend, fallback: bool, lastRead: Option<Credential>)

  /** `stragglers`: a timed-out call may still be changing the keyring in the background. */
  datatype State = State(world: World, session: Option<Session>, stragglers: bool)

  /** Nothing stored anywhere. */
  const EMPTY: State := State(World(map[], File.Missing, false), None, false)

  /**
   * How an access to the keyring goes: it may fail at an entry, if it gets that far, and a
   * timed-out one may leave anything behind.
   */
  datatype KeyAccess = Works | FailsAt(entry: nat) | TimesOut(left: Chain)

  // ---------------------------------------------------------------------------------------
  // Opening the storage
  // ---------------------------------------------------------------------------------------

  function Unseal(codec: Codec, text: Option<string>): Option<Credential> {
    if text.None? then None else codec.unseal(text.value)
  }

  predicate PrefersFile(w: World) { w.useFile || !w.file.Missing? }

  /** Whether a read gets to its end. */
  predicate Readable(chain: Chain, access: KeyAccess) {
    access.Works? || (access.FailsAt? && access.entry > LastRead(chain, 0))
  }

  /** `with_storage`, the first time: the keyring if it can be read, else the file for good. */
  function Open(codec: Codec, s: State, access: KeyAccess): State {
    if s.session.Some? then s
    else if !PrefersFile(s.world) && Readable(s.world.chain, access) then
      var read := ReadFrom(s.world.chain, 0);
      s.(session := Some(Session(KeyringBackend(LastRead(s.world.chain, 0) + 1, false), true,
                                 Unseal(codec, read))))
    else
      var text := FromFile(s.world.file, None);
      var late := !PrefersFile(s.world) && access.TimesOut?;
      s.(session := Some(Session(FileBackend(text), false, Unseal(codec, text))),
         stragglers := s.stragglers || late)
  }

  lemma {:induction false} StopsBefore(chain: Chain, k: nat, e: nat)
    ensures LastRead(chain, k) < e <==> exists j :: k <= j < e && (j !in chain || !EndsWith(chain[j], MORE))
    decreases Entries(chain, k)
  {
    if k in chain && EndsWith(chain[k], MORE) {
      assert k in Entries(chain, k) && k !in Entries(chain, k + 1);
      StopsBefore(chain, k + 1, e);
    }
  }

  /** A read gets to its end: it does not time out, nor fail before an entry without a marker. */
  predicate ReadsThrough(chain: Chain, access: KeyAccess) {
    match access
    case Works => true
    case FailsAt(e) => exists j :: 0 <= j < e && (j !in chain || !EndsWith(chain[j], MORE))
    case TimesOut(_) => false
  }

  /**
   * The keyring is taken into use if nothing speaks for the file and it can be read; in any other
   * case the file is, for good, and what it holds is the current credential.
   */
  lemma OpensExactly(codec: Codec, s: State, access: KeyAccess)
    requires s.session.None?
    ensures var t := Open(codec, s, access);
      && t.world == s.world && t.session.Some?
      && var session := t.session.value;
      && (session.active.KeyringBackend?
          <==> !s.world.useFile && s.world.file.Missing? && ReadsThrough(s.world.chain, access))
      && (session.fallback <==> session.active.KeyringBackend?)
      && session.lastRead ==
        if session.active.KeyringBackend? then
          (match ReadFrom(s.world.chain, 0) case Some(text) => codec.unseal(text) case None => None)
        else if s.world.file.Holding? && s.world.file.value.Some? then codec.unseal(s.world.file.value.value)
        else None
  {
    if access.FailsAt? { StopsBefore(s.world.chain, 0, access.entry); }
  }

  // ---------------------------------------------------------------------------------------
  // The backends
  // ---------------------------------------------------------------------------------------

  /** A store to the active backend, which is left in place. */
  function StoreIn(s: State, text: string, step: nat, access: KeyAccess, write: WriteOutcome<Option<string>>)
    : (r: (State, bool))
    requires s.session.Some? && step > 0
    ensures r.0.session.Some?
  {
    var session := s.session.value;
    match session.active
    case FileBackend(_) =>
      (s.(session := Some(session.(active := FileBackend(Some(text)))),
          world := s.world.(file := AfterWrite(s.world.file, Some(text), write))),
       write.Written?)
    case KeyringBackend(handles, lost) =>
      if lost then (s, false)
      else if access.TimesOut? then (TimedOut(s, access.left), false)
      else
        var parts := Parts(text, step);
        var stop := StopAt(access, parts);
        var n := if stop == parts then parts else stop + 1;
        var chain := if stop == parts then StoreFrom(s.world.chain, text, step, 0)
                     else StoreUntil(s.world.chain, text, step, 0, stop);
        (s.(session := Some(session.(active := KeyringBackend(if n < handles then handles else n, false))),
            world := s.world.(chain := chain)), stop == parts)
  }

  /** The entry at which an access to `n` entries stops; n if it gets through. */
  function StopAt(access: KeyAccess, n: nat): nat {
    if access.FailsAt? && access.entry < n then access.entry else n
  }

  /** A keyring call that timed out keeps the storage, and may still be at work. */
  function TimedOut(s: State, left: Chain): State
    requires s.session.Some? && s.session.value.active.KeyringBackend?
  {
    s.(session := Some(s.session.value.(active := KeyringBackend(0, true))),
       world := s.world.(chain := left), stragglers := true)
  }

  /** `readFails` is for the read in front, whose failure goes unnoticed, `access` for deleting. */
  function ClearIn(s: State, readFails: Option<nat>, access: KeyAccess, write: WriteOutcome<Option<string>>)
    : (r: (State, bool))
    requires s.session.Some?
    ensures r.0.session.Some?
  {
    var session := s.session.value;
    match session.active
    case FileBackend(_) =>
      (s.(session := Some(session.(active := FileBackend(None))),
          world := s.world.(file := AfterWrite(s.world.file, None, write))),
       write.Written?)
    case KeyringBackend(handles, lost) =>
      if lost then (s, false)
      else if access.TimesOut? then (TimedOut(s, access.left), false)
      else
        var n := Handles(s.world.chain, handles, readFails);
        var gone := DeleteStop(s.world.chain, 0, n, if access.FailsAt? then Some(access.entry) else None);
        (s.(session := Some(session.(active := KeyringBackend(if gone == n then 0 else n, false))),
            world := s.world.(chain := Without(s.world.chain, gone))), gone == n)
  }

  // ---------------------------------------------------------------------------------------
  // The operations
  // ---------------------------------------------------------------------------------------

  /**
   * `opens` says how the keyring read goes, should the operation be the first one; `write` is for
   * the file, if it is in charge, and `again` for the file that a failing keyring is given up for.
   */
  datatype Op =
    | Store(c: Credential, opens: KeyAccess, access: KeyAccess, write: WriteOutcome<Option<string>>,
            again: WriteOutcome<Option<string>>)
    | Clear(opens: KeyAccess, readFails: Option<nat>, access: KeyAccess, write: WriteOutcome<Option<string>>)
    | Get(opens: KeyAccess)
    | Straggle(left: Chain)      // a timed-out call goes on in the background
    | Restart

  predicate Enabled(s: State, op: Op) { op.Straggle? ==> s.stragglers }

  /** A failing store switches to the fallback, if it is still there, and tries once more. */
  function StoreText(s: State, text: string, step: nat, op: Op): (r: (State, bool))
    requires step > 0 && op.Store? && s.session.Some?
    ensures r.0.session.Some?
  {
    var (s1, ok) := StoreIn(s, text, step, op.access, op.write);
    var session := s1.session.value;
    if !ok && session.fallback
    then StoreIn(s1.(session := Some(session.(active := FileBackend(None), fallback := false))),
                 text, step, op.access, op.again)
    else (s1, ok)
  }

  function StoreCredential(codec: Codec, step: nat, s: State, op: Op): (r: (State, bool))
    requires step > 0 && op.Store? && s.session.Some?
    ensures r.0.session.Some?
  {
    var (s', ok) := StoreText(s, codec.seal(op.c), step, op);
    (s'.(session := Some(s'.session.value.(lastRead := Some(op.c)))), ok)
  }

  function ClearCredential(s: State, op: Op): (r: (State, bool))
    requires op.Clear? && s.session.Some?
    ensures r.0.session.Some?
  {
    var (s1, ok) := ClearIn(s, op.readFails, op.access, op.write);
    if ok then (s1.(session := Some(s1.session.value.(lastRead := None))), true) else (s1, false)
  }

  function Next(codec: Codec, step: nat, s: State, op: Op): State
    requires step > 0 && Enabled(s, op)
  {
    match op
    case Store(_, opens, _, _, _) => StoreCredential(codec, step, Open(codec, s, opens), op).0
    case Clear(opens, _, _, _) => ClearCredential(Open(codec, s, opens), op).0
    case Get(opens) => Open(codec, s, opens)
    case Straggle(left) => s.(world := s.world.(chain := left))
    case Restart => State(s.world, None, false)
  }

  predicate IsRun(codec: Codec, step: nat, s: State, ops: seq<Op>)
    requires step > 0
    decreases |ops|
  {
    ops != [] ==> Enabled(s, ops[0]) && IsRun(codec, step, Next(codec, step, s, ops[0]), ops[1..])
  }

  function Exec(codec: Codec, step: nat, s: State, ops: seq<Op>): State
    requires step > 0 && IsRun(codec, step, s, ops)
    decreases |ops|
  {
    if ops == [] then s else Exec(codec, step, Next(codec, step, s, ops[0]), ops[1..])
  }

  // ---------------------------------------------------------------------------------------
  // What every operation keeps
  // ---------------------------------------------------------------------------------------

  /** The fallback is there exactly while the keyring is active, and then no file is preferred. */
  predicate Inv(s: State) {
    match s.session
    case None => !s.stragglers
    case Some(session) =>
      && (session.fallback <==> session.active.KeyringBackend?)
      && (session.active.KeyringBackend? ==> !PrefersFile(s.world))
      && (session.active.KeyringBackend? && s.stragglers ==> session.active.lost)
  }

  lemma InvStep(codec: Codec, step: nat, s: State, op: Op)
    requires step > 0 && Enabled(s, op) && Inv(s)
    ensures Inv(Next(codec, step, s, op))
  {}

  lemma {:induction false} InvAlways(codec: Codec, step: nat, s: State, ops: seq<Op>)
    requires step > 0 && Inv(s) && IsRun(codec, step, s, ops)
    ensures Inv(Exec(codec, step, s, ops))
    decreases |ops|
  {
    if ops != [] {
      InvStep(codec, step, s, ops[0]);
      InvAlways(codec, step, Next(codec, step, s, ops[0]), ops[1..]);
    }
  }

  // ---------------------------------------------------------------------------------------
  // Within one session
  // ---------------------------------------------------------------------------------------

  predicate OneSession(ops: seq<Op>) {
    forall i :: 0 <= i < |ops| ==> !ops[i].Restart?
  }

  /** What the caller was told last: the credential stored, or that there is none any more. */
  function Told(codec: Codec, step: nat, s: State, ops: seq<Op>): Option<Option<Credential>>
    requires step > 0 && s.session.Some? && IsRun(codec, step, s, ops) && OneSession(ops)
    decreases |ops|
  {
    if ops == [] then None else
      var later := Told(codec, step, Next(codec, step, s, ops[0]), ops[1..]);
      if later.Some? then later
      else if ops[0].Store? then Some(Some(ops[0].c))
      else if ops[0].Clear? && ClearCredential(s, ops[0]).1 then Some(None)
      else None
  }

  /**
   * Whatever fails below, the current credential is the last one stored, or none after the last
   * successful clear, or else what was read when the storage was opened.
   */
  lemma {:induction false} CurrentIsWhatWasTold(codec: Codec, step: nat, s: State, ops: seq<Op>)
    requires step > 0 && s.session.Some? && IsRun(codec, step, s, ops) && OneSession(ops)
    ensures Exec(codec, step, s, ops).session.Some?
    ensures var told := Told(codec, step, s, ops);
      Exec(codec, step, s, ops).session.value.lastRead
      == if told.Some? then told.value else s.session.value.lastRead
    decreases |ops|
  {
    if ops != [] {
      CurrentIsWhatWasTold(codec, step, Next(codec, step, s, ops[0]), ops[1..]);
    }
  }

  /** The fallback is taken at most once in a session and never undone. */
  lemma {:induction false} FallbackIsForGood(codec: Codec, step: nat, s: State, ops: seq<Op>)
    requires step > 0 && s.session.Some? && s.session.value.active.FileBackend?
    requires !s.session.value.fallback && IsRun(codec, step, s, ops) && OneSession(ops)
    ensures var t := Exec(codec, step, s, ops);
      && t.session.Some? && t.session.value.active.FileBackend? && !t.session.value.fallback
      && (s.world.chain == t.world.chain || s.stragglers)
    decreases |ops|
  {
    if ops != [] {
      FallbackIsForGood(codec, step, Next(codec, step, s, ops[0]), ops[1..]);
    }
  }

  // ---------------------------------------------------------------------------------------
  // Over restarts
  // ---------------------------------------------------------------------------------------

  /** What a new process finds, if the keyring can be read. */
  function AfterRestart(codec: Codec, w: World): Option<Credential> {
    Open(codec, State(w, None, false), Works).session.value.lastRead
  }

  /** A clear that can fail without anything being deleted. */
  predicate Harmless(s: State, op: Op)
    requires op.Clear? && s.session.Some?
  {
    match s.session.value.active
    case FileBackend(_) => op.write.OpenFailed?
    case KeyringBackend(_, lost) =>
      lost || (!op.access.TimesOut? && (0 !in s.world.chain || op.access == FailsAt(0)))
  }

  /** What a new process finds when the clear fails all the same. */
  function Forgotten(codec: Codec, s: State, op: Op): Option<Credential>
    requires op.Clear? && s.session.Some?
  {
    if s.session.value.active.FileBackend? then
      if op.write.WriteFailed? && op.write.left.Some? then Unseal(codec, op.write.left.value) else None
    else if op.access.TimesOut? then AfterRestart(codec, s.world.(chain := op.access.left))
    else None
  }

  /**
   * A failing clear may have removed the credential for good while the session goes on
   * reporting it. It leaves everything as it was exactly in the cases above; in the others the
   * first entry or the contents of the file are gone.
   */
  lemma FailedClearForgetsExactly(codec: Codec, s: State, op: Op)
    requires op.Clear? && s.session.Some? && Inv(s) && !ClearCredential(s, op).1
    ensures var t := ClearCredential(s, op).0;
      && t.session.value.lastRead == s.session.value.lastRead
      && (Harmless(s, op) ==> t.world == s.world)
      && AfterRestart(codec, t.world)
           == if Harmless(s, op) then AfterRestart(codec, s.world) else Forgotten(codec, s, op)
  {
    if s.session.value.active.KeyringBackend? && !s.session.value.active.lost && !op.access.TimesOut? {
      var n := Handles(s.world.chain, s.session.value.active.handles, op.readFails);
      var m := DeleteStop(s.world.chain, 0, n, if op.access.FailsAt? then Some(op.access.entry) else None);
      if m == 0 {
        assert Without(s.world.chain, 0) == s.world.chain;
      } else {
        assert ReadFrom(Without(s.world.chain, m), 0) == None;
      }
    }
  }

  /** Nothing is stored, and no clear succeeds or does harm. */
  predicate Keeps(codec: Codec, step: nat, s: State, ops: seq<Op>)
    requires step > 0 && IsRun(codec, step, s, ops)
    decreases |ops|
  {
    ops != [] ==>
      && s.session.Some?
      && (ops[0].Get? || ops[0].Straggle?
          || (ops[0].Clear? && !ClearCredential(s, ops[0]).1 && Harmless(s, ops[0])))
      && Keeps(codec, step, Next(codec, step, s, ops[0]), ops[1..])
  }

  lemma KeepStep(codec: Codec, step: nat, s: State, op: Op)
    requires step > 0 && s.session.Some? && Inv(s) && Enabled(s, op)
    requires op.Get? || op.Straggle? || (op.Clear? && !ClearCredential(s, op).1 && Harmless(s, op))
    ensures var t := Next(codec, step, s, op);
      && Inv(t) && t.session.Some? && t.session.value.lastRead == s.session.value.lastRead
      && t.session.value.active.FileBackend? == s.session.value.active.FileBackend?
      && t.stragglers == s.stragglers
      && (if s.stragglers then t.world == s.world.(chain := t.world.chain) else t.world == s.world)
  {
    if op.Clear? { FailedClearForgetsExactly(codec, s, op); }
  }

  /** Meanwhile, only a keyring that is no longer used can change. */
  lemma {:induction false} KeepOps(codec: Codec, step: nat, s: State, ops: seq<Op>)
    requires step > 0 && s.session.Some? && Inv(s) && IsRun(codec, step, s, ops) && Keeps(codec, step, s, ops)
    ensures var t := Exec(codec, step, s, ops);
      && t.session.Some? && t.session.value.lastRead == s.session.value.lastRead
      && t.session.value.active.FileBackend? == s.session.value.active.FileBackend?
      && t.stragglers == s.stragglers
      && (if s.stragglers then t.world == s.world.(chain := t.world.chain) else t.world == s.world)
    decreases |ops|
  {
    if ops != [] {
      KeepStep(codec, step, s, ops[0]);
      KeepOps(codec, step, Next(codec, step, s, ops[0]), ops[1..]);
    }
  }

  lemma MoreSteps(a: nat, b: nat, step: nat)
    requires a < b
    ensures a * step + step <= b * step
  {
    assert a + 1 <= b;
    assert (a + 1) * step <= b * step;
  }

  lemma PartsFit(text: string, step: nat, e: nat)
    requires step > 0
    ensures Parts(text, step) <= e <==> |text| <= e * step
  {
    PartsByLength(text, step);
    Quotient(|text|, step);
    StepsFit(|text|, step, |text| / step, |text| % step, e);
    assert LastPart(text, step) == "" <==> |text| % step == 0;
  }

  lemma Quotient(n: nat, step: nat)
    requires step > 0
    ensures n == n / step * step + n % step
  {}

  /** n takes a step more than fit into it, unless nothing is left. */
  lemma StepsFit(n: nat, step: nat, q: nat, r: nat, e: nat)
    requires n == q * step + r && r < step
    ensures (if r == 0 then q else q + 1) <= e <==> n <= e * step
  {
    if q < e { MoreSteps(q, e, step); } else if e < q { MoreSteps(e, q, step); }
  }

  /** Whether the keyring takes a text of this length. */
  predicate KeyringTakes(backend: Backend, length: nat, step: nat, access: KeyAccess) {
    && backend.KeyringBackend? && !backend.lost
    && (access.Works? || (access.FailsAt? && length <= access.entry * step))
  }

  /**
   * A store goes to the keyring if that is in charge and takes it, and otherwise, then and from
   * then on, to the file; it fails exactly if it went to the file and that could not be written.
   */
  lemma StoreOutcome(codec: Codec, step: nat, s: State, op: Op)
    requires step > 0 && op.Store? && s.session.Some? && Inv(s)
    ensures var (t, ok) := StoreCredential(codec, step, s, op);
      && Inv(t) && t.session.value.lastRead == Some(op.c)
      && var text := codec.seal(op.c);
      if KeyringTakes(s.session.value.active, |text|, step, op.access) then
        && ok && t.session.value.active.KeyringBackend? && !t.stragglers
        && t.world == s.world.(chain := StoreFrom(s.world.chain, text, step, 0))
      else
        var write := if s.session.value.active.FileBackend? then op.write else op.again;
        && (ok <==> write.Written?)
        && t.session.value.active == FileBackend(Some(text))
        && t.world.file == AfterWrite(s.world.file, Some(text), write)
        && (ok ==> t.world.file == Holding(Some(text)))
  {
    if op.access.FailsAt? { PartsFit(codec.seal(op.c), step, op.access.entry); }
  }

  /**
   * A store that the backend in charge accepted survives a restart, if that backend is the file
   * or the sealed text is one that a keyring gives back.
   */
  lemma StoreSurvivesRestart(codec: Codec, step: nat, s: State, op: Op, later: seq<Op>)
    requires Faithful(codec) && step > 0 && op.Store? && s.session.Some? && Inv(s)
    requires IsRun(codec, step, Next(codec, step, s, op), later) && Keeps(codec, step, Next(codec, step, s, op), later)
    requires StoreCredential(codec, step, s, op).1
    requires Next(codec, step, s, op).session.value.active.KeyringBackend? ==> Survives(codec.seal(op.c), step)
    ensures AfterRestart(codec, Exec(codec, step, Next(codec, step, s, op), later).world) == Some(op.c)
  {
    var t := Next(codec, step, s, op);
    StoreOutcome(codec, step, s, op);
    KeepOps(codec, step, t, later);
    if t.session.value.active.KeyringBackend? {
      RoundTripExactly(codec.seal(op.c), step);
      assert ReadBack(s.world.chain, codec.seal(op.c), step) == Some(codec.seal(op.c));
    }
  }

  /**
   * Without that condition it does not: a sealed text that fills its entries exactly is lost
   * although the keyring accepted it and the running process goes on using it.
   */
  lemma ExactMultipleIsLost(codec: Codec, step: nat, c: Credential)
    requires step > 0 && |codec.seal(c)| > 0 && |codec.seal(c)| % step == 0
    ensures var s := Open(codec, EMPTY, Works);
      var op := Store(c, Works, Works, Written, Written);
      && s.session.Some? && Inv(s)
      && StoreCredential(codec, step, s, op).1
      && Next(codec, step, s, op).session.value.lastRead == Some(c)
      && AfterRestart(codec, Next(codec, step, s, op).world) == None
  {
    var s := Open(codec, EMPTY, Works);
    StoreOutcome(codec, step, s, Store(c, Works, Works, Written, Written));
    MultipleRunsOn(map[], codec.seal(c), step);
  }

  /** Every entry that there is a handle for exists and can be deleted. */
  predicate Deletable(chain: Chain, handles: nat, op: Op)
    requires op.Clear?
  {
    forall j :: 0 <= j < Handles(chain, handles, op.readFails) ==> j in chain && op.access != FailsAt(j)
  }

  /**
   * A clear succeeds exactly if the file can be written, or if every keyring entry that there is
   * a handle for exists and can be deleted.
   */
  lemma ClearOutcome(s: State, op: Op)
    requires op.Clear? && s.session.Some? && Inv(s)
    ensures var (t, ok) := ClearCredential(s, op);
      && Inv(t)
      && t.session.value.lastRead == (if ok then None else s.session.value.lastRead)
      && match s.session.value.active
         case FileBackend(_) =>
           (ok <==> op.write.Written?) && t.world == s.world.(file := AfterWrite(s.world.file, None, op.write))
         case KeyringBackend(handles, lost) =>
           && (ok <==> (!lost && !op.access.TimesOut? && Deletable(s.world.chain, handles, op)))
           && t.session.value.active.KeyringBackend? && t.world.file == s.world.file
           && (ok ==> !t.stragglers && 0 !in t.world.chain)
  {}

  /** A successful clear survives a restart, whichever backend is in charge. */
  lemma ClearSurvivesRestart(codec: Codec, step: nat, s: State, op: Op, later: seq<Op>)
    requires step > 0 && op.Clear? && s.session.Some? && Inv(s)
    requires IsRun(codec, step, Next(codec, step, s, op), later) && Keeps(codec, step, Next(codec, step, s, op), later)
    requires ClearCredential(s, op).1
    ensures AfterRestart(codec, Exec(codec, step, Next(codec, step, s, op), later).world) == None
  {
    ClearOutcome(s, op);
    KeepOps(codec, step, Next(codec, step, s, op), later);
  }

  /** Storing an exact multiple, then in a new process something shorter, and clearing that. */
  function StoreTwiceAndClear(d: Credential, c: Credential): seq<Op> {
    [Store(d, Works, Works, Written, Written), Restart, Store(c, Works, Works, Written, Written), Clear(Works, None, Works, Written)]
  }

  lemma StoredBefore(codec: Codec, step: nat, d: Credential, c: Credential)
    returns (s: State)
    requires step > 0 && |codec.seal(d)| == step && 0 < |codec.seal(c)| < step
    ensures IsRun(codec, step, EMPTY, StoreTwiceAndClear(d, c)[..3])
    ensures Exec(codec, step, EMPTY, StoreTwiceAndClear(d, c)[..3]) == s
    ensures s.world == World(map[0 := codec.seal(c)], File.Missing, false) && !s.stragglers
    ensures s.session == Some(Session(KeyringBackend(2, false), true, Some(c)))
  {
    var ops := StoreTwiceAndClear(d, c)[..3];
    ExactMultipleStored(codec.seal(d), step);
    var s1 := Next(codec, step, EMPTY, ops[0]);
    assert s1.world.chain == map[0 := codec.seal(d) + MORE];
    EndsInMarker(codec.seal(d));
    var s2 := Next(codec, step, s1, ops[1]);
    assert LastRead(s2.world.chain, 0) == LastRead(s2.world.chain, 1) == 1;
    s := Next(codec, step, s2, ops[2]);
    assert s.world.chain == map[0 := codec.seal(c)];
    assert ops[2..] == [ops[2]] && ops[1..][1..] == ops[2..] && ops[2..][1..] == [];
    assert ops[1..][0] == ops[1] && ops[2..][0] == ops[2];
    assert IsRun(codec, step, s, []) && IsRun(codec, step, s2, ops[2..]) && IsRun(codec, step, s1, ops[1..]);
    assert Exec(codec, step, s, []) == s && Exec(codec, step, s2, ops[2..]) == s;
    assert Exec(codec, step, s1, ops[1..]) == s;
  }

  lemma ExactMultipleStored(text: string, step: nat)
    requires step > 0 && |text| == step
    ensures StoreFrom(map[], text, step, 0) == map[0 := text + MORE] && Parts(text, step) == 1
  {
    assert text[..step] == text && text[step..] == "";
    assert StoreFrom(map[0 := text + MORE], "", step, 1) == map[0 := text + MORE];
    PartsByLength(text, step);
  }

  /**
   * A run in which that happens, for any two such credentials: the session has a handle for the
   * entry after an exact multiple, so the clear deletes the credential and fails at that entry.
   */
  lemma FailedClearCanForget(codec: Codec, step: nat, d: Credential, c: Credential)
    requires Faithful(codec) && step > 0 && |codec.seal(d)| == step
    requires 0 < |codec.seal(c)| < step && !EndsWith(codec.seal(c), MORE)
    ensures var ops := StoreTwiceAndClear(d, c);
      && IsRun(codec, step, EMPTY, ops[..3])
      && var s := Exec(codec, step, EMPTY, ops[..3]);
      && s.session.Some? && AfterRestart(codec, s.world) == Some(c)
      && var (t, ok) := ClearCredential(s, ops[3]);
      && !ok && t == Next(codec, step, s, ops[3])
      && t.session.value.lastRead == Some(c) && AfterRestart(codec, t.world) == None
  {
    var s := StoredBefore(codec, step, d, c);
    var chain := s.world.chain;
    assert ReadFrom(chain, 0) == Some(codec.seal(c)) && LastRead(chain, 0) == 0;
    assert Handles(chain, 2, None) == 2 && DeleteStop(chain, 0, 2, None) == DeleteStop(chain, 1, 2, None) == 1;
    FailedClearForgetsExactly(codec, s, StoreTwiceAndClear(d, c)[3]);
  }

  // ---------------------------------------------------------------------------------------
  // The object
  // ---------------------------------------------------------------------------------------

  /** The keyring storage as run on a thread of its own; it is gone once a call timed out. */
  class ThreadKeyringStorage {
    const service: Service
    const step: nat
    var s: Option<KeyringStorage>

    ghost predicate Valid()
      reads this, Inner()
    {
      s.Some? ==> s.value.Valid() && s.value.service == service && s.value.step == step
    }

    ghost function Inner(): set<object>
      reads this
    {
      if s.Some? then {s.value} else {}
    }

    function View(): Backend
      reads this, if s.Some? then {s.value} else {}
    {
      KeyringBackend(if s.Some? then |s.value.entries| else 0, s.None?)
    }

    constructor (service: Service, limit: nat)
      requires limit > |MORE|
      ensures Valid() && this.service == service && step == limit - |MORE|
      ensures View() == KeyringBackend(0, false) && fresh(Inner())
    {
      this.service := service;
      this.step := limit - |MORE|;
      var k := new KeyringStorage(service, limit);
      this.s := Some(k);
    }

    /** The text read, if the read gets to its end. */
    method Read(access: KeyAccess) returns (ok: bool, text: Option<string>)
      requires Valid() && View() == KeyringBackend(0, false)
      modifies this, Inner()
      ensures Valid() && Inner() <= old(Inner())
      ensures ok <==> ReadsThrough(service.chain, access)
      ensures ok ==>
        text == ReadFrom(service.chain, 0) && View() == KeyringBackend(LastRead(service.chain, 0) + 1, false)
    {
      if access.TimesOut? {
        s := None;
        return false, None;
      }
      if access.FailsAt? { StopsBefore(service.chain, 0, access.entry); }
      var found := s.value.Read(if access.FailsAt? then Some(access.entry) else None);
      match found {
        case Found(t) => return true, Some(t);
        case Missing => return true, None;
        case ReadError => return false, None;
      }
    }

    /** A call that times out may leave anything in the keyring. */
    method TimeOut(left: Chain)
      requires Valid()
      modifies this, service
      ensures Valid() && s.None? && service.chain == left
    {
      s := None;
      service.chain := left;
    }

    method Store(text: string, access: KeyAccess) returns (ok: bool)
      requires Valid() && step > 0
      modifies this, Inner(), service
      ensures Valid() && Inner() <= old(Inner())
      ensures ok <==> KeyringTakes(old(View()), |text|, step, access)
      ensures var handles := if old(s.Some?) then old(|s.value.entries|) else 0;
        var (n, done) := WrittenTo(text, step, access);
        if old(s.None?) then View() == old(View()) && service.chain == old(service.chain)
        else if access.TimesOut? then View() == KeyringBackend(0, true) && service.chain == access.left
        else
          && View() == KeyringBackend(if n < handles then handles else n, false)
          && service.chain == if done then StoreFrom(old(service.chain), text, step, 0)
             else StoreUntil(old(service.chain), text, step, 0, access.entry)
    {
      if s.None? { return false; }
      if access.TimesOut? {
        TimeOut(access.left);
        return false;
      }
      if access.FailsAt? { PartsFit(text, step, access.entry); }
      ok := s.value.Store(text, if access.FailsAt? then Some(access.entry) else None);
    }

    method Clear(readFails: Option<nat>, access: KeyAccess) returns (ok: bool)
      requires Valid()
      modifies this, Inner(), service
      ensures Valid() && Inner() <= old(Inner())
      ensures var handles := if old(s.Some?) then old(|s.value.entries|) else 0;
        var n := Handles(old(service.chain), handles, readFails);
        var gone := DeleteStop(old(service.chain), 0, n, if access.FailsAt? then Some(access.entry) else None);
        && (ok <==> old(s.Some?) && !access.TimesOut? && gone == n)
        && if old(s.None?) then View() == old(View()) && service.chain == old(service.chain)
           else if access.TimesOut? then View() == KeyringBackend(0, true) && service.chain == access.left
           else
             && View() == KeyringBackend(if ok then 0 else n, false)
             && service.chain == Without(old(service.chain), gone)
    {
      if s.None? { return false; }
      if access.TimesOut? {
        TimeOut(access.left);
        return false;
      }
      ok := s.value.Clear(readFails, if access.FailsAt? then Some(access.entry) else None);
    }
  }

  /** How many entries a store has handles for, and whether it gets through. */
  function WrittenTo(text: string, step: nat, access: KeyAccess): (nat, bool)
    requires step > 0
  {
    if access.FailsAt? && access.entry < Parts(text, step) then (access.entry + 1, false)
    else (Parts(text, step), true)
  }

  /** Which storage is in charge, whether the file is there to fall back to, and the last value. */
  datatype StorageWithLastRead = StorageWithLastRead(keyring: bool, fallback: bool, lastRead: Option<Credential>)

  class Auth {
    const codec: Codec
    const useFile: bool
    const service: Service
    const keyring: ThreadKeyringStorage
    const file: Container<Option<string>>
    var storage: Option<StorageWithLastRead>
    var stragglers: bool

    /** The objects, and that neither storage was touched before it was taken into use. */
    ghost predicate Valid()
      reads this, keyring, keyring.Inner(), file
    {
      && keyring.Valid() && keyring.service == service && keyring.step > 0 && file.fallback == None
      && (storage.None? ==> keyring.View() == KeyringBackend(0, false))
      && (storage.None? || storage.value.keyring ==> file.state.None?)
      && (storage.Some? ==> (storage.value.fallback <==> storage.value.keyring))
    }

    ghost function Repr(): set<object>
      reads this, keyring
    {
      {this, keyring, service, file} + keyring.Inner()
    }

    constructor (codec: Codec, limit: nat, world: World)
      requires limit > |MORE|
      ensures Valid() && fresh(Repr()) && View() == State(world, None, false)
      ensures this.codec == codec && keyring.step == limit - |MORE|
    {
      this.codec := codec;
      this.useFile := world.useFile;
      var keys := new Service(world.chain);
      this.service := keys;
      this.keyring := new ThreadKeyringStorage(keys, limit);
      this.file := new Container(world.file, None);
      this.storage := None;
      this.stragglers := false;
    }

    function View(): State
      reads this, service, keyring, if keyring.s.Some? then {keyring.s.value} else {}, file
    {
      var session :=
        if storage.None? then None else
          var active := if storage.value.keyring then keyring.View()
                        else FileBackend(if file.state.Some? then file.state.value else None);
          Some(Session(active, storage.value.fallback, storage.value.lastRead));
      State(World(service.chain, file.file, useFile), session, stragglers)
    }

    /** Reads from the keyring or else the file, unless that was done before. */
    method WithStorage(opens: KeyAccess)
      requires Valid()
      modifies Repr()
      ensures Valid() && Repr() <= old(Repr()) && storage.Some?
      ensures View() == Open(codec, old(View()), opens)
    {
      if storage.Some? { return; }
      if !useFile && file.file.Missing? {
        if opens.FailsAt? { StopsBefore(service.chain, 0, opens.entry); }
        var ok, text := keyring.Read(opens);
        if ok {
          storage := Some(StorageWithLastRead(true, true, Unseal(codec, text)));
          return;
        }
        stragglers := stragglers || opens.TimesOut?;
      }
      var text := file.LoadOrGet();
      storage := Some(StorageWithLastRead(false, false, Unseal(codec, text)));
    }

    /** A store to the storage in charge. */
    method Store(text: string, access: KeyAccess, write: WriteOutcome<Option<string>>) returns (ok: bool)
      requires Valid() && storage.Some?
      modifies service, keyring, keyring.Inner(), file, this`stragglers
      ensures Valid() && Repr() <= old(Repr()) && storage == old(storage)
      ensures (View(), ok) == StoreIn(old(View()), text, keyring.step, access, write)
    {
      if storage.value.keyring {
        if access.FailsAt? { PartsFit(text, keyring.step, access.entry); }
        stragglers := stragglers || (keyring.s.Some? && access.TimesOut?);
        ok := keyring.Store(text, access);
      } else {
        ok := file.Save(Some(text), write);
      }
    }

    /** Stores, if need be in the file, which then stays in charge. */
    method StoreCredentials(op: Op) returns (ok: bool)
      requires Valid() && op.Store?
      modifies Repr()
      ensures Valid() && Repr() <= old(Repr())
      ensures View() == Next(codec, keyring.step, old(View()), op)
      ensures ok == StoreCredential(codec, keyring.step, Open(codec, old(View()), op.opens), op).1
      ensures storage.Some? && storage.value.lastRead == Some(op.c)
    {
      WithStorage(op.opens);
      ok := StoreOrFallBack(codec.seal(op.c), op);
      storage := Some(storage.value.(lastRead := Some(op.c)));
    }

    method StoreOrFallBack(text: string, op: Op) returns (ok: bool)
      requires Valid() && storage.Some? && op.Store?
      modifies Repr()
      ensures Valid() && Repr() <= old(Repr()) && storage.Some?
      ensures (View(), ok) == StoreText(old(View()), text, keyring.step, op)
    {
      ok := Store(text, op.access, op.write);
      if !ok && storage.value.fallback {
        storage := Some(storage.value.(keyring := false, fallback := false));
        ok := Store(text, op.access, op.again);
      }
    }

    /** Clears the storage in charge. */
    method Clear(readFails: Option<nat>, access: KeyAccess, write: WriteOutcome<Option<string>>) returns (ok: bool)
      requires Valid() && storage.Some?
      modifies service, keyring, keyring.Inner(), file, this`stragglers
      ensures Valid() && Repr() <= old(Repr()) && storage == old(storage)
      ensures (View(), ok) == ClearIn(old(View()), readFails, access, write)
    {
      if storage.value.keyring {
        stragglers := stragglers || (keyring.s.Some? && access.TimesOut?);
        ok := keyring.Clear(readFails, access);
      } else {
        ok := file.Save(None, write);
      }
    }

    method ClearCredentials(op: Op) returns (ok: bool)
      requires Valid() && op.Clear?
      modifies Repr()
      ensures Valid() && Repr() <= old(Repr())
      ensures View() == Next(codec, keyring.step, old(View()), op)
      ensures ok == ClearCredential(Open(codec, old(View()), op.opens), op).1
      ensures storage.Some? && (ok ==> storage.value.lastRead == None)
    {
      WithStorage(op.opens);
      ok := Clear(op.readFails, op.access, op.write);
      if !ok { return; }
      storage := Some(storage.value.(lastRead := None));
    }

    method GetCurrentCredential(opens: KeyAccess) returns (c: Option<Credential>)
      requires Valid()
      modifies Repr()
      ensures Valid() && Repr() <= old(Repr())
      ensures View() == Next(codec, keyring.step, old(View()), Get(opens))
      ensures storage.Some? && c == storage.value.lastRead
    {
      WithStorage(opens);
      c := storage.value.lastRead;
    }
  }
}
