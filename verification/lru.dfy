/** The list of recently used cache entries, and the eviction it drives. */
module Lru {
  import opened Common
  import opened PersistedState

  const KEEP_LRU: nat := 5

  // ---------------------------------------------------------------------------------------
  // The update applied to the list
  // ---------------------------------------------------------------------------------------

  /** Without the first occurrence. */
  function RemoveFirst(l: seq<string>, name: string): seq<string> {
    if l == [] then [] else if l[0] == name then l[1..] else [l[0]] + RemoveFirst(l[1..], name)
  }

  /** Without any occurrence. */
  function Retain(l: seq<string>, name: string): seq<string> {
    if l == [] then [] else if l[0] == name then Retain(l[1..], name) else [l[0]] + Retain(l[1..], name)
  }

  function MoveToFront(l: seq<string>, name: string): seq<string> { [name] + RemoveFirst(l, name) }

  /** One call of `touch`; `gone` says whether the last entry is missing or could be removed. */
  function Touch(l: seq<string>, name: string, gone: bool): seq<string> {
    var m := MoveToFront(l, name);
    if |m| <= KEEP_LRU || !gone then m else m[..|m| - 1]
  }

  datatype Op =
    | Touched(name: string, gone: bool)
    | Deleted(name: string, gone: bool)   // gone: the directory is missing or could be removed

  function Apply(l: seq<string>, op: Op): seq<string> {
    match op
    case Touched(name, gone) => Touch(l, name, gone)
    case Deleted(name, gone) => if gone then Retain(l, name) else l
  }

  function Run(l: seq<string>, ops: seq<Op>): seq<string> {
    if ops == [] then l else Apply(Run(l, ops[..|ops| - 1]), ops[|ops| - 1])
  }

  // ---------------------------------------------------------------------------------------
  // What every operation keeps
  // ---------------------------------------------------------------------------------------

  ghost predicate NoDuplicates(l: seq<string>) {
    forall i, j :: 0 <= i < j < |l| ==> l[i] != l[j]
  }

  lemma {:induction false} RemoveFirstFacts(l: seq<string>, name: string)
    requires NoDuplicates(l)
    ensures NoDuplicates(RemoveFirst(l, name))
    ensures forall x :: x in RemoveFirst(l, name) <==> x in l && x != name
    ensures |RemoveFirst(l, name)| == |l| - if name in l then 1 else 0
  {
    if l != [] {
      assert l == [l[0]] + l[1..];
      RemoveFirstFacts(l[1..], name);
      var r := RemoveFirst(l[1..], name);
      assert l[0] !in r;
      if l[0] != name {
        forall i, j | 0 <= i < j < |r| + 1 ensures ([l[0]] + r)[i] != ([l[0]] + r)[j] {
          assert ([l[0]] + r)[j] == r[j - 1];
        }
      }
    }
  }

  lemma {:induction false} RetainIsRemoveFirst(l: seq<string>, name: string)
    requires NoDuplicates(l)
    ensures Retain(l, name) == RemoveFirst(l, name)
  {
    if l != [] {
      assert l == [l[0]] + l[1..];
      RetainIsRemoveFirst(l[1..], name);
      if l[0] == name { RemoveAbsent(l[1..], name); }
    }
  }

  lemma {:induction false} RemoveAbsent(l: seq<string>, name: string)
    requires name !in l
    ensures RemoveFirst(l, name) == l
  {
    if l != [] {
      assert l == [l[0]] + l[1..];
      RemoveAbsent(l[1..], name);
    }
  }

  /** Moving the name to the front makes the list too long. */
  predicate Evicts(l: seq<string>, name: string) { |MoveToFront(l, name)| > 5 }

  /** The name that is then last. */
  function LastOf(l: seq<string>, name: string): string {
    MoveToFront(l, name)[|MoveToFront(l, name)| - 1]
  }

  lemma ApplyFacts(l: seq<string>, op: Op)
    requires NoDuplicates(l)
    ensures NoDuplicates(Apply(l, op))
    ensures op.Touched? ==> Apply(l, op) != [] && Apply(l, op)[0] == op.name
    ensures op.Deleted? && op.gone ==> op.name !in Apply(l, op)
    ensures op.Deleted? && !op.gone ==> Apply(l, op) == l
    ensures |Apply(l, op)| <= KEEP_LRU || |Apply(l, op)| <= |l|
      || (op.Touched? && |MoveToFront(l, op.name)| > KEEP_LRU && !op.gone && |Apply(l, op)| == |l| + 1)
  {
    RemoveFirstFacts(l, op.name);
    RetainIsRemoveFirst(l, op.name);
  }

  lemma FrontStaysDistinct(l: seq<string>, name: string)
    requires NoDuplicates(l)
    ensures var m := MoveToFront(l, name);
      && NoDuplicates(m)
      && forall x :: x in m[..|m| - 1] <==> x in m && x != m[|m| - 1]
  {
    RemoveFirstFacts(l, name);
    var m := MoveToFront(l, name);
    forall i, j | 0 <= i < j < |m| ensures m[i] != m[j] {
      assert m[j] == RemoveFirst(l, name)[j - 1];
    }
  }

  /** Touching adds the name and takes away the last one only, if that can go; deleting its own. */
  lemma MembersAfter(l: seq<string>, op: Op, x: string)
    requires NoDuplicates(l)
    ensures x in Apply(l, op) <==>
      match op
      case Touched(name, gone) => (x == name || x in l) && !(gone && Evicts(l, name) && x == LastOf(l, name))
      case Deleted(name, gone) => x in l && !(gone && x == name)
  {
    RemoveFirstFacts(l, op.name);
    match op
    case Touched(name, gone) =>
      var m := MoveToFront(l, name);
      FrontStaysDistinct(l, name);
      assert x in m <==> x == name || x in RemoveFirst(l, name);
      assert Touch(l, name, gone) == if Evicts(l, name) && gone then m[..|m| - 1] else m;
    case Deleted(name, _) => RetainIsRemoveFirst(l, name);
  }

  /** The name just touched is not the one that is evicted. */
  lemma LastIsAnother(l: seq<string>, name: string)
    ensures var m := MoveToFront(l, name);
      NoDuplicates(l) && |m| > 1 ==> m[|m| - 1] != name
  {
    if NoDuplicates(l) { RemoveFirstFacts(l, name); }
  }

  /** How many touches had an entry to evict and could not remove it. */
  function Failures(l: seq<string>, ops: seq<Op>): nat {
    if ops == [] then 0
    else
      var front, op := ops[..|ops| - 1], ops[|ops| - 1];
      Failures(l, front)
      + if op.Touched? && |MoveToFront(Run(l, front), op.name)| > KEEP_LRU && !op.gone then 1 else 0
  }

  /** No duplicates, and beyond five names only those of the start or of failed evictions. */
  lemma {:induction false} ListStaysShort(l: seq<string>, ops: seq<Op>)
    requires NoDuplicates(l)
    ensures NoDuplicates(Run(l, ops))
    ensures |Run(l, ops)| <= (if |l| > KEEP_LRU then |l| else KEEP_LRU) + Failures(l, ops)
  {
    if ops != [] {
      ListStaysShort(l, ops[..|ops| - 1]);
      ApplyFacts(Run(l, ops[..|ops| - 1]), ops[|ops| - 1]);
    }
  }

  // ---------------------------------------------------------------------------------------
  // Order of last use
  // ---------------------------------------------------------------------------------------

  /** When a name was last touched; names never touched count by their place in the first list. */
  function LastUse(l: seq<string>, ops: seq<Op>, name: string): int {
    if ops == [] then -1 - Position(l, name)
    else if ops[|ops| - 1].Touched? && ops[|ops| - 1].name == name then |ops|
    else LastUse(l, ops[..|ops| - 1], name)
  }

  function Position(l: seq<string>, name: string): nat {
    if l == [] || l[0] == name then 0 else 1 + Position(l[1..], name)
  }

  lemma {:induction false} PositionOf(l: seq<string>, i: nat)
    requires NoDuplicates(l) && i < |l|
    ensures Position(l, l[i]) == i
  {
    if i > 0 {
      PositionOf(l[1..], i - 1);
    }
  }

  ghost predicate ByLastUse(l: seq<string>, first: seq<string>, ops: seq<Op>) {
    forall i, j :: 0 <= i < j < |l| ==> LastUse(first, ops, l[i]) > LastUse(first, ops, l[j])
  }

  lemma {:induction false} LastUseBound(l: seq<string>, ops: seq<Op>, name: string)
    ensures LastUse(l, ops, name) <= |ops|
  {
    if ops != [] { LastUseBound(l, ops[..|ops| - 1], name); }
  }

  lemma {:induction false} RemoveFirstKeepsOrder(l: seq<string>, name: string, first: seq<string>, ops: seq<Op>)
    requires NoDuplicates(l) && ByLastUse(l, first, ops)
    ensures ByLastUse(RemoveFirst(l, name), first, ops)
  {
    if l != [] {
      var t, r := l[1..], RemoveFirst(l, name);
      assert l == [l[0]] + t;
      RemoveFirstKeepsOrder(t, name, first, ops);
      RemoveFirstFacts(t, name);
      if l[0] != name {
        forall j | 0 < j < |r| ensures LastUse(first, ops, r[0]) > LastUse(first, ops, r[j]) {
          assert r[j] == RemoveFirst(t, name)[j - 1] && r[j] in t;
          var k :| 0 <= k < |t| && t[k] == r[j];
          assert l[k + 1] == r[j];
        }
        forall i, j | 0 < i < j < |r| ensures LastUse(first, ops, r[i]) > LastUse(first, ops, r[j]) {
          assert r[i] == RemoveFirst(t, name)[i - 1] && r[j] == RemoveFirst(t, name)[j - 1];
        }
      }
    }
  }

  lemma LaterUse(l: seq<string>, first: seq<string>, ops: seq<Op>)
    requires ops != [] && ByLastUse(l, first, ops[..|ops| - 1])
    requires ops[|ops| - 1].Touched? ==> ops[|ops| - 1].name !in l
    ensures ByLastUse(l, first, ops)
  {}

  /** Whatever was touched, deleted or could not be removed: the list is in order of last use. */
  lemma {:induction false} ListIsByLastUse(l: seq<string>, ops: seq<Op>)
    requires NoDuplicates(l)
    ensures ByLastUse(Run(l, ops), l, ops)
  {
    if ops == [] {
      forall i, j | 0 <= i < j < |l| ensures LastUse(l, ops, l[i]) > LastUse(l, ops, l[j]) {
        PositionOf(l, i);
        PositionOf(l, j);
      }
    } else {
      var front, op := ops[..|ops| - 1], ops[|ops| - 1];
      var before := Run(l, front);
      ListIsByLastUse(l, front);
      ListStaysShort(l, front);
      RemoveFirstKeepsOrder(before, op.name, l, front);
      RemoveFirstFacts(before, op.name);
      RetainIsRemoveFirst(before, op.name);
      var rest := RemoveFirst(before, op.name);
      if op.Touched? {
        LaterUse(rest, l, ops);
        forall j | 0 <= j < |rest| ensures LastUse(l, ops, op.name) > LastUse(l, ops, rest[j]) {
          LastUseBound(l, front, rest[j]);
        }
      } else if op.gone {
        LaterUse(rest, l, ops);
      } else {
        LaterUse(before, l, ops);
      }
    }
  }

  // ---------------------------------------------------------------------------------------
  // The five most recently used
  // ---------------------------------------------------------------------------------------

  /** The names of a history, latest first, each once. */
  function Distinct(names: seq<string>): seq<string> {
    if names == [] then [] else [names[0]] + RemoveFirst(Distinct(names[1..]), names[0])
  }

  /** What was used, latest first, going back to the list at the start. */
  function History(l: seq<string>, ops: seq<Op>): seq<string> {
    if ops == [] then l else [ops[|ops| - 1].name] + History(l, ops[..|ops| - 1])
  }

  function Latest(l: seq<string>): seq<string> {
    if |l| <= 5 then l else l[..5]
  }

  lemma {:induction false} DistinctFacts(names: seq<string>)
    ensures NoDuplicates(Distinct(names))
    ensures forall x :: x in Distinct(names) <==> x in names
    ensures NoDuplicates(names) ==> Distinct(names) == names
  {
    if names != [] {
      assert names == [names[0]] + names[1..];
      DistinctFacts(names[1..]);
      RemoveFirstFacts(Distinct(names[1..]), names[0]);
      if NoDuplicates(names) { RemoveAbsent(names[1..], names[0]); }
    }
  }

  lemma {:induction false} RemoveFromPrefix(l: seq<string>, n: nat, name: string)
    requires NoDuplicates(l) && n <= |l|
    ensures if name in l[..n]
      then |RemoveFirst(l, name)| == |l| - 1 && RemoveFirst(l[..n], name) == RemoveFirst(l, name)[..n - 1]
      else |RemoveFirst(l, name)| >= n && RemoveFirst(l[..n], name) == RemoveFirst(l, name)[..n]
    decreases n
  {
    RemoveFirstFacts(l, name);
    if n > 0 {
      assert l[..n] == [l[0]] + l[1..][..n - 1] && l[..n][1..] == l[1..][..n - 1];
      RemoveFromPrefix(l[1..], n - 1, name);
    }
  }

  /** Cutting off early loses nothing: the list keeps what a complete history would put first. */
  lemma TouchOfLatest(m: seq<string>, name: string)
    requires NoDuplicates(m)
    ensures Touch(Latest(m), name, true) == Latest(MoveToFront(m, name))
  {
    RemoveFirstFacts(m, name);
    if |m| > KEEP_LRU {
      RemoveFromPrefix(m, KEEP_LRU, name);
    }
  }

  predicate OnlyTouches(ops: seq<Op>) {
    forall i :: 0 <= i < |ops| ==> ops[i].Touched?
  }

  lemma TouchOfPrefix(l: seq<string>, d: seq<string>, name: string, gone: bool)
    requires NoDuplicates(d) && l <= d && (l == d || |l| >= KEEP_LRU)
    ensures var r, m := Touch(l, name, gone), MoveToFront(d, name);
      r <= m && (r == m || |r| >= KEEP_LRU)
  {
    RemoveFromPrefix(d, |l|, name);
    assert l == d[..|l|];
    RemoveFirstFacts(d, name);
  }

  /**
   * Without deletions, and whatever could not be removed, the list is a beginning of the complete
   * history, latest first and each name once; names are missing only beyond the fifth.
   */
  lemma {:induction false} ListIsLatest(l: seq<string>, ops: seq<Op>)
    requires NoDuplicates(l) && OnlyTouches(ops)
    ensures var r, d := Run(l, ops), Distinct(History(l, ops));
      r <= d && (r == d || |r| >= KEEP_LRU)
  {
    if ops == [] {
      DistinctFacts(l);
    } else {
      var front, op := ops[..|ops| - 1], ops[|ops| - 1];
      ListIsLatest(l, front);
      DistinctFacts(History(l, front));
      TouchOfPrefix(Run(l, front), Distinct(History(l, front)), op.name, op.gone);
      assert History(l, ops)[1..] == History(l, front);
    }
  }

  /** So it holds the five most recently used names exactly when it is not too long. */
  lemma FiveLatestExactly(l: seq<string>, ops: seq<Op>)
    requires NoDuplicates(l) && OnlyTouches(ops)
    ensures Run(l, ops) == Latest(Distinct(History(l, ops))) <==> |Run(l, ops)| <= 5
  {
    ListIsLatest(l, ops);
  }

  lemma {:induction false} NothingFailed(l: seq<string>, ops: seq<Op>)
    requires forall i :: 0 <= i < |ops| ==> ops[i].gone
    ensures Failures(l, ops) == 0
  {
    if ops != [] { NothingFailed(l, ops[..|ops| - 1]); }
  }

  /** That is so if it was short at the start and no removal failed. */
  lemma ListIsFiveLatest(l: seq<string>, ops: seq<Op>)
    requires NoDuplicates(l) && |l| <= KEEP_LRU
    requires OnlyTouches(ops) && forall i :: 0 <= i < |ops| ==> ops[i].gone
    ensures Run(l, ops) == Latest(Distinct(History(l, ops)))
  {
    ListStaysShort(l, ops);
    NothingFailed(l, ops);
    FiveLatestExactly(l, ops);
  }

  /** From six names, as a failed eviction leaves them, touching another one evicts only one. */
  lemma SixStaySix()
    ensures var l := ["a", "b", "c", "d", "e", "f"];
      NoDuplicates(l) && Run(l, [Touched("g", true)]) == ["g", "a", "b", "c", "d", "e"]
  {
    var l := ["a", "b", "c", "d", "e", "f"];
    assert forall i, j :: 0 <= i < j < |l| ==> l[i][0] != l[j][0];
    RemoveAbsent(l, "g");
    assert [Touched("g", true)][..0] == [];
    assert MoveToFront(l, "g") == ["g", "a", "b", "c", "d", "e", "f"];
  }

  // ---------------------------------------------------------------------------------------
  // The cache object
  // ---------------------------------------------------------------------------------------

  /** Looks for the first occurrence of the name and removes it. */
  method WithoutName(l: seq<string>, name: string) returns (rest: seq<string>)
    ensures rest == RemoveFirst(l, name)
  {
    var i := 0;
    while i < |l| && l[i] != name
      invariant 0 <= i <= |l|
      invariant RemoveFirst(l, name) == l[..i] + RemoveFirst(l[i..], name)
    {
      assert l[i..] == [l[i]] + l[i + 1..];
      i := i + 1;
    }
    if i < |l| {
      assert l[i..][1..] == l[i + 1..];
      rest := l[..i] + l[i + 1..];
    } else {
      assert l[i..] == [];
      rest := l;
    }
  }

  class DownloadCache {
    const state: Container<seq<string>>
    var directories: set<string>

    constructor (file: File<seq<string>>, directories: set<string>)
      ensures fresh(state) && state.fallback == []
      ensures state.file == file && state.state == None && this.directories == directories
    {
      state := new Container(file, []);
      this.directories := directories;
    }

    /** Puts the name first, and evicts the last one of too many if its directory can go. */
    method TouchEntry(name: string, removable: bool, outcome: WriteOutcome<seq<string>>) returns (ok: bool)
      modifies this, state
      ensures ok <==> outcome.Written?
      ensures var l := old(state.Current());
        var m := MoveToFront(l, name);
        var last := m[|m| - 1];
        && state.Current() == Touch(l, name, last !in old(directories) || removable)
        && directories == if Evicts(l, name) && removable then old(directories) - {last} else old(directories)
      ensures NoDuplicates(old(state.Current())) && name in old(directories) ==> name in directories
      ensures ok ==> state.file == Holding(state.Current())
    {
      var l := state.LoadOrGet();
      LastIsAnother(l, name);
      l := WithoutName(l, name);
      l := [name] + l;
      if |l| > KEEP_LRU {
        var last := l[|l| - 1];
        if last !in directories || removable {
          directories := directories - {last};
          l := l[..|l| - 1];
        }
      }
      ok := state.Save(l, outcome);
    }

    /** Removes the directory first; if that fails the list is not touched. */
    method Delete(name: string, removable: bool, outcome: WriteOutcome<seq<string>>) returns (ok: bool)
      modifies this, state
      ensures var gone := name !in old(directories) || removable;
        && (ok <==> gone && outcome.Written?)
        && state.Current() == (if gone then Retain(old(state.Current()), name) else old(state.Current()))
        && directories == (if gone then old(directories) - {name} else old(directories))
      ensures ok ==> state.file == Holding(state.Current())
    {
      if name in directories {
        if !removable { return false; }
        directories := directories - {name};
      }
      var l := state.LoadOrGet();
      var kept, i := [], 0;
      while i < |l|
        invariant 0 <= i <= |l|
        invariant kept + Retain(l[i..], name) == Retain(l, name)
      {
        assert l[i..] == [l[i]] + l[i + 1..];
        if l[i] != name { kept := kept + [l[i]]; }
        i := i + 1;
      }
      assert l[i..] == [];
      ok := state.Save(kept, outcome);
    }
  }
}
