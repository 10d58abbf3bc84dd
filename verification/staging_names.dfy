/** Names of staging directories, and which of them the reaper of an entry matches. */
module StagingNames {

  const STAGING: string := ".staging-"

  function Prefix(name: string): string { name + STAGING }

  /** The staging directory that an attempt at `name` uses. */
  function Staging(name: string, uuid: string): string { Prefix(name) + uuid }

  /** The text of a uuid: hex digits and dashes. */
  predicate IsUuid(s: string) {
    forall i :: 0 <= i < |s| ==> '0' <= s[i] <= '9' || 'a' <= s[i] <= 'f' || s[i] == '-'
  }

  predicate StartsWith(s: string, prefix: string) { prefix <= s }

  /** What the reaper of `name` removes. */
  predicate Reaps(name: string, directory: string) { StartsWith(directory, Prefix(name)) }

  lemma StagingHasOneDot(i: nat)
    requires i < |STAGING|
    ensures STAGING[i] == '.' <==> i == 0
  {}

  /** The dot after the entry name is the last dot of a staging directory's name. */
  lemma NoLaterDot(b: string, uuid: string, i: nat)
    requires IsUuid(uuid) && |b| < i < |Staging(b, uuid)|
    ensures Staging(b, uuid)[i] != '.'
  {
    if i < |Prefix(b)| {
      StagingHasOneDot(i - |b|);
    } else {
      assert Staging(b, uuid)[i] == uuid[i - |Prefix(b)|];
    }
  }

  lemma LongPrefixMeansSame(a: string, b: string, uuid: string)
    requires IsUuid(uuid) && Reaps(a, Staging(b, uuid)) && |b| < |Prefix(a)|
    ensures a == b
  {
    var p, s := Prefix(a), Staging(b, uuid);
    assert s[|a|] == p[|a|] == '.';
    if |a| > |b| { NoLaterDot(b, uuid, |a|); }
    assert s[|b|] == p[|b|] == '.';
    if |a| < |b| { StagingHasOneDot(|b| - |a|); }
    assert s[..|a|] == p[..|a|] == a && s[..|b|] == b;
  }

  /**
   * The reaper of `a` matches a staging directory of `b` exactly when b is a, or b itself has
   * the form of a staging directory of a.
   */
  lemma ReapExactly(a: string, b: string, uuid: string)
    requires IsUuid(uuid)
    ensures Reaps(a, Staging(b, uuid)) <==> b == a || Reaps(a, b)
  {
    var p, s := Prefix(a), Staging(b, uuid);
    if |p| <= |b| {
      assert s[..|p|] == b[..|p|];
    } else if Reaps(a, s) {
      LongPrefixMeansSame(a, b, uuid);
    }
  }

  /** No entry name looks like a staging directory of another entry, or of itself. */
  ghost predicate Plain(names: set<string>) {
    forall a, b :: a in names && b in names ==> !Reaps(a, b)
  }

  /** Among plain names, reaping for one entry matches its own staging directories only. */
  lemma PlainReap(names: set<string>, a: string, b: string, uuid: string)
    requires Plain(names) && a in names && b in names && IsUuid(uuid)
    ensures Reaps(a, Staging(b, uuid)) <==> a == b
    ensures Staging(b, uuid) !in names
  {
    ReapExactly(a, b, uuid);
    assert Reaps(b, Staging(b, uuid));
  }

  /** No entry name is the name of a staging directory. */
  ghost predicate NoneIsStaging(names: set<string>) {
    forall a, uuid :: a in names && IsUuid(uuid) ==> Staging(a, uuid) !in names
  }

  lemma PlainIsNoneStaging(names: set<string>)
    requires Plain(names)
    ensures NoneIsStaging(names)
  {
    forall a, uuid | a in names && IsUuid(uuid) ensures Staging(a, uuid) !in names {
      PlainReap(names, a, a, uuid);
    }
  }

  /** A staging directory tells the entry it belongs to. */
  lemma StagingTellsEntry(a: string, u: string, b: string, v: string)
    requires IsUuid(u) && IsUuid(v) && Staging(a, u) == Staging(b, v)
    ensures a == b
  {
    var dir := Staging(a, u);
    StagingHasOneDot(0);
    assert dir[|a|] == '.' && dir[|b|] == '.';
    if |a| < |b| { NoLaterDot(a, u, |b|); }
    if |b| < |a| { NoLaterDot(b, v, |a|); }
    assert a == dir[..|a|] && b == dir[..|b|];
  }

  /** Not all names are plain: here the reaper of one entry matches another one's directories. */
  lemma ReapCanHitAnotherEntry()
    ensures "insider" != "insider.staging-2" && IsUuid("0f-1")
    ensures Reaps("insider", "insider.staging-2")
    ensures Reaps("insider", Staging("insider.staging-2", "0f-1"))
  {
    assert Prefix("insider") == "insider.staging-2"[..16];
    ReapExactly("insider", "insider.staging-2", "0f-1");
  }
}
