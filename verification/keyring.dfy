/**
 * A value kept in as many keyring entries as it takes: every entry but the last ends in a
 * marker. Entries written by longer values are not removed when a shorter one is stored.
 *
 * Texts are sequences of one-byte characters; `step` is the entry limit less the marker.
 */
module Keyring {
  import opened Common

  const MORE: string := "<MORE>"

  /** The entries of one prefix that exist, by their number. */
  type Chain = map<nat, string>

  predicate EndsWith(s: string, suffix: string) {
    |suffix| <= |s| && s[|s| - |suffix|..] == suffix
  }

  function Chop(s: string): string
    requires EndsWith(s, MORE)
  {
    s[..|s| - |MORE|]
  }

  // ---------------------------------------------------------------------------------------
  // What storing and reading do to a chain
  // ---------------------------------------------------------------------------------------

  /** Stores the rest of a text from entry k on. */
  function StoreFrom(chain: Chain, text: string, step: nat, k: nat): Chain
    requires step > 0
    decreases |text|
  {
    if text == "" then chain
    else if step <= |text| then StoreFrom(chain[k := text[..step] + MORE], text[step..], step, k + 1)
    else chain[k := text]
  }

  /** The same, given up before entry `stop`. */
  function StoreUntil(chain: Chain, text: string, step: nat, k: nat, stop: nat): Chain
    requires step > 0
    decreases |text|
  {
    if text == "" || k >= stop then chain
    else if step <= |text| then StoreUntil(chain[k := text[..step] + MORE], text[step..], step, k + 1, stop)
    else chain[k := text]
  }

  function Entries(chain: Chain, k: nat): set<nat> {
    set j | j in chain && k <= j
  }

  /** Reads from entry k on; None if an entry is missing. */
  function ReadFrom(chain: Chain, k: nat): Option<string>
    decreases Entries(chain, k)
  {
    if k !in chain then None
    else if !EndsWith(chain[k], MORE) then Some(chain[k])
    else
      assert k in Entries(chain, k) && k !in Entries(chain, k + 1);
      var rest := ReadFrom(chain, k + 1);
      if rest.None? then None else Some(Chop(chain[k]) + rest.value)
  }

  /** The number of the entry a read stops at. */
  function LastRead(chain: Chain, k: nat): (last: nat)
    ensures k <= last
    decreases Entries(chain, k)
  {
    if k !in chain || !EndsWith(chain[k], MORE) then k
    else
      assert k in Entries(chain, k) && k !in Entries(chain, k + 1);
      LastRead(chain, k + 1)
  }

  /** What is read back after storing a text over some earlier contents. */
  function ReadBack(prior: Chain, text: string, step: nat): Option<string>
    requires step > 0
  {
    ReadFrom(StoreFrom(prior, text, step, 0), 0)
  }

  // ---------------------------------------------------------------------------------------
  // The round trip
  // ---------------------------------------------------------------------------------------

  /** The characters after the last full step. */
  function LastPart(text: string, step: nat): (last: string)
    requires step > 0
    ensures |last| <= |text|
    decreases |text|
  {
    if |text| < step then text else LastPart(text[step..], step)
  }

  function FullParts(text: string, step: nat): nat
    requires step > 0
    decreases |text|
  {
    if |text| < step then 0 else 1 + FullParts(text[step..], step)
  }

  lemma {:induction false} PartsByLength(text: string, step: nat)
    requires step > 0
    ensures FullParts(text, step) == |text| / step
    ensures LastPart(text, step) == text[|text| - |text| % step..]
    decreases |text|
  {
    if |text| >= step {
      PartsByLength(text[step..], step);
      DivStep(|text|, step);
    }
  }

  lemma DivStep(n: nat, step: nat)
    requires 0 < step <= n
    ensures n / step == 1 + (n - step) / step && n % step == (n - step) % step
  {
    var q, r := (n - step) / step, (n - step) % step;
    assert n == (q + 1) * step + r;
    DivUnique(n, step, q + 1, r);
  }

  lemma DivUnique(n: nat, d: nat, q: nat, r: nat)
    requires d > 0 && r < d && n == q * d + r
    ensures n / d == q && n % d == r
  {
    SmallMultiple(q - n / d, d);
    assert (q - n / d) * d == n % d - r;
  }

  lemma SmallMultiple(k: int, d: nat)
    requires d > 0
    ensures k >= 1 ==> k * d >= d
    ensures k <= -1 ==> k * d + d <= 0
  {}

  /** How many entries a text takes. */
  function Parts(text: string, step: nat): nat
    requires step > 0
  {
    FullParts(text, step) + if LastPart(text, step) == "" then 0 else 1
  }

  lemma {:induction false} StoreUntilEnd(chain: Chain, text: string, step: nat, k: nat, stop: nat)
    requires step > 0 && k + Parts(text, step) <= stop
    ensures StoreUntil(chain, text, step, k, stop) == StoreFrom(chain, text, step, k)
    decreases |text|
  {
    if step <= |text| {
      StoreUntilEnd(chain[k := text[..step] + MORE], text[step..], step, k + 1, stop);
    }
  }

  /** A chain can be read from entry k exactly when no entry up to the last one read is missing. */
  lemma {:induction false} ReadableExactly(chain: Chain, k: nat)
    ensures ReadFrom(chain, k).Some? <==> forall j :: k <= j <= LastRead(chain, k) ==> j in chain
    decreases Entries(chain, k)
  {
    if k in chain && EndsWith(chain[k], MORE) {
      assert k in Entries(chain, k) && k !in Entries(chain, k + 1);
      ReadableExactly(chain, k + 1);
    }
  }

  lemma {:induction false} StoreKeepsOthers(chain: Chain, text: string, step: nat, k: nat, j: nat)
    requires step > 0
    requires j < k || j >= k + Parts(text, step)
    ensures var after := StoreFrom(chain, text, step, k);
      (j in after <==> j in chain) && (j in chain ==> after[j] == chain[j])
    decreases |text|
  {
    if step <= |text| {
      StoreKeepsOthers(chain[k := text[..step] + MORE], text[step..], step, k + 1, j);
    }
  }

  lemma {:induction false} ReadDependsOnTail(a: Chain, b: Chain, k: nat)
    requires forall j :: k <= j ==> (j in a <==> j in b) && (j in a ==> a[j] == b[j])
    ensures ReadFrom(a, k) == ReadFrom(b, k)
    decreases Entries(a, k)
  {
    if k in a && EndsWith(a[k], MORE) {
      assert k in Entries(a, k) && k !in Entries(a, k + 1);
      ReadDependsOnTail(a, b, k + 1);
    }
  }

  lemma EndsInMarker(s: string)
    ensures s + MORE == s + "<MORE>" && EndsWith(s + MORE, MORE) && Chop(s + MORE) == s
  {}

  /** Puts a text in front of what a read finds. */
  function Before(text: string, rest: Option<string>): Option<string> {
    if rest.None? then None else Some(text + rest.value)
  }

  lemma BeforeTwice(a: string, b: string, rest: Option<string>)
    ensures Before(a, Before(b, rest)) == Before(a + b, rest)
    ensures Before("", rest) == rest
  {
    if rest.Some? {
      assert a + (b + rest.value) == (a + b) + rest.value;
      assert "" + rest.value == rest.value;
    }
  }

  /** What follows the text that was stored, as far as a read is concerned. */
  function Continuation(prior: Chain, text: string, step: nat, k: nat): Option<string>
    requires step > 0
  {
    var last := LastPart(text, step);
    var next := k + FullParts(text, step);
    if last == "" then ReadFrom(prior, next)
    else if EndsWith(last, MORE) then Before(Chop(last), ReadFrom(prior, next + 1))
    else Some(last)
  }

  /** A store followed by a read, for every text and whatever the entries held before. */
  lemma {:induction false} StoreThenRead(prior: Chain, text: string, step: nat, k: nat)
    requires step > 0
    ensures ReadFrom(StoreFrom(prior, text, step, k), k)
      == Before(text[..|text| - |LastPart(text, step)|], Continuation(prior, text, step, k))
    decreases |text|, 1
  {
    LastPartIsSuffix(text, step);
    if |text| < step {
      BeforeTwice("", "", Continuation(prior, text, step, k));
      assert text[..0] == "";
      if text != "" {
        ReadDependsOnTail(prior[k := text], prior, k + 1);
      }
    } else {
      StoreThenReadOn(prior, text, step, k);
    }
  }

  lemma ContinuationStep(prior: Chain, text: string, step: nat, k: nat)
    requires 0 < step <= |text|
    ensures var first := prior[k := text[..step] + MORE];
      Continuation(first, text[step..], step, k + 1) == Continuation(prior, text, step, k)
  {
    var first := prior[k := text[..step] + MORE];
    var next := k + FullParts(text, step);
    ReadDependsOnTail(first, prior, next);
    ReadDependsOnTail(first, prior, next + 1);
  }

  lemma {:induction false} StoreThenReadOn(prior: Chain, text: string, step: nat, k: nat)
    requires 0 < step <= |text|
    ensures ReadFrom(StoreFrom(prior, text, step, k), k)
      == Before(text[..|text| - |LastPart(text, step)|], Continuation(prior, text, step, k))
    decreases |text|, 0
  {
    var part, more := text[..step], text[step..];
    var first := prior[k := part + MORE];
    var after := StoreFrom(first, more, step, k + 1);
    StoreThenRead(first, more, step, k + 1);
    StoreKeepsOthers(first, more, step, k + 1, k);
    ReadMarked(after, k, part);
    ContinuationStep(prior, text, step, k);
    var n := |more| - |LastPart(more, step)|;
    BeforeTwice(part, more[..n], Continuation(prior, text, step, k));
    assert part + more[..n] == text[..n + step];
  }

  lemma ReadMarked(chain: Chain, k: nat, part: string)
    requires k in chain && chain[k] == part + MORE
    ensures ReadFrom(chain, k) == Before(part, ReadFrom(chain, k + 1))
  {
    EndsInMarker(part);
  }

  lemma {:induction false} LastPartIsSuffix(text: string, step: nat)
    requires step > 0
    ensures |LastPart(text, step)| <= |text|
    ensures text[|text| - |LastPart(text, step)|..] == LastPart(text, step)
    ensures step <= |text| ==> |LastPart(text, step)| <= |text| - step
    decreases |text|
  {
    if |text| >= step {
      var more, last := text[step..], LastPart(text, step);
      LastPartIsSuffix(more, step);
      assert text[|text| - |last|..] == more[|more| - |last|..];
    }
  }

  /** The texts that survive storing and reading, whatever was stored before. */
  predicate Survives(text: string, step: nat)
    requires step > 0
  {
    |text| % step != 0 && !EndsWith(text[|text| - |text| % step..], MORE)
  }

  /**
   * A text is read back from any prior contents exactly when its length is not a multiple of
   * the step (so it is not empty either) and its last part does not end like a marker.
   */
  lemma RoundTripExactly(text: string, step: nat)
    requires step > 0
    ensures (forall prior :: ReadBack(prior, text, step) == Some(text)) <==> Survives(text, step)
  {
    PartsByLength(text, step);
    LastPartIsSuffix(text, step);
    var last := LastPart(text, step);
    var front := text[..|text| - |last|];
    assert front + last == text;
    forall prior ensures ReadBack(prior, text, step) == Before(front, Continuation(prior, text, step, 0)) {
      StoreThenRead(prior, text, step, 0);
    }
    if !Survives(text, step) {
      assert ReadBack(map[], text, step) == None;
    }
  }

  /**
   * The other texts: a positive multiple of the step reads as missing if the next entry is, and
   * otherwise runs on into the entries an earlier, longer value left behind.
   */
  lemma MultipleRunsOn(prior: Chain, text: string, step: nat)
    requires step > 0 && |text| % step == 0
    ensures ReadBack(prior, text, step) == Before(text, ReadFrom(prior, |text| / step))
  {
    PartsByLength(text, step);
    StoreThenRead(prior, text, step, 0);
    assert text[..|text|] == text;
  }

  /** Storing touches only the entries it needs and none exceeds the limit. */
  lemma {:induction false} StoredEntriesFit(chain: Chain, text: string, step: nat, k: nat, j: nat)
    requires step > 0
    ensures var after := StoreFrom(chain, text, step, k);
      j in after ==> (j in chain && after[j] == chain[j]) || |after[j]| <= step + |MORE|
    decreases |text|
  {
    if step <= |text| {
      StoredEntriesFit(chain[k := text[..step] + MORE], text[step..], step, k + 1, j);
    }
  }

  // ---------------------------------------------------------------------------------------
  // The storage object
  // ---------------------------------------------------------------------------------------

  /** The entry at which a read stops: the last part, a missing entry, or one it cannot read. */
  function ReadStop(chain: Chain, failsAt: Option<nat>): nat {
    if failsAt.Some? && failsAt.value <= LastRead(chain, 0) then failsAt.value else LastRead(chain, 0)
  }

  /** How many handles there are after a read. */
  function Handles(chain: Chain, handles: nat, failsAt: Option<nat>): (n: nat)
    ensures n > 0 && n >= handles
  {
    if ReadStop(chain, failsAt) < handles then handles else ReadStop(chain, failsAt) + 1
  }

  /** The first of the entries from k to n that does not exist or cannot be deleted; n if none. */
  function DeleteStop(chain: Chain, k: nat, n: nat, stuck: Option<nat>): (m: nat)
    requires k <= n
    ensures k <= m <= n
    ensures m < n ==> m !in chain || stuck == Some(m)
    ensures forall j :: k <= j < m ==> j in chain && stuck != Some(j)
    decreases n - k
  {
    if k == n || k !in chain || stuck == Some(k) then k else DeleteStop(chain, k + 1, n, stuck)
  }

  /** The chain without its first m entries. */
  function Without(chain: Chain, m: nat): Chain {
    map k | k in chain && m <= k :: chain[k]
  }

  /** A handle to one entry, by the number in its key. */
  datatype Entry = Entry(number: nat)

  datatype ReadResult = Found(text: string) | Missing | ReadError

  /** The keyring service: entries can be read and written, or refuse to. */
  class Service {
    var chain: Chain

    constructor (chain: Chain)
      ensures this.chain == chain
    {
      this.chain := chain;
    }

    method SetPassword(e: Entry, value: string, works: bool) returns (ok: bool)
      modifies this
      ensures ok == works
      ensures chain == if works then old(chain)[e.number := value] else old(chain)
    {
      ok := works;
      if works { chain := chain[e.number := value]; }
    }

    /** Deleting an entry that does not exist is an error. */
    method DeletePassword(e: Entry, works: bool) returns (ok: bool)
      modifies this
      ensures ok <==> e.number in old(chain) && works
      ensures chain == if ok then old(chain) - {e.number} else old(chain)
    {
      ok := e.number in chain && works;
      if ok { chain := chain - {e.number}; }
    }
  }

  /** What the store loop, at offset i and entry k, will make of the chain. */
  function StoreOn(chain: Chain, text: string, step: nat, i: nat, k: nat, stop: nat): Chain
    requires step > 0
  {
    if i <= |text| then StoreUntil(chain, text[i..], step, k, stop) else chain
  }

  /** How many entries it still has to write. */
  function PartsLeft(text: string, step: nat, i: nat): nat
    requires step > 0
  {
    if i <= |text| then Parts(text[i..], step) else 0
  }

  function PartAt(text: string, step: nat, i: nat): string
    requires i < |text|
  {
    if i + step <= |text| then text[i..i + step] + MORE else text[i..]
  }

  lemma StoreRound(chain: Chain, text: string, step: nat, i: nat, k: nat, stop: nat)
    requires 0 < step && i < |text| && k < stop
    ensures PartsLeft(text, step, i) == 1 + PartsLeft(text, step, i + step)
    ensures StoreOn(chain, text, step, i, k, stop)
      == StoreOn(chain[k := PartAt(text, step, i)], text, step, i + step, k + 1, stop)
  {
    if i + step <= |text| {
      assert text[i..][..step] == text[i..i + step] && text[i..][step..] == text[i + step..];
    }
  }

  lemma StoreBounds(chain: Chain, text: string, step: nat, i: nat, k: nat, stop: nat)
    requires step > 0
    ensures k >= stop || i >= |text| ==> StoreOn(chain, text, step, i, k, stop) == chain
    ensures PartsLeft(text, step, i) == 0 <==> i >= |text|
  {}

  class KeyringStorage {
    const service: Service
    const step: nat
    var entries: seq<Entry>

    /** The k-th handle is the handle of entry k. */
    ghost predicate Valid()
      reads this
    {
      step > 0 && forall k :: 0 <= k < |entries| ==> entries[k] == Entry(k)
    }

    constructor (service: Service, limit: nat)
      requires limit > |MORE|
      ensures Valid() && this.service == service && step == limit - 6 && entries == []
    {
      this.service := service;
      this.step := limit - |MORE|;
      this.entries := [];
    }

    /** `get_next_entry!`: a handle that is not there yet is pushed at the end. */
    method NextEntry(i: nat) returns (e: Entry)
      requires Valid() && i <= |entries|
      modifies this
      ensures Valid() && e == Entry(i)
      ensures |entries| == if i < |old(entries)| then |old(entries)| else i + 1
    {
      if i < |entries| {
        return entries[i];
      }
      e := Entry(i);
      entries := entries + [e];
    }

    /** `failsAt` is the entry, if any, whose password cannot be read for another reason. */
    method Read(failsAt: Option<nat>) returns (r: ReadResult)
      requires Valid()
      modifies this
      ensures Valid() && |entries| == Handles(service.chain, |old(entries)|, failsAt)
      ensures r.ReadError? <==> failsAt.Some? && failsAt.value <= LastRead(service.chain, 0)
      ensures !r.ReadError? ==>
        r == match ReadFrom(service.chain, 0) case None => Missing case Some(text) => Found(text)
    {
      var chain := service.chain;
      var text, i := "", 0;
      BeforeTwice("", "", ReadFrom(chain, 0));
      while true
        invariant Valid() && i <= |entries|
        invariant |entries| == if i <= |old(entries)| then |old(entries)| else i
        invariant ReadFrom(chain, 0) == Before(text, ReadFrom(chain, i))
        invariant LastRead(chain, 0) == LastRead(chain, i)
        invariant failsAt.Some? ==> i <= failsAt.value || failsAt.value > LastRead(chain, 0)
        decreases Entries(chain, i)
      {
        var entry := NextEntry(i);
        if failsAt == Some(i) { return ReadError; }
        if i !in chain { return Missing; }
        var next := chain[i];
        assert i in Entries(chain, i) && i !in Entries(chain, i + 1);
        if EndsWith(next, MORE) {
          BeforeTwice(text, Chop(next), ReadFrom(chain, i + 1));
          text := text + Chop(next);
        } else {
          return Found(text + next);
        }
        i := i + 1;
      }
    }

    /** `failsAt` is the first entry, if any, that cannot be written. */
    method Store(text: string, failsAt: Option<nat>) returns (ok: bool)
      requires Valid()
      modifies this, service
      ensures Valid()
      ensures ok <==> failsAt.None? || failsAt.value >= Parts(text, step)
      ensures service.chain == if ok then StoreFrom(old(service.chain), text, step, 0)
        else StoreUntil(old(service.chain), text, step, 0, failsAt.value)
      ensures var n := if ok then Parts(text, step) else failsAt.value + 1;
        |entries| == if n < |old(entries)| then |old(entries)| else n
    {
      var i := 0;
      ghost var k := 0;
      ghost var stop := if failsAt.Some? then failsAt.value else Parts(text, step);
      ghost var target := StoreUntil(service.chain, text, step, 0, stop);
      assert text[0..] == text;
      while i < |text|
        invariant Valid() && i == k * step && 0 <= k <= stop
        invariant |entries| == if k < |old(entries)| then |old(entries)| else k
        invariant k + PartsLeft(text, step, i) == Parts(text, step)
        invariant StoreOn(service.chain, text, step, i, k, stop) == target
        decreases |text| - i
      {
        DivUnique(i, step, k, 0);
        StoreBounds(service.chain, text, step, i, k, stop);
        var entry := NextEntry(i / step);
        var cutoff := i + step;
        var works := failsAt != Some(entry.number);
        if works { StoreRound(service.chain, text, step, i, k, stop); }
        var stored;
        if cutoff <= |text| {
          stored := service.SetPassword(entry, text[i..cutoff] + MORE, works);
        } else {
          stored := service.SetPassword(entry, text[i..], works);
        }
        if !stored { return false; }
        i := cutoff;
        k := k + 1;
      }
      StoreBounds(service.chain, text, step, i, k, stop);
      if stop >= Parts(text, step) { StoreUntilEnd(old(service.chain), text, step, 0, stop); }
      ok := true;
    }

    /**
     * Reads, to have a handle for every part, then deletes what there are handles for. It stops
     * with an error at the first entry that does not exist or cannot be deleted: clearing an empty
     * keyring fails. That the read fails goes unnoticed; then there may be fewer handles.
     */
    method Clear(failsAt: Option<nat>, stuck: Option<nat>) returns (ok: bool)
      requires Valid()
      modifies this, service
      ensures Valid()
      ensures var n := Handles(old(service.chain), |old(entries)|, failsAt);
        var m := DeleteStop(old(service.chain), 0, n, stuck);
        && (ok <==> m == n)
        && service.chain == Without(old(service.chain), m)
        && |entries| == if ok then 0 else n
      ensures ok ==> ReadFrom(service.chain, 0) == None
    {
      ghost var chain := service.chain;
      var r := Read(failsAt);
      var i := 0;
      while i < |entries|
        invariant Valid() && 0 <= i <= |entries| == Handles(chain, |old(entries)|, failsAt)
        invariant service.chain == Without(chain, i)
        invariant DeleteStop(chain, 0, |entries|, stuck) == DeleteStop(chain, i, |entries|, stuck)
      {
        var deleted := service.DeletePassword(entries[i], stuck != Some(i));
        if !deleted { return false; }
        i := i + 1;
      }
      entries := [];
      ok := true;
    }
  }
}
