/** The two timed loops of the authentication code, on a clock that only moves forward. */
module AuthTiming {
  import opened Common

  // ---------------------------------------------------------------------------------------
  // Polling for a device code (section 3.5 of RFC 8628); times in seconds
  // ---------------------------------------------------------------------------------------

  /** `SlowDown` also stands for the status code 429, `Pending` for any other refusal. */
  datatype Answer = Granted | SlowDown | Pending

  /** One poll: when its wait began, how long it was to wait, and the answer. */
  datatype Poll = Poll(from: int, waited: nat, answer: Answer)

  /**
   * A device code: when it was issued and for how long, the answers to its polls in turn, and
   * what each poll takes beyond the wait it asked for.
   */
  datatype Code = Code(start: int, lifetime: int, answers: nat -> Answer, lags: nat -> nat)

  function SlowDowns(polls: seq<Poll>): nat {
    if polls == [] then 0
    else SlowDowns(polls[..|polls| - 1]) + if polls[|polls| - 1].answer.SlowDown? then 1 else 0
  }

  function Waited(polls: seq<Poll>): nat {
    if polls == [] then 0 else Waited(polls[..|polls| - 1]) + polls[|polls| - 1].waited
  }

  /** What the first n polls took beyond their waits. */
  function Lagged(lags: nat -> nat, n: nat): nat {
    if n == 0 then 0 else Lagged(lags, n - 1) + lags(n - 1)
  }

  /** The time when these polls are over. */
  function TimeAfter(code: Code, polls: seq<Poll>): int {
    code.start + Waited(polls) + Lagged(code.lags, |polls|)
  }

  predicate Expired(code: Code, time: int) { time >= code.start + code.lifetime }

  predicate WasGranted(polls: seq<Poll>) { polls != [] && polls[|polls| - 1].answer.Granted? }

  /**
   * Polls as the loop makes them: the code is neither granted nor expired yet, and each wait
   * begins when the poll before is over and follows from the answers so far.
   */
  predicate Polled(code: Code, polls: seq<Poll>) {
    polls != [] ==>
      var n := |polls| - 1;
      var front, last := polls[..n], polls[n];
      && Polled(code, front) && !WasGranted(front) && !Expired(code, TimeAfter(code, front))
      && last == Poll(TimeAfter(code, front), 5 + 5 * SlowDowns(front), code.answers(n))
  }

  /** Nothing more is to be polled. */
  predicate Over(code: Code, polls: seq<Poll>) {
    WasGranted(polls) || Expired(code, TimeAfter(code, polls))
  }

  /** What each single poll is like. */
  lemma {:induction false} PolledAt(code: Code, polls: seq<Poll>, i: nat)
    requires Polled(code, polls) && i < |polls|
    ensures polls[i].waited == 5 + 5 * SlowDowns(polls[..i])
    ensures polls[i].from == code.start + Waited(polls[..i]) + Lagged(code.lags, i) < code.start + code.lifetime
    ensures polls[i].answer == code.answers(i) && (i < |polls| - 1 ==> !polls[i].answer.Granted?)
  {
    var n := |polls| - 1;
    if i < n {
      PolledAt(code, polls[..n], i);
      assert polls[..n][..i] == polls[..i];
    }
  }

  lemma PollsSnoc(code: Code, polls: seq<Poll>, p: Poll)
    requires Polled(code, polls) && !Over(code, polls)
    requires p == Poll(TimeAfter(code, polls), 5 + 5 * SlowDowns(polls), code.answers(|polls|))
    ensures Polled(code, polls + [p])
    ensures SlowDowns(polls + [p]) == SlowDowns(polls) + if p.answer.SlowDown? then 1 else 0
    ensures TimeAfter(code, polls + [p]) == TimeAfter(code, polls) + p.waited + code.lags(|polls|)
    ensures WasGranted(polls + [p]) <==> p.answer.Granted?
  {
    assert (polls + [p])[..|polls|] == polls;
  }

  /** Of two such sequences the shorter one is a beginning of the other. */
  lemma {:induction false} PollsAgree(code: Code, polls: seq<Poll>, others: seq<Poll>)
    requires Polled(code, polls) && Polled(code, others) && |polls| <= |others|
    ensures polls == others[..|polls|]
    decreases |others|
  {
    var n := |others| - 1;
    if |polls| < |others| {
      PollsAgree(code, polls, others[..n]);
      assert others[..n][..|polls|] == others[..|polls|];
    } else if polls != [] {
      PollsAgree(code, polls[..n], others[..n]);
      assert polls == polls[..n] + [polls[n]] && others == others[..n] + [others[n]];
    }
    assert others[..|others|] == others;
  }

  lemma {:induction false} NotOverBefore(code: Code, polls: seq<Poll>, i: nat)
    requires Polled(code, polls) && i < |polls|
    ensures !Over(code, polls[..i])
  {
    var n := |polls| - 1;
    if i < n {
      NotOverBefore(code, polls[..n], i);
      assert polls[..n][..i] == polls[..i];
    }
  }

  /** So code, answers and delays determine how often and when it is polled. */
  lemma PollsAreDetermined(code: Code, polls: seq<Poll>, others: seq<Poll>)
    requires Polled(code, polls) && Over(code, polls) && Polled(code, others) && Over(code, others)
    ensures polls == others
  {
    if |polls| <= |others| { PollsAgree(code, polls, others); } else { PollsAgree(code, others, polls); }
    if |polls| < |others| { NotOverBefore(code, others, |polls|); }
    if |others| < |polls| { NotOverBefore(code, polls, |others|); }
    assert polls[..|polls|] == polls && others[..|others|] == others;
  }

  /** Polls with one device code until it is granted or has expired. */
  method PollOneCode(code: Code) returns (polls: seq<Poll>, granted: bool)
    ensures Polled(code, polls) && Over(code, polls)
    ensures granted <==> WasGranted(polls)
    ensures !granted ==> TimeAfter(code, polls) >= code.start + code.lifetime
  {
    polls, granted := [], false;
    var now, interval := code.start, 5;
    while now < code.start + code.lifetime
      invariant interval == 5 + 5 * SlowDowns(polls) && now == TimeAfter(code, polls)
      invariant Polled(code, polls) && !WasGranted(polls)
      decreases code.start + code.lifetime - now
    {
      var answer := code.answers(|polls|);
      var poll := Poll(now, interval, answer);
      PollsSnoc(code, polls, poll);
      now := now + interval + code.lags(|polls|);
      polls := polls + [poll];
      match answer {
        case Granted => return polls, true;
        case SlowDown => interval := interval + 5;
        case Pending =>
      }
    }
  }

  /** The answer to the request for a device code, and how long it takes. */
  datatype Requested =
    | Issued(delay: nat, lifetime: int, answers: nat -> Answer, lags: nat -> nat)
    | Refused

  datatype FlowEnd = Credentials | Failed | StillTrying

  /** The code that a request made at this time gives. */
  function CodeOf(now: int, r: Requested): Code
    requires r.Issued?
  {
    Code(now + r.delay, r.lifetime, r.answers, r.lags)
  }

  /** Rounds of polling, each with a code requested when the one before had expired. */
  predicate Rounds(now: int, requests: seq<Requested>, rounds: seq<seq<Poll>>)
    requires |rounds| <= |requests|
    decreases |rounds|
  {
    rounds != [] ==>
      && requests[0].Issued?
      && var code := CodeOf(now, requests[0]);
      && Polled(code, rounds[0]) && Over(code, rounds[0])
      && (WasGranted(rounds[0]) ==> |rounds| == 1)
      && Rounds(TimeAfter(code, rounds[0]), requests[1..], rounds[1..])
  }

  /** The time at which the next code is requested. */
  function TimeAfterRounds(now: int, requests: seq<Requested>, rounds: seq<seq<Poll>>): int
    requires |rounds| <= |requests| && Rounds(now, requests, rounds)
    decreases |rounds|
  {
    if rounds == [] then now
    else TimeAfterRounds(TimeAfter(CodeOf(now, requests[0]), rounds[0]), requests[1..], rounds[1..])
  }

  predicate LastGranted(rounds: seq<seq<Poll>>) { rounds != [] && WasGranted(rounds[|rounds| - 1]) }

  lemma {:induction false} OneMoreRound(now: int, requests: seq<Requested>, rounds: seq<seq<Poll>>, polls: seq<Poll>)
    requires |rounds| < |requests| && Rounds(now, requests, rounds) && !LastGranted(rounds)
    requires requests[|rounds|].Issued?
    requires var code := CodeOf(TimeAfterRounds(now, requests, rounds), requests[|rounds|]);
      Polled(code, polls) && Over(code, polls)
    ensures Rounds(now, requests, rounds + [polls])
    ensures TimeAfterRounds(now, requests, rounds + [polls])
      == TimeAfter(CodeOf(TimeAfterRounds(now, requests, rounds), requests[|rounds|]), polls)
    decreases |rounds|
  {
    var all := rounds + [polls];
    if rounds == [] {
      assert all[1..] == [];
    } else {
      assert all[0] == rounds[0] && all[1..] == rounds[1..] + [polls];
      OneMoreRound(TimeAfter(CodeOf(now, requests[0]), rounds[0]), requests[1..], rounds[1..], polls);
    }
  }

  /**
   * The i-th code is requested when the codes before have expired; its first poll begins when it
   * has been issued, and unless it was granted it is used up before the next one is requested.
   */
  lemma {:induction false} CodesInTurn(now: int, requests: seq<Requested>, rounds: seq<seq<Poll>>, i: nat)
    requires |rounds| <= |requests| && Rounds(now, requests, rounds) && i < |rounds|
    ensures Rounds(now, requests, rounds[..i]) && Rounds(now, requests, rounds[..i + 1])
    ensures requests[i].Issued?
    ensures var issued := TimeAfterRounds(now, requests, rounds[..i]) + requests[i].delay;
      && (rounds[i] != [] ==> rounds[i][0].from == issued)
      && (WasGranted(rounds[i]) || TimeAfterRounds(now, requests, rounds[..i + 1]) >= issued + requests[i].lifetime)
      && (WasGranted(rounds[i]) ==> i == |rounds| - 1)
    decreases |rounds|
  {
    assert rounds[..i + 1][1..] == rounds[1..][..i];
    if i == 0 {
      if rounds[0] != [] { PolledAt(CodeOf(now, requests[0]), rounds[0], 0); }
    } else {
      assert rounds[..i][1..] == rounds[1..][..i - 1];
      CodesInTurn(TimeAfter(CodeOf(now, requests[0]), rounds[0]), requests[1..], rounds[1..], i - 1);
    }
  }

  /**
   * The whole flow, as far as these requests go: with every code it polls until the grant or the
   * expiry, and only a grant or a refused code ends it.
   */
  method DeviceCodeFlow(start: int, requests: seq<Requested>) returns (rounds: seq<seq<Poll>>, end: FlowEnd)
    ensures |rounds| <= |requests| && Rounds(start, requests, rounds)
    ensures end.Credentials? <==> LastGranted(rounds)
    ensures end.Failed? ==> |rounds| < |requests| && requests[|rounds|].Refused?
    ensures end.StillTrying? ==> |rounds| == |requests|
  {
    rounds := [];
    var now := start;
    while |rounds| < |requests|
      invariant |rounds| <= |requests| && Rounds(start, requests, rounds) && !LastGranted(rounds)
      invariant now == TimeAfterRounds(start, requests, rounds)
      decreases |requests| - |rounds|
    {
      var request := requests[|rounds|];
      if request.Refused? { return rounds, Failed; }
      var code := CodeOf(now, request);
      var polls, granted := PollOneCode(code);
      OneMoreRound(start, requests, rounds, polls);
      rounds := rounds + [polls];
      now := TimeAfter(code, polls);
      if granted { return rounds, Credentials; }
    }
    end := StillTrying;
  }

  predicate AllSlowDown(polls: seq<Poll>) {
    forall i :: 0 <= i < |polls| ==> polls[i].answer.SlowDown?
  }

  /** 5 + 10 + ... + 5n */
  function Triangle(n: nat): nat { if n == 0 then 0 else Triangle(n - 1) + 5 * n }

  lemma TriangleClosed(n: nat)
    ensures 2 * Triangle(n) == 5 * n * (n + 1)
  {}

  lemma {:induction false} WaitedAtLeast(code: Code, polls: seq<Poll>)
    requires Polled(code, polls)
    ensures Waited(polls) >= 5 * |polls|
    ensures AllSlowDown(polls) ==> SlowDowns(polls) == |polls| && Waited(polls) == Triangle(|polls|)
  {
    if polls != [] {
      WaitedAtLeast(code, polls[..|polls| - 1]);
    }
  }

  /** How often a code can be polled: the waits before the last poll began fit its lifetime. */
  lemma PollsFitLifetime(code: Code, polls: seq<Poll>)
    requires Polled(code, polls) && polls != []
    ensures 5 * (|polls| - 1) < code.lifetime
    ensures AllSlowDown(polls) ==> 5 * (|polls| - 1) * |polls| < 2 * code.lifetime
  {
    var n := |polls| - 1;
    WaitedAtLeast(code, polls[..n]);
    TriangleClosed(n);
    assert Waited(polls[..n]) < code.lifetime;
  }

  // ---------------------------------------------------------------------------------------
  // Keeping a token alive; times in nanoseconds
  // ---------------------------------------------------------------------------------------

  const SECOND: int := 1_000_000_000
  const MIN_REFRESH: int := 10 * SECOND
  const DEFAULT_REFRESH: int := 3600 * SECOND

  /** `as_nanos() * 2 / 3`, which truncates toward zero. */
  function TwoThirds(nanos: int): int {
    if nanos >= 0 then nanos * 2 / 3 else -(-nanos * 2 / 3)
  }

  /** `SignedDuration`: seconds and nanoseconds of one sign. */
  datatype Duration = Duration(seconds: int, nanos: int)

  function Nanos(d: Duration): int { d.seconds * 1_000_000_000 + d.nanos }

  predicate WellFormed(d: Duration) {
    && -1_000_000_000 < d.nanos < 1_000_000_000
    && (d.seconds > 0 ==> d.nanos >= 0)
    && (d.seconds < 0 ==> d.nanos <= 0)
  }

  /** Division and remainder by a second, which truncate toward zero. */
  function Split(nanos: int): Duration {
    if nanos >= 0 then Duration(nanos / 1_000_000_000, nanos % 1_000_000_000)
    else Duration(-(-nanos / 1_000_000_000), -(-nanos % 1_000_000_000))
  }

  /** Splitting into seconds and nanoseconds loses nothing, also for negative durations. */
  lemma SplitRecomposes(nanos: int)
    ensures WellFormed(Split(nanos)) && Nanos(Split(nanos)) == nanos
  {}

  /** The sleep of one round, from what is left until the token expires. */
  function SleepTime(lastDidError: bool, remaining: Option<int>): int {
    var wanted :=
      if lastDidError then MIN_REFRESH
      else match remaining
        case Some(left) =>
          var scaled := Split(TwoThirds(left));
          if Nanos(scaled) < 0 then MIN_REFRESH else Nanos(scaled)
        case None => DEFAULT_REFRESH;
    if wanted < MIN_REFRESH then MIN_REFRESH else wanted
  }

  /**
   * After a good round the sleep is two thirds of what is left, but at least ten seconds, so
   * the wake-up is not after the expiry exactly if at least ten seconds are left. After a failed
   * round it is ten seconds.
   */
  lemma SleepFitsExpiry(left: int)
    ensures var sleep := SleepTime(false, Some(left));
      && sleep >= MIN_REFRESH
      && (left * 2 >= 3 * MIN_REFRESH ==> 3 * sleep <= 2 * left < 3 * (sleep + 1))
      && (left * 2 < 3 * MIN_REFRESH ==> sleep == MIN_REFRESH)
      && (sleep <= left <==> left >= MIN_REFRESH)
    ensures SleepTime(true, Some(left)) == MIN_REFRESH == SleepTime(true, None)
  {
    SplitRecomposes(TwoThirds(left));
  }

  /** How a refresh ends; only a new token has an expiry of its own. */
  datatype Round =
    | Refreshed(expiry: Option<int>)
    | Unchanged
    | Rejected          // a 4xx status
    | NoRefreshToken
    | OtherError

  predicate Ends(r: Round) { r.Rejected? || r.NoRefreshToken? }

  /** When the token in use after these rounds expires. */
  function ExpiryAfter(first: Option<int>, rounds: seq<Round>): Option<int> {
    if rounds == [] then first
    else
      var last := rounds[|rounds| - 1];
      if last.Refreshed? then last.expiry else ExpiryAfter(first, rounds[..|rounds| - 1])
  }

  predicate LastFailed(rounds: seq<Round>) { rounds != [] && rounds[|rounds| - 1].OtherError? }

  predicate NoneEnds(rounds: seq<Round>) {
    rounds != [] ==> NoneEnds(rounds[..|rounds| - 1]) && !Ends(rounds[|rounds| - 1])
  }

  /** The sleep computed at time `now` for a token with this expiry. */
  function SleepNow(failed: bool, expiry: Option<int>, now: int): int {
    SleepTime(failed, if expiry.Some? then Some(expiry.value - now) else None)
  }

  /** The sleep that follows these rounds and is computed at time `now`. */
  function SleepAfter(first: Option<int>, rounds: seq<Round>, now: int): int {
    SleepNow(LastFailed(rounds), ExpiryAfter(first, rounds), now)
  }

  /** The sleeps of so many rounds; `clock(i)` is the time at which the i-th is computed. */
  function Sleeps(first: Option<int>, clock: nat -> int, rounds: seq<Round>): (sleeps: seq<int>)
    ensures |sleeps| == |rounds|
  {
    if rounds == [] then []
    else
      var front := rounds[..|rounds| - 1];
      Sleeps(first, clock, front) + [SleepAfter(first, front, clock(|front|))]
  }

  lemma SleepIs(failed: bool, expiry: Option<int>, now: int)
    ensures var sleep := SleepNow(failed, expiry, now);
      && (failed ==> sleep == 10_000_000_000)
      && (!failed && expiry.None? ==> sleep == 3_600_000_000_000)
      && (!failed && expiry.Some? ==>
            && sleep >= 10_000_000_000
            && (2 * (expiry.value - now) >= 30_000_000_000 ==>
                  3 * sleep <= 2 * (expiry.value - now) < 3 * sleep + 3)
            && (2 * (expiry.value - now) < 30_000_000_000 ==> sleep == 10_000_000_000)
            && (now + sleep <= expiry.value <==> expiry.value - now >= 10_000_000_000))
  {
    SleepFitsExpiry(if expiry.Some? then expiry.value - now else 0);
  }

  lemma {:induction false} SleepAt(first: Option<int>, clock: nat -> int, rounds: seq<Round>, i: nat)
    requires i < |rounds|
    ensures Sleeps(first, clock, rounds)[i] == SleepAfter(first, rounds[..i], clock(i))
  {
    var n := |rounds| - 1;
    if i < n {
      SleepAt(first, clock, rounds[..n], i);
      assert rounds[..n][..i] == rounds[..i];
    }
  }

  /**
   * When the i-th sleep is computed at time `now`, the token in use is the one that the rounds
   * before left: ten seconds after a failed round, an hour for a token that does not expire, and
   * otherwise two thirds of what is left, but at least ten seconds; so it wakes up by the expiry
   * exactly if ten seconds are left.
   */
  lemma SleepsAt(first: Option<int>, clock: nat -> int, rounds: seq<Round>, i: nat)
    requires i < |rounds|
    ensures var sleep, now := Sleeps(first, clock, rounds)[i], clock(i);
      var failed, expiry := LastFailed(rounds[..i]), ExpiryAfter(first, rounds[..i]);
      && (failed ==> sleep == 10_000_000_000)
      && (!failed && expiry.None? ==> sleep == 3_600_000_000_000)
      && (!failed && expiry.Some? ==>
            && sleep >= 10_000_000_000
            && (2 * (expiry.value - now) >= 30_000_000_000 ==>
                  3 * sleep <= 2 * (expiry.value - now) < 3 * sleep + 3)
            && (2 * (expiry.value - now) < 30_000_000_000 ==> sleep == 10_000_000_000)
            && (now + sleep <= expiry.value <==> expiry.value - now >= 10_000_000_000))
  {
    SleepAt(first, clock, rounds, i);
    SleepIs(LastFailed(rounds[..i]), ExpiryAfter(first, rounds[..i]), clock(i));
  }

  lemma RoundsSnoc(first: Option<int>, clock: nat -> int, rounds: seq<Round>, i: nat)
    requires i < |rounds|
    ensures ExpiryAfter(first, rounds[..i + 1])
      == if rounds[i].Refreshed? then rounds[i].expiry else ExpiryAfter(first, rounds[..i])
    ensures LastFailed(rounds[..i + 1]) <==> rounds[i].OtherError?
    ensures NoneEnds(rounds[..i + 1]) <==> NoneEnds(rounds[..i]) && !Ends(rounds[i])
    ensures Sleeps(first, clock, rounds[..i + 1])
      == Sleeps(first, clock, rounds[..i]) + [SleepAfter(first, rounds[..i], clock(i))]
  {
    assert rounds[..i + 1][..i] == rounds[..i];
  }

  datatype Exit = Running | EndedOk | EndedErr

  /**
   * The loop over any number of rounds. `first` is when the token at the start expires, and
   * `clock(i)` is the time at which the i-th sleep is computed.
   */
  method KeepTokenAlive(first: Option<int>, clock: nat -> int, rounds: seq<Round>)
    returns (sleeps: seq<int>, exit: Exit)
    ensures |sleeps| <= |rounds| && sleeps == Sleeps(first, clock, rounds[..|sleeps|])
    ensures exit.Running? ==> |sleeps| == |rounds| && NoneEnds(rounds)
    ensures !exit.Running? ==>
      sleeps != [] && NoneEnds(rounds[..|sleeps| - 1]) && Ends(rounds[|sleeps| - 1])
    ensures exit.EndedErr? <==> sleeps != [] && rounds[|sleeps| - 1].Rejected?
  {
    sleeps := [];
    var expiry, lastDidError, i := first, false, 0;
    while i < |rounds|
      invariant 0 <= i == |sleeps| <= |rounds|
      invariant NoneEnds(rounds[..i]) && (i > 0 ==> !Ends(rounds[i - 1]))
      invariant expiry == ExpiryAfter(first, rounds[..i]) && lastDidError == LastFailed(rounds[..i])
      invariant sleeps == Sleeps(first, clock, rounds[..i])
    {
      RoundsSnoc(first, clock, rounds, i);
      sleeps := sleeps + [SleepNow(lastDidError, expiry, clock(i))];
      match rounds[i] {
        case Rejected => return sleeps, EndedErr;
        case NoRefreshToken => return sleeps, EndedOk;
        case OtherError => lastDidError := true;
        case Refreshed(next) => lastDidError, expiry := false, next;
        case Unchanged => lastDidError := false;
      }
      i := i + 1;
    }
    assert rounds[..i] == rounds;
    exit := Running;
  }

  /** A token that was not replaced keeps its expiry, whatever failed in between. */
  lemma {:induction false} UnchangedKeepsExpiry(first: Option<int>, before: seq<Round>, more: seq<Round>)
    requires forall i :: 0 <= i < |more| ==> !more[i].Refreshed?
    ensures ExpiryAfter(first, before + more) == ExpiryAfter(first, before)
  {
    if more == [] {
      assert before + more == before;
    } else {
      var all := before + more;
      assert all[..|all| - 1] == before + more[..|more| - 1];
      UnchangedKeepsExpiry(first, before, more[..|more| - 1]);
    }
  }
}
