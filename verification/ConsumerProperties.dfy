/** What the consume loop amounts to over many turns: the re-subscription sleeps in
  * closed form, and how often a message whose handler always fails is run. */
module ConsumerProperties {
  import opened Wrappers
  import opened Topology
  import opened DeathHeader
  import opened Consumer

  // ---- Re-subscription backoff ----

  function SleepsIn(log: seq<Action>): seq<nat> {
    if log == [] then [] else (if log[0].Sleep? then [log[0].seconds] else []) + SleepsIn(log[1..])
  }

  lemma {:induction false} SleepsConcat(a: seq<Action>, b: seq<Action>)
    ensures SleepsIn(a + b) == SleepsIn(a) + SleepsIn(b)
  {
    if a == [] {
      assert a + b == b;
    } else {
      assert (a + b)[1..] == a[1..] + b && (a + b)[0] == a[0];
      SleepsConcat(a[1..], b);
      var first := if a[0].Sleep? then [a[0].seconds] else [];
      assert first + (SleepsIn(a[1..]) + SleepsIn(b)) == (first + SleepsIn(a[1..])) + SleepsIn(b);
    }
  }

  lemma NoSleeps(log: seq<Action>)
    requires |log| <= 2 && forall i :: 0 <= i < |log| ==> !log[i].Sleep?
    ensures SleepsIn(log) == []
  {
    if |log| == 2 { assert log[1..] == [log[1]] && log[1..][1..] == []; }
    if |log| == 1 { assert log[1..] == []; }
  }

  lemma {:induction false} ServingDoesNotSleep(db: Db, consumer: string, maxRetries: nat, ds: seq<Incoming>)
    ensures SleepsIn(ServeAll(db, consumer, maxRetries, ds).1) == []
    decreases |ds|
  {
    if ds != [] {
      var (mid, first) := Serve(db, consumer, maxRetries, ds[0]);
      ServingDoesNotSleep(mid, consumer, maxRetries, ds[1..]);
      NoSleeps(first);
      SleepsConcat(first, ServeAll(mid, consumer, maxRetries, ds[1..]).1);
    }
  }

  predicate Delivers(round: Round) {
    round.Stream? && round.deliveries != []
  }

  /** The delay after k doublings. */
  function Delay(k: nat): nat {
    if k == 0 then INITIAL_BACKOFF else NextBackoff(Delay(k - 1))
  }

  function Pow2(k: nat): nat {
    if k == 0 then 1 else 2 * Pow2(k - 1)
  }

  /** It is 2^k seconds, up to the cap. */
  lemma {:induction false} DelayIsMin(k: nat)
    ensures Delay(k) == if Pow2(k) <= MAX_BACKOFF then Pow2(k) else MAX_BACKOFF
  {
    if k > 0 { DelayIsMin(k - 1); }
  }

  /** How many turns lie between turn i and the last turn, up to i, that had a delivery;
    * without one, the turns since the start, plus k. */
  function Since(k: nat, rounds: seq<Round>, i: nat): nat
    requires i < |rounds|
  {
    if Delivers(rounds[i]) then 0 else if i == 0 then k else Since(k, rounds, i - 1) + 1
  }

  lemma {:induction false} SinceTail(k: nat, rounds: seq<Round>, i: nat)
    requires 0 < i < |rounds|
    ensures Since(k, rounds, i) == Since((if Delivers(rounds[0]) then 0 else k) + 1, rounds[1..], i - 1)
  {
    assert rounds[1..][i - 1] == rounds[i];
    if i > 1 && !Delivers(rounds[i]) { SinceTail(k, rounds, i - 1); }
  }

  /** The sleep after turn i is min(2^j, 30) seconds, j being the turns since the last
    * delivery: a turn with a delivery restarts the sequence. */
  lemma SleepsRestartAfterDelivery(db: Db, consumer: string, maxRetries: nat, rounds: seq<Round>, i: nat)
    requires i < |rounds|
    ensures var sleeps := SleepsIn(Drive(db, consumer, maxRetries, INITIAL_BACKOFF, rounds).1);
            && |sleeps| == |rounds|
            && sleeps[i] == var j := Since(0, rounds, i); if Pow2(j) <= MAX_BACKOFF then Pow2(j) else MAX_BACKOFF
  {
    SleepsAre(db, consumer, maxRetries, 0, rounds, i);
    DelayIsMin(Since(0, rounds, i));
  }

  lemma {:induction false} SleepsAre(db: Db, consumer: string, maxRetries: nat, k: nat, rounds: seq<Round>, i: nat)
    requires i < |rounds|
    ensures var sleeps := SleepsIn(Drive(db, consumer, maxRetries, Delay(k), rounds).1);
            |sleeps| == |rounds| && sleeps[i] == Delay(Since(k, rounds, i))
    decreases |rounds|
  {
    var (mid, first) := if rounds[0].Stream? then ServeAll(db, consumer, maxRetries, rounds[0].deliveries)
                        else (db, []);
    var slept := SleepOf(Delay(k), rounds[0]);
    var j := if Delivers(rounds[0]) then 0 else k;
    assert slept == Delay(j) && NextBackoff(slept) == Delay(j + 1);
    var rest := Drive(mid, consumer, maxRetries, Delay(j + 1), rounds[1..]).1;
    if rounds[0].Stream? { ServingDoesNotSleep(db, consumer, maxRetries, rounds[0].deliveries); }
    SleepsConcat(first + [Sleep(slept)], rest);
    SleepsConcat(first, [Sleep(slept)]);
    assert SleepsIn([Sleep(slept)]) == [slept];
    if |rounds| > 1 {
      SleepsAre(mid, consumer, maxRetries, j + 1, rounds[1..], if i > 0 then i - 1 else 0);
      if i > 0 { SinceTail(k, rounds, i); }
    }
  }

  function Total(sleeps: seq<nat>): nat {
    if sleeps == [] then 0 else Total(sleeps[..|sleeps| - 1]) + sleeps[|sleeps| - 1]
  }

  lemma {:induction false} SinceAllIdle(rounds: seq<Round>, i: nat)
    requires i < |rounds| && forall j :: 0 <= j < |rounds| ==> !Delivers(rounds[j])
    ensures Since(0, rounds, i) == i
  {
    if i > 0 { SinceAllIdle(rounds, i - 1); }
  }

  lemma {:induction false} PastTheCap(k: nat)
    ensures k >= 5 ==> Pow2(k) >= 32
  {
    assert Pow2(1) == 2 && Pow2(2) == 4 && Pow2(3) == 8 && Pow2(4) == 16 && Pow2(5) == 32;
    if k > 5 { PastTheCap(k - 1); }
  }

  lemma {:induction false} DelaysTotal(sleeps: seq<nat>)
    requires forall i :: 0 <= i < |sleeps| ==> sleeps[i] == Delay(i)
    ensures Total(sleeps) == if |sleeps| <= 5 then Pow2(|sleeps|) - 1 else 31 + 30 * (|sleeps| - 5)
  {
    if sleeps != [] {
      DelaysTotal(sleeps[..|sleeps| - 1]);
      DelayIsMin(|sleeps| - 1);
      PastTheCap(|sleeps| - 1);
      assert Pow2(1) == 2 && Pow2(2) == 4 && Pow2(3) == 8 && Pow2(4) == 16 && Pow2(5) == 32;
    }
  }

  /** After n turns without any delivery the loop has slept 2^n - 1 seconds for n <= 5,
    * and 31 + 30 * (n - 5) beyond. */
  lemma OutageSleeps(db: Db, consumer: string, maxRetries: nat, rounds: seq<Round>)
    requires forall i :: 0 <= i < |rounds| ==> !Delivers(rounds[i])
    ensures var n, slept := |rounds|, Total(SleepsIn(Drive(db, consumer, maxRetries, INITIAL_BACKOFF, rounds).1));
            slept == if n <= 5 then Pow2(n) - 1 else 31 + 30 * (n - 5)
  {
    var sleeps := SleepsIn(Drive(db, consumer, maxRetries, INITIAL_BACKOFF, rounds).1);
    forall i: nat | i < |rounds| ensures |sleeps| == |rounds| && sleeps[i] == Delay(i) {
      SleepsAre(db, consumer, maxRetries, 0, rounds, i);
      SinceAllIdle(rounds, i);
    }
    if rounds != [] { assert |sleeps| == |rounds| by { SleepsAre(db, consumer, maxRetries, 0, rounds, 0); } }
    DelaysTotal(sleeps);
  }

  // ---- The retry budget of one queue ----

  /** The life of one copy on a queue of its own whose handler always fails. Each element
    * of `drops` is one delivery: true if the connection was lost before the nack or ack
    * reached the broker, which then redelivers the copy as it was. */
  datatype Life = Life(runs: nat, attempts: seq<nat>, parks: nat, done: bool)

  function Live(deaths: Deaths, maxRetries: nat, drops: seq<bool>): (life: Life)
    ensures life.runs <= |drops|
    decreases |drops|
  {
    if drops == [] then Life(0, [], 0, false)
    else
      match DecideRetry(DeathCount(deaths), maxRetries)
      case RetryAgain(attempt) =>
        var next := if drops[0] then deaths else Cycle(deaths);
        var rest := Live(next, maxRetries, drops[1..]);
        rest.(runs := rest.runs + 1, attempts := [attempt] + rest.attempts)
      case Park =>
        if drops[0] then
          var rest := Live(deaths, maxRetries, drops[1..]);
          rest.(runs := rest.runs + 1, parks := rest.parks + 1)
        else Life(1, [], 1, true)
  }

  /** Through the retry queue and back: one rejection, one expiry. */
  function Cycle(deaths: Deaths): Deaths {
    Bump(Bump(deaths, Main(0)), Retry(0))
  }

  function CountTrue(bs: seq<bool>): nat {
    if bs == [] then 0 else (if bs[0] then 1 else 0) + CountTrue(bs[1..])
  }

  function UpFrom(a: nat, b: nat): seq<nat>
    requires a <= b + 1
    decreases b + 1 - a
  {
    if a > b then [] else [a] + UpFrom(a + 1, b)
  }

  /** After c cycles the front entry counts c. */
  ghost predicate Cycled(deaths: Deaths, c: nat) {
    DeathCount(deaths) == CountOf(deaths, Retry(0)) == c
  }

  lemma CycleCounts(deaths: Deaths, c: nat)
    requires Cycled(deaths, c)
    ensures Cycled(Cycle(deaths), c + 1)
  {
    CountBump(deaths, Main(0), Retry(0));
    CountBump(Bump(deaths, Main(0)), Retry(0), Retry(0));
  }

  /** Without drops: exactly maxRetries + 1 runs, attempts 1 to maxRetries logged in
    * order, one park. */
  lemma RetryBudgetExact(maxRetries: nat, drops: seq<bool>)
    requires |drops| > maxRetries && CountTrue(drops) == 0
    ensures Live([], maxRetries, drops) == Life(maxRetries + 1, UpFrom(1, maxRetries), 1, true)
  {
    LiveFrom([], 0, maxRetries, drops);
  }

  lemma {:induction false} LiveFrom(deaths: Deaths, c: nat, maxRetries: nat, drops: seq<bool>)
    requires Cycled(deaths, c) && c <= maxRetries && |drops| > maxRetries - c && CountTrue(drops) == 0
    ensures Live(deaths, maxRetries, drops) == Life(maxRetries - c + 1, UpFrom(c + 1, maxRetries), 1, true)
    decreases maxRetries - c
  {
    if c < maxRetries {
      CycleCounts(deaths, c);
      LiveFrom(Cycle(deaths), c + 1, maxRetries, drops[1..]);
    }
  }

  /** With k dropped deliveries, at most maxRetries + 1 + k runs, and exactly that many
    * if all drops came before the end; each drop adds at most one park. */
  lemma RetryBudgetWithDrops(maxRetries: nat, drops: seq<bool>)
    ensures var life := Live([], maxRetries, drops);
            && life.runs <= maxRetries + 1 + CountTrue(drops)
            && life.parks <= 1 + CountTrue(drops)
            && (life.done ==> life.runs == maxRetries + 1 + CountTrue(drops[..life.runs]))
            && (!life.done ==> life.runs == |drops|)
  {
    LiveWithDrops([], 0, maxRetries, drops);
  }

  lemma CountPrefix(drops: seq<bool>, k: nat)
    requires k < |drops|
    ensures CountTrue(drops[..k + 1]) == (if drops[0] then 1 else 0) + CountTrue(drops[1..][..k])
  {
    assert drops[..k + 1][1..] == drops[1..][..k];
  }

  lemma {:induction false} LiveWithDrops(deaths: Deaths, c: nat, maxRetries: nat, drops: seq<bool>)
    requires Cycled(deaths, c) && c <= maxRetries
    ensures var life := Live(deaths, maxRetries, drops);
            && life.runs <= maxRetries - c + 1 + CountTrue(drops)
            && life.parks <= 1 + CountTrue(drops)
            && (life.done ==> life.runs == maxRetries - c + 1 + CountTrue(drops[..life.runs]))
            && (!life.done ==> life.runs == |drops|)
    decreases |drops|
  {
    if drops != [] {
      var next, c' := deaths, c;
      if c < maxRetries && !drops[0] {
        CycleCounts(deaths, c);
        next, c' := Cycle(deaths), c + 1;
      }
      if c < maxRetries || drops[0] {
        LiveWithDrops(next, c', maxRetries, drops[1..]);
        var rest := Live(next, maxRetries, drops[1..]);
        CountPrefix(drops, rest.runs);
      } else {
        CountPrefix(drops, 0);
      }
    }
  }
}
