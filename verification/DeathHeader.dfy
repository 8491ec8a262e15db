/** The broker's `x-death` header: how it grows, what the consumer reads from it,
  * and how far a message can travel before some consumer parks it. */
module DeathHeader {
  import opened Topology
  import opened Wrappers

  /** One entry. The reason is fixed by the source: a main queue dead-letters what a
    * consumer rejected, a retry queue what expired. */
  datatype Death = Death(source: QueueName, count: nat)

  /** Most recent entry first. */
  type Deaths = seq<Death>

  function CountOf(xs: Deaths, source: QueueName): nat {
    if xs == [] then 0 else if xs[0].source == source then xs[0].count else CountOf(xs[1..], source)
  }

  function Without(xs: Deaths, source: QueueName): Deaths {
    if xs == [] then [] else if xs[0].source == source then xs[1..] else [xs[0]] + Without(xs[1..], source)
  }

  /** What the broker writes when `source` dead-letters: the entry for the source is
    * counted up and moved to the front. */
  function Bump(xs: Deaths, source: QueueName): (r: Deaths)
    ensures r != [] && r[0].source == source
  {
    [Death(source, CountOf(xs, source) + 1)] + Without(xs, source)
  }

  lemma {:induction false} CountWithout(xs: Deaths, source: QueueName, other: QueueName)
    requires source != other
    ensures CountOf(Without(xs, source), other) == CountOf(xs, other)
  {
    if xs != [] && xs[0].source != source {
      CountWithout(xs[1..], source, other);
      assert ([xs[0]] + Without(xs[1..], source))[1..] == Without(xs[1..], source);
    }
  }

  lemma CountBump(xs: Deaths, source: QueueName, other: QueueName)
    ensures CountOf(Bump(xs, source), other) == CountOf(xs, other) + (if other == source then 1 else 0)
  {
    assert Bump(xs, source)[1..] == Without(xs, source);
    if other != source { CountWithout(xs, source, other); }
  }

  // ---- What the consumer reads ----

  /** death_count: the count of the first entry, 0 without one. */
  function DeathCount(xs: Deaths): nat {
    if xs == [] then 0 else xs[0].count
  }

  datatype RetryAction = RetryAgain(attempt: nat) | Park

  /** decide_retry. */
  function DecideRetry(attempts: nat, maxRetries: nat): RetryAction {
    if attempts >= maxRetries then Park else RetryAgain(attempts + 1)
  }

  /** The AMQP header values `lapin_death_count` tells apart. */
  datatype AmqpValue =
    | FieldArray(items: seq<AmqpValue>)
    | FieldTable(fields: map<string, AmqpValue>)
    | LongLongInt(n: int)
    | LongInt(n: int)
    | ShortInt(n: int)
    | OtherValue

  const U32: int := 0x1_0000_0000

  /** `(*n).max(0) as u32`: negative counts read as 0, the rest wraps at 32 bits. */
  function AsU32(n: int): (r: nat)
    ensures 0 <= n < U32 ==> r == n
  {
    if n < 0 then 0 else n % U32
  }

  /** lapin_death_count, over the headers of one delivery. */
  function LapinDeathCount(headers: Headers): nat {
    if headers.None? || "x-death" !in headers.value then 0
    else
      var value := headers.value["x-death"];
      if !value.FieldArray? || value.items == [] || !value.items[0].FieldTable?
         || "count" !in value.items[0].fields then 0
      else
        match value.items[0].fields["count"]
        case LongLongInt(n) => AsU32(n)
        case LongInt(n) => AsU32(n)
        case ShortInt(n) => AsU32(n)
        case _ => 0
  }

  type Headers = Option<map<string, AmqpValue>>

  /** The count of the first entry as the decoder takes it: an integer of any of three widths. */
  predicate Counts(value: AmqpValue, n: int) {
    value == LongLongInt(n) || value == LongInt(n) || value == ShortInt(n)
  }

  /** Whatever follows the first entry: a count of any width that fits 32 bits is read as it is, a
    * negative one as 0, and a value of any other kind as 0. */
  lemma LapinReadsAnyWidth(headers: Headers, fields: map<string, AmqpValue>, rest: seq<AmqpValue>)
    requires headers.Some? && "x-death" in headers.value
    requires headers.value["x-death"] == FieldArray([FieldTable(fields)] + rest)
    ensures forall n: int :: "count" in fields && Counts(fields["count"], n) ==>
              && (0 <= n < U32 ==> LapinDeathCount(headers) == n)
              && (n < 0 ==> LapinDeathCount(headers) == 0)
    ensures "count" !in fields || (forall n: int :: !Counts(fields["count"], n)) ==> LapinDeathCount(headers) == 0
  {
    var items := [FieldTable(fields)] + rest;
    assert items[0] == FieldTable(fields);
    if "count" in fields {
      match fields["count"]
      case LongLongInt(n) => assert Counts(fields["count"], n);
      case LongInt(n) => assert Counts(fields["count"], n);
      case ShortInt(n) => assert Counts(fields["count"], n);
      case _ =>
    }
  }

  /** Without headers, without an x-death array, or with one whose first element is no table, the
    * count is 0. */
  lemma LapinReadsNothing(headers: Headers)
    requires headers.Some? && "x-death" in headers.value ==>
               var value := headers.value["x-death"];
               !value.FieldArray? || value.items == [] || !value.items[0].FieldTable?
    ensures LapinDeathCount(headers) == 0
  {
  }

  /** The headers the broker delivers with a copy that has died as `xs` says: no `x-death`
    * before the first death, then one table an entry with its count as a 64-bit integer. Other
    * headers and other fields of the tables do not matter. */
  ghost predicate HeadersFor(headers: Headers, xs: Deaths) {
    if headers.None? || "x-death" !in headers.value then xs == []
    else
      var value := headers.value["x-death"];
      && value.FieldArray? && |value.items| == |xs|
      && forall i :: 0 <= i < |xs| ==>
           && value.items[i].FieldTable? && "count" in value.items[i].fields
           && value.items[i].fields["count"] == LongLongInt(xs[i].count)
  }

  /** Decoding the broker's headers gives the abstract death count if and only if it fits 32
    * bits. */
  lemma LapinReadsDeathCount(headers: Headers, xs: Deaths)
    requires HeadersFor(headers, xs)
    ensures LapinDeathCount(headers) == DeathCount(xs) <==> DeathCount(xs) < U32
  {
  }

  // ---- The largest budget, and the bound it gives ----

  function MaxOf(budgets: seq<nat>): nat {
    if budgets == [] then 0
    else
      var rest := MaxOf(budgets[1..]);
      if budgets[0] > rest then budgets[0] else rest
  }

  lemma {:induction false} MaxOfBounds(budgets: seq<nat>, q: nat)
    requires q < |budgets|
    ensures budgets[q] <= MaxOf(budgets)
  {
    if q > 0 { MaxOfBounds(budgets[1..], q - 1); }
  }

  /** How often the first `n` main queues have dead-lettered the message. */
  function Rejections(xs: Deaths, n: nat): nat {
    if n == 0 then 0 else Rejections(xs, n - 1) + CountOf(xs, Main(n - 1))
  }

  /** The most nacks a copy survives among n queues: n * (budget - 1) + 1. */
  function NackLimit(n: nat, budget: nat): nat {
    if budget == 0 || n == 0 then 0 else n * (budget - 1) + 1
  }

  /** What holds of the header of a copy in a main queue or at a consumer: the front
    * entry, if any, is from a retry queue; every nack was followed by an expiry; no
    * queue counts above the budget, and only the front one can have reached it. */
  ghost predicate Circulating(xs: Deaths, n: nat, budget: nat) {
    && (xs != [] ==> xs[0].source.Retry? && xs[0].source.queue < n)
    && forall q: nat :: q < n ==> BudgetKept(xs, q, budget)
  }

  ghost predicate BudgetKept(xs: Deaths, q: nat, budget: nat) {
    && CountOf(xs, Main(q)) == CountOf(xs, Retry(q)) <= budget
    && (CountOf(xs, Retry(q)) == budget > 0 ==> xs != [] && xs[0].source == Retry(q))
  }

  /** What holds of the header of a copy in the retry queue of `home`. */
  ghost predicate Resting(xs: Deaths, n: nat, budget: nat, home: nat) {
    && home < n
    && CountOf(xs, Main(home)) == CountOf(xs, Retry(home)) + 1 <= budget
    && forall q: nat :: q < n && q != home ==> CountOf(xs, Main(q)) == CountOf(xs, Retry(q)) < budget
  }

  lemma NackRests(xs: Deaths, n: nat, budget: nat, home: nat)
    requires Circulating(xs, n, budget) && home < n && DeathCount(xs) < budget
    ensures Resting(Bump(xs, Main(home)), n, budget, home)
  {
    forall q: nat | q < n
      ensures CountOf(Bump(xs, Main(home)), Main(q)) == CountOf(xs, Main(q)) + (if q == home then 1 else 0)
      ensures CountOf(Bump(xs, Main(home)), Retry(q)) == CountOf(xs, Retry(q)) == CountOf(xs, Main(q)) < budget
    {
      CountBump(xs, Main(home), Main(q));
      CountBump(xs, Main(home), Retry(q));
      assert BudgetKept(xs, q, budget);
    }
  }

  lemma ExpiryCirculates(xs: Deaths, n: nat, budget: nat, home: nat)
    requires Resting(xs, n, budget, home)
    ensures Circulating(Bump(xs, Retry(home)), n, budget)
  {
    forall q: nat | q < n
      ensures BudgetKept(Bump(xs, Retry(home)), q, budget)
    {
      CountBump(xs, Retry(home), Main(q));
      CountBump(xs, Retry(home), Retry(q));
    }
  }

  lemma {:induction false} RejectionsBump(xs: Deaths, n: nat, source: QueueName)
    ensures Rejections(Bump(xs, source), n)
         == Rejections(xs, n) + (if source.Main? && source.queue < n then 1 else 0)
  {
    if n > 0 {
      RejectionsBump(xs, n - 1, source);
      CountBump(xs, source, Main(n - 1));
    }
  }

  /** If every queue but `top` counts below `budget`, the sum is below the limit. */
  lemma {:induction false} RejectionsBounded(xs: Deaths, n: nat, budget: nat, top: int)
    requires budget > 0
    requires forall q: nat :: q < n ==> CountOf(xs, Main(q)) <= (if q == top then budget else budget - 1)
    ensures Rejections(xs, n) <= n * (budget - 1) + (if 0 <= top < n then 1 else 0)
  {
    if n > 0 {
      RejectionsBounded(xs, n - 1, budget, top);
      assert n * (budget - 1) == (n - 1) * (budget - 1) + (budget - 1);
    }
  }

  /** Each copy keeps every per-queue count at most the budget, and is dead-lettered
    * at most n * (budget - 1) + 1 times while it circulates. */
  lemma CirculatingLimit(xs: Deaths, n: nat, budget: nat)
    requires Circulating(xs, n, budget)
    ensures forall q: nat :: q < n ==> CountOf(xs, Main(q)) <= budget && CountOf(xs, Retry(q)) <= budget
    ensures Rejections(xs, n) <= NackLimit(n, budget)
  {
    forall q: nat | q < n ensures CountOf(xs, Main(q)) == CountOf(xs, Retry(q)) <= budget {
      assert BudgetKept(xs, q, budget);
    }
    if budget == 0 {
      NoRejections(xs, n);
    } else if n > 0 {
      var top: int := if xs != [] then xs[0].source.queue else -1;
      forall q: nat | q < n ensures CountOf(xs, Main(q)) <= (if q == top then budget else budget - 1) {
        assert BudgetKept(xs, q, budget);
      }
      RejectionsBounded(xs, n, budget, top);
    }
  }

  lemma {:induction false} NoRejections(xs: Deaths, n: nat)
    requires forall q: nat :: q < n ==> CountOf(xs, Main(q)) == 0
    ensures Rejections(xs, n) == 0
  {
    if n > 0 { NoRejections(xs, n - 1); }
  }

  lemma RestingLimit(xs: Deaths, n: nat, budget: nat, home: nat)
    requires Resting(xs, n, budget, home)
    ensures forall q: nat :: q < n ==> CountOf(xs, Main(q)) <= budget && CountOf(xs, Retry(q)) <= budget
    ensures Rejections(xs, n) <= NackLimit(n, budget)
  {
    RejectionsBounded(xs, n, budget, home);
  }
}
