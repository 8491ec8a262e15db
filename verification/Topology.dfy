/** The broker topology: topic bindings, the per-queue retry cycle, and what a
  * dead-lettered message can reach. Queues are numbered from 0. */
module Topology {
  /** A routing key or a binding pattern, split on '.'. */
  type Key = seq<string>

  /** A queue a message can be in. */
  datatype QueueName = Main(queue: nat) | Retry(queue: nat) | Parked(queue: nat)

  datatype Exchange = Events | RetryDirect | Default

  /** Where a queue sends what it dead-letters. */
  datatype DeadLetter = DeadLetter(exchange: Exchange, key: Key)

  /** The name, the binding and the retry budget of each queue. */
  datatype Queues = Queues(names: seq<string>, bindings: seq<Key>, budgets: seq<nat>)

  /** No two queues have one name. */
  type Config = c: Queues |
      && |c.names| == |c.bindings| == |c.budgets|
      && forall p, q :: 0 <= p < q < |c.names| ==> c.names[p] != c.names[q]
    witness Queues([], [], [])

  // ---- Topic matching (AMQP 0-9-1, section 3.1.3.3) ----

  predicate Match(pattern: Key, key: Key)
    decreases |pattern| + |key|
  {
    if pattern == [] then key == []
    else if pattern[0] == "#" then
      Match(pattern[1..], key) || (key != [] && Match(pattern, key[1..]))
    else
      key != [] && (pattern[0] == "*" || pattern[0] == key[0]) && Match(pattern[1..], key[1..])
  }

  /** The words of the key are dealt out to the words of the pattern in order, `cuts` saying where
    * each share begins and ends: a hash takes any number, a star one, any other word itself. */
  ghost predicate Deals(pattern: Key, key: Key, cuts: seq<nat>) {
    && |cuts| == |pattern| + 1 && cuts[0] == 0 && cuts[|pattern|] == |key|
    && forall i :: 0 <= i < |pattern| ==> Takes(pattern[i], key, cuts[i], cuts[i + 1])
  }

  ghost predicate Takes(word: string, key: Key, start: nat, end: nat) {
    && start <= end <= |key|
    && (word != "#" ==> end == start + 1 && (word != "*" ==> key[start] == word))
  }

  lemma DealsFirst(pattern: Key, key: Key, cuts: seq<nat>)
    requires pattern != [] && Deals(pattern, key, cuts)
    ensures Takes(pattern[0], key, 0, cuts[1])
  {
    assert Takes(pattern[0], key, cuts[0], cuts[1]);
  }

  function Up(cuts: seq<nat>, n: nat): (r: seq<nat>)
    ensures |r| == |cuts| && forall i :: 0 <= i < |cuts| ==> r[i] == cuts[i] + n
  {
    seq(|cuts|, i requires 0 <= i < |cuts| => cuts[i] + n)
  }

  function Down(cuts: seq<nat>, n: nat): (r: seq<nat>)
    requires forall i :: 0 <= i < |cuts| ==> cuts[i] >= n
    ensures |r| == |cuts| && forall i :: 0 <= i < |cuts| ==> r[i] == cuts[i] - n
  {
    seq(|cuts|, i requires 0 <= i < |cuts| => cuts[i] - n)
  }

  lemma {:induction false} DealsRise(pattern: Key, key: Key, cuts: seq<nat>, i: nat)
    requires Deals(pattern, key, cuts) && 0 < i <= |pattern|
    ensures cuts[1] <= cuts[i] <= |key|
  {
    assert Takes(pattern[i - 1], key, cuts[i - 1], cuts[i]);
    if i > 1 { DealsRise(pattern, key, cuts, i - 1); }
  }

  /** Taking the share of the first word off. */
  lemma DealsRest(pattern: Key, key: Key, cuts: seq<nat>)
    requires pattern != [] && Deals(pattern, key, cuts)
    ensures forall i :: 1 <= i < |cuts| ==> cuts[i] >= cuts[1]
    ensures cuts[1] <= |key| && Deals(pattern[1..], key[cuts[1]..], Down(cuts[1..], cuts[1]))
  {
    var n := cuts[1];
    forall i | 1 <= i < |cuts| ensures n <= cuts[i] <= |key| { DealsRise(pattern, key, cuts, i); }
    var rest := Down(cuts[1..], n);
    forall i | 0 <= i < |pattern[1..]| ensures Takes(pattern[1..][i], key[n..], rest[i], rest[i + 1]) {
      assert Takes(pattern[i + 1], key, cuts[i + 1], cuts[i + 2]);
    }
  }

  /** Putting a share in front. */
  lemma DealsMore(pattern: Key, key: Key, n: nat, rest: seq<nat>)
    requires pattern != [] && n <= |key| && Takes(pattern[0], key, 0, n)
    requires Deals(pattern[1..], key[n..], rest)
    ensures Deals(pattern, key, [0] + Up(rest, n))
  {
    var cuts := [0] + Up(rest, n);
    forall i | 0 <= i < |pattern| ensures Takes(pattern[i], key, cuts[i], cuts[i + 1]) {
      if i > 0 {
        assert Takes(pattern[1..][i - 1], key[n..], rest[i - 1], rest[i]);
      }
    }
  }

  lemma HashTakesOneMore(pattern: Key, key: Key, more: seq<nat>) returns (cuts: seq<nat>)
    requires pattern != [] && pattern[0] == "#" && key != [] && Deals(pattern, key[1..], more)
    ensures Deals(pattern, key, cuts)
  {
    DealsFirst(pattern, key[1..], more);
    DealsRest(pattern, key[1..], more);
    var n, rest := more[1], Down(more[1..], more[1]);
    assert key[1..][n..] == key[n + 1..];
    DealsMore(pattern, key, n + 1, rest);
    cuts := [0] + Up(rest, n + 1);
  }

  lemma {:induction false} MatchDeals(pattern: Key, key: Key) returns (cuts: seq<nat>)
    requires Match(pattern, key)
    ensures Deals(pattern, key, cuts)
    decreases |pattern| + |key|
  {
    if pattern == [] {
      cuts := [0];
    } else if pattern[0] == "#" && Match(pattern[1..], key) {
      var rest := MatchDeals(pattern[1..], key);
      assert key[0..] == key;
      DealsMore(pattern, key, 0, rest);
      cuts := [0] + Up(rest, 0);
    } else if pattern[0] == "#" {
      var more := MatchDeals(pattern, key[1..]);
      cuts := HashTakesOneMore(pattern, key, more);
    } else {
      var rest := MatchDeals(pattern[1..], key[1..]);
      DealsMore(pattern, key, 1, rest);
      cuts := [0] + Up(rest, 1);
    }
  }

  lemma {:induction false} HashTakes(pattern: Key, key: Key, n: nat)
    requires pattern != [] && pattern[0] == "#" && n <= |key| && Match(pattern[1..], key[n..])
    ensures Match(pattern, key)
    decreases n
  {
    if n == 0 {
      assert key[0..] == key;
    } else {
      assert key[1..][n - 1..] == key[n..];
      HashTakes(pattern, key[1..], n - 1);
    }
  }

  lemma {:induction false} DealsMatch(pattern: Key, key: Key, cuts: seq<nat>)
    requires Deals(pattern, key, cuts)
    ensures Match(pattern, key)
    decreases |pattern|
  {
    if pattern != [] {
      DealsFirst(pattern, key, cuts);
      DealsRest(pattern, key, cuts);
      DealsMatch(pattern[1..], key[cuts[1]..], Down(cuts[1..], cuts[1]));
      if pattern[0] == "#" { HashTakes(pattern, key, cuts[1]); }
    }
  }

  /** A pattern matches a key if and only if the words of the key can be dealt out to it. */
  lemma MatchIff(pattern: Key, key: Key)
    ensures Match(pattern, key) <==> exists cuts :: Deals(pattern, key, cuts)
  {
    if Match(pattern, key) { var cuts := MatchDeals(pattern, key); }
    if cuts :| Deals(pattern, key, cuts) { DealsMatch(pattern, key, cuts); }
  }

  predicate Literal(pattern: Key) {
    forall i :: 0 <= i < |pattern| ==> pattern[i] != "#" && pattern[i] != "*"
  }

  /** A binding used as a routing key matches itself, wildcards included. */
  lemma {:induction false} SelfMatch(pattern: Key)
    ensures Match(pattern, pattern)
  {
    if pattern != [] {
      SelfMatch(pattern[1..]);
      if pattern[0] == "#" {
        assert Match(pattern, pattern[1..]);
      }
    }
  }

  /** A binding without wildcards matches its own key and no other. */
  lemma {:induction false} LiteralMatch(pattern: Key, key: Key)
    requires Literal(pattern)
    ensures Match(pattern, key) <==> pattern == key
  {
    if pattern != [] && key != [] {
      LiteralMatch(pattern[1..], key[1..]);
      assert pattern == [pattern[0]] + pattern[1..];
      assert key == [key[0]] + key[1..];
    }
  }

  /** A literal key that a binding matches: a word for each wildcard. */
  function OtherKey(pattern: Key): Key {
    if pattern == [] then []
    else [if pattern[0] == "*" || pattern[0] == "#" then "x" else pattern[0]] + OtherKey(pattern[1..])
  }

  lemma {:induction false} OtherKeyMatches(pattern: Key)
    ensures Match(pattern, OtherKey(pattern)) && Literal(OtherKey(pattern))
    ensures !Literal(pattern) ==> OtherKey(pattern) != pattern
  {
    if pattern != [] {
      OtherKeyMatches(pattern[1..]);
      var rest := OtherKey(pattern[1..]);
      assert OtherKey(pattern)[1..] == rest;
      if pattern[0] == "#" { assert Match(pattern, rest); }
    }
  }

  ghost predicate MatchesOnlyItself(pattern: Key) {
    forall key: Key :: Match(pattern, key) ==> key == pattern
  }

  /** Whatever key brought a message to a queue, it equals the queue's binding if and only if
    * the binding has no wildcard. */
  lemma LiteralIff(pattern: Key)
    ensures Literal(pattern) <==> MatchesOnlyItself(pattern)
  {
    if Literal(pattern) {
      forall key | Match(pattern, key) ensures key == pattern { LiteralMatch(pattern, key); }
    } else {
      OtherKeyMatches(pattern);
      var key := OtherKey(pattern);
      assert Match(pattern, key) && key != pattern;
    }
  }

  // ---- What an exchange reaches ----

  /** The queues, from number `from` on, whose binding matches `key`, in order. */
  function BoundFrom(cfg: Config, key: Key, from: nat): (queues: seq<nat>)
    requires from <= |cfg.bindings|
    ensures |queues| <= |cfg.bindings| - from
    ensures forall q: nat :: q in queues <==> from <= q < |cfg.bindings| && Match(cfg.bindings[q], key)
    ensures forall i, j :: 0 <= i < j < |queues| ==> queues[i] < queues[j]
    decreases |cfg.bindings| - from
  {
    if from == |cfg.bindings| then []
    else
      var rest := BoundFrom(cfg, key, from + 1);
      assert forall k :: 0 <= k < |rest| ==> rest[k] in rest;
      if Match(cfg.bindings[from], key) then [from] + rest else rest
  }

  /** Every queue bound to `key` on the topic exchange. */
  function Bound(cfg: Config, key: Key): (queues: seq<nat>)
    ensures |queues| <= |cfg.bindings|
    ensures forall q: nat :: q in queues <==> q < |cfg.bindings| && Match(cfg.bindings[q], key)
  {
    BoundFrom(cfg, key, 0)
  }

  // ---- The retry cycle ----

  /** main_queue_args: a rejected message goes to the retry exchange under the queue's name. */
  function MainQueueArgs(name: string): DeadLetter {
    DeadLetter(RetryDirect, [name])
  }

  /** retry_queue_args: an expired message goes to the events exchange under the binding key. */
  function RetryQueueArgs(binding: Key): DeadLetter {
    DeadLetter(Events, binding)
  }

  /** The queues an exchange delivers to. `bind_safe_consumer` binds each retry
    * queue to the direct exchange under its main queue's name, and each main queue
    * to the topic exchange under its binding. */
  ghost predicate Reaches(cfg: Config, letter: DeadLetter, target: QueueName)
  {
    match letter.exchange
    case Events => target.Main? && target.queue < |cfg.bindings| && Match(cfg.bindings[target.queue], letter.key)
    case RetryDirect => target.Retry? && target.queue < |cfg.bindings| && letter.key == [cfg.names[target.queue]]
    case Default => false
  }

  /** One nack and one expiry bring a message back to its own queue, and to exactly
    * the queues bound to that queue's binding key; the nack itself reaches only the
    * queue's own retry queue. */
  lemma RetryCycle(cfg: Config, q: nat, target: QueueName)
    requires q < |cfg.bindings|
    ensures Reaches(cfg, MainQueueArgs(cfg.names[q]), target) <==> target == Retry(q)
    ensures Reaches(cfg, RetryQueueArgs(cfg.bindings[q]), target)
       <==> target.Main? && target.queue in Bound(cfg, cfg.bindings[q])
    ensures Reaches(cfg, RetryQueueArgs(cfg.bindings[q]), Main(q))
  {
    SelfMatch(cfg.bindings[q]);
    assert [cfg.names[q]][0] == cfg.names[q];
  }
}
