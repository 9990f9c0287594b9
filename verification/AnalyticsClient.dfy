/** The analytics client's in-place helpers: bounded deduplication of used apps and plugins,
    and batching of events into requests. */
module AnalyticsClient {
  import opened Protocol

  // ---- Deduplication ----

  const DEDUPE_MAX_KEYS: nat := 4096

  type Key = (string, string)

  predicate Distinct(keys: seq<Key>) {
    forall i, j :: 0 <= i < j < |keys| ==> keys[i] != keys[j]
  }

  function Elements(keys: seq<Key>): set<Key> {
    set i | 0 <= i < |keys| :: keys[i]
  }

  /** `accepted` falls into consecutive blocks of 4096 distinct keys, the last one holding the
      keys remembered now. `clears` is the number of blocks already forgotten. */
  ghost predicate Blocks(accepted: seq<Key>, emitted: set<Key>, clears: nat) {
    && DEDUPE_MAX_KEYS * clears <= |accepted| <= DEDUPE_MAX_KEYS * (clears + 1)
    && (forall b: nat :: b < clears ==> Distinct(Block(accepted, b)))
    && Distinct(accepted[DEDUPE_MAX_KEYS * clears..])
    && emitted == Elements(accepted[DEDUPE_MAX_KEYS * clears..])
  }

  /** The b-th block of 4096; the last one may be shorter. */
  ghost function Block(accepted: seq<Key>, b: nat): seq<Key> {
    if DEDUPE_MAX_KEYS * (b + 1) <= |accepted| then accepted[DEDUPE_MAX_KEYS * b..DEDUPE_MAX_KEYS * (b + 1)]
    else if DEDUPE_MAX_KEYS * b <= |accepted| then accepted[DEDUPE_MAX_KEYS * b..]
    else []
  }

  lemma {:induction false} ElementsSnoc(keys: seq<Key>, key: Key)
    ensures Elements(keys + [key]) == Elements(keys) + {key}
  {
    var more := keys + [key];
    forall k | k in Elements(keys) + {key} ensures k in Elements(more) {
      if k != key {
        var i :| 0 <= i < |keys| && keys[i] == k;
        assert more[i] == k;
      } else {
        assert more[|keys|] == k;
      }
    }
  }

  lemma {:induction false} DistinctSize(keys: seq<Key>)
    requires Distinct(keys)
    ensures |Elements(keys)| == |keys|
  {
    if keys == [] {
      assert Elements(keys) == {};
    } else {
      var rest, last := keys[..|keys| - 1], keys[|keys| - 1];
      DistinctSize(rest);
      assert keys == rest + [last];
      ElementsSnoc(rest, last);
      assert last !in Elements(rest);
    }
  }

  lemma {:induction false} DistinctSnoc(keys: seq<Key>, key: Key)
    requires Distinct(keys) && key !in Elements(keys)
    ensures Distinct(keys + [key])
  {
    forall i | 0 <= i < |keys| ensures keys[i] != key { assert keys[i] in Elements(keys); }
  }

  /** Forgetting a full block starts a new one. */
  lemma {:induction false} BlocksClear(accepted: seq<Key>, emitted: set<Key>, clears: nat)
    requires Blocks(accepted, emitted, clears) && |emitted| >= DEDUPE_MAX_KEYS
    ensures Blocks(accepted, {}, clears + 1)
  {
    var last := accepted[DEDUPE_MAX_KEYS * clears..];
    DistinctSize(last);
    assert |accepted| == DEDUPE_MAX_KEYS * (clears + 1);
    assert Block(accepted, clears) == last;
    assert accepted[DEDUPE_MAX_KEYS * (clears + 1)..] == [];
    assert Elements([]) == {};
  }

  lemma {:induction false} BlocksAccept(accepted: seq<Key>, emitted: set<Key>, clears: nat, key: Key)
    requires Blocks(accepted, emitted, clears) && key !in emitted && |emitted| < DEDUPE_MAX_KEYS
    ensures Blocks(accepted + [key], emitted + {key}, clears)
  {
    hide Distinct, Elements;
    var start := DEDUPE_MAX_KEYS * clears;
    var last, more := accepted[start..], accepted + [key];
    DistinctSize(last);
    DistinctSnoc(last, key);
    ElementsSnoc(last, key);
    assert more[start..] == last + [key];
    forall b: nat | b < clears ensures Block(more, b) == Block(accepted, b) {
      assert DEDUPE_MAX_KEYS * (b + 1) <= start;
    }
  }

  /** What is remembered, and the keys of the keyed calls answered true so far, in order. */
  datatype Memory = Memory(emitted: set<Key>, accepted: seq<Key>)

  function Forget(m: Memory): Memory {
    if |m.emitted| >= DEDUPE_MAX_KEYS then m.(emitted := {}) else m
  }

  /** One call. Whether a call without a key clears a full set differs between apps and plugins. */
  function Offer(m: Memory, key: Option<Key>, keylessClears: bool): Memory {
    if key.None? then (if keylessClears then Forget(m) else m)
    else
      var f := Forget(m);
      if key.value in f.emitted then f else Memory(f.emitted + {key.value}, f.accepted + [key.value])
  }

  function OfferAll(calls: seq<Option<Key>>, keylessClears: bool): Memory {
    if calls == [] then Memory({}, [])
    else Offer(OfferAll(calls[..|calls| - 1], keylessClears), calls[|calls| - 1], keylessClears)
  }

  class Deduper {
    var emitted: set<Key>
    ghost var accepted: seq<Key>

    ghost function View(): Memory
      reads this
    {
      Memory(emitted, accepted)
    }

    constructor ()
      ensures View() == OfferAll([], false) == OfferAll([], true)
    {
      emitted, accepted := {}, [];
    }

    /** `HashSet::insert`: whether the key was new. */
    method Insert(key: Key) returns (added: bool)
      modifies this`emitted, this`accepted
      ensures added == (key !in old(emitted))
      ensures View() == if added then Memory(old(emitted) + {key}, old(accepted) + [key]) else old(View())
    {
      added := key !in emitted;
      if added {
        emitted := emitted + {key};
        accepted := accepted + [key];
      }
    }

    /** `should_enqueue_app_used`: a call without a connector id touches nothing. */
    method ShouldEnqueueAppUsed(turn: string, connector: Option<string>) returns (enqueue: bool)
      modifies this
      ensures View() == Offer(old(View()), if connector.Some? then Some((turn, connector.value)) else None, false)
      ensures enqueue <==> connector.None? || accepted == old(accepted) + [(turn, connector.value)]
      ensures !enqueue ==> accepted == old(accepted)
    {
      if connector.None? { return true; }
      if |emitted| >= DEDUPE_MAX_KEYS { emitted := {}; }
      enqueue := Insert((turn, connector.value));
    }

    /** `should_enqueue_plugin_used`: a call without an id may clear the set, and accepts nothing. */
    method ShouldEnqueuePluginUsed(turn: string, plugin: Option<string>, remotePlugin: Option<string>)
      returns (enqueue: bool)
      modifies this
      ensures var id := Or(plugin, remotePlugin);
              && View() == Offer(old(View()), if id.Some? then Some((turn, id.value)) else None, true)
              && (enqueue <==> id.None? || accepted == old(accepted) + [(turn, id.value)])
              && (!enqueue ==> accepted == old(accepted))
    {
      if |emitted| >= DEDUPE_MAX_KEYS { emitted := {}; }
      var id := if plugin.Some? then plugin else remotePlugin;
      if id.None? { return true; }
      enqueue := Insert((turn, id.value));
    }
  }

  lemma {:induction false} DistinctMultiplicity(keys: seq<Key>, key: Key)
    requires Distinct(keys)
    ensures multiset(keys)[key] <= 1
  {
    if keys != [] {
      var rest, last := keys[..|keys| - 1], keys[|keys| - 1];
      DistinctMultiplicity(rest, key);
      assert keys == rest + [last];
      assert forall i :: 0 <= i < |rest| ==> rest[i] == keys[i] != last;
      assert last !in multiset(rest);
    }
  }

  lemma {:induction false} AcceptedAtMostOncePerBlock(accepted: seq<Key>, emitted: set<Key>, clears: nat, key: Key)
    requires Blocks(accepted, emitted, clears)
    ensures |emitted| <= DEDUPE_MAX_KEYS
    ensures multiset(accepted)[key] <= (|accepted| + DEDUPE_MAX_KEYS - 1) / DEDUPE_MAX_KEYS
  {
    var start := DEDUPE_MAX_KEYS * clears;
    var last := accepted[start..];
    DistinctSize(last);
    DistinctMultiplicity(last, key);
    FullBlocks(accepted, clears, key);
    assert accepted == accepted[..start] + last;
    if last == [] { assert |accepted| == start; }
  }

  lemma {:induction false} BlocksOffer(m: Memory, clears: nat, key: Option<Key>, keylessClears: bool)
    returns (next: nat)
    requires Blocks(m.accepted, m.emitted, clears)
    ensures var t := Offer(m, key, keylessClears); Blocks(t.accepted, t.emitted, next)
  {
    hide Blocks;
    next := clears;
    if key.None? && !keylessClears { return; }
    if |m.emitted| >= DEDUPE_MAX_KEYS {
      BlocksClear(m.accepted, m.emitted, clears);
      next := clears + 1;
    }
    var f := Forget(m);
    if key.Some? && key.value !in f.emitted { BlocksAccept(f.accepted, f.emitted, next, key.value); }
  }

  lemma {:induction false} BlocksReachable(calls: seq<Option<Key>>, keylessClears: bool) returns (clears: nat)
    ensures var m := OfferAll(calls, keylessClears); Blocks(m.accepted, m.emitted, clears)
  {
    hide Offer;
    clears := 0;
    if calls == [] {
      assert Elements([]) == {};
    } else {
      var before := BlocksReachable(calls[..|calls| - 1], keylessClears);
      clears := BlocksOffer(OfferAll(calls[..|calls| - 1], keylessClears), before, calls[|calls| - 1], keylessClears);
    }
  }

  /** Bounded dedupe: after any calls, keyed or not, the set holds at most 4096 keys, the accepted
      keys fall into consecutive blocks of 4096 with distinct keys per block, and no key was
      accepted more often than there are started blocks. */
  lemma {:induction false} DedupeBound(calls: seq<Option<Key>>, keylessClears: bool, key: Key, b: nat)
    ensures var m := OfferAll(calls, keylessClears);
            && |m.emitted| <= DEDUPE_MAX_KEYS
            && Distinct(Block(m.accepted, b))
            && multiset(m.accepted)[key] <= (|m.accepted| + DEDUPE_MAX_KEYS - 1) / DEDUPE_MAX_KEYS
  {
    hide OfferAll, Distinct, Elements;
    var clears := BlocksReachable(calls, keylessClears);
    var m := OfferAll(calls, keylessClears);
    AcceptedAtMostOncePerBlock(m.accepted, m.emitted, clears, key);
    if b == clears {
      assert Block(m.accepted, b) == m.accepted[DEDUPE_MAX_KEYS * clears..];
    } else if b > clears {
      assert Block(m.accepted, b) == [] by { assert DEDUPE_MAX_KEYS * b >= DEDUPE_MAX_KEYS * (clears + 1); }
    }
    assert Distinct([]) by { NoKeys(); }
  }

  /** The keys that should be accepted: each unless it is among those accepted since the last
      block of 4096 was full. */
  function ShouldAccept(calls: seq<Option<Key>>): seq<Key> {
    if calls == [] then []
    else
      var before, key := ShouldAccept(calls[..|calls| - 1]), calls[|calls| - 1];
      if key.None? || key.value in Recent(before) then before else before + [key.value]
  }

  /** The keys after the last full block of 4096. */
  function Recent(keys: seq<Key>): seq<Key> {
    keys[|keys| - |keys| % 4096..]
  }

  /** Between calls the set holds the recent keys, or a block that has just become full. */
  ghost predicate Remembers(m: Memory) {
    || m.emitted == Elements(Recent(m.accepted))
    || (Recent(m.accepted) == [] && |m.emitted| >= DEDUPE_MAX_KEYS)
  }

  lemma {:induction false} BlocksRemember(accepted: seq<Key>, emitted: set<Key>, clears: nat)
    requires Blocks(accepted, emitted, clears)
    ensures Remembers(Memory(emitted, accepted))
  {
    hide Distinct, Elements;
    var last := accepted[DEDUPE_MAX_KEYS * clears..];
    DistinctSize(last);
    if |last| < DEDUPE_MAX_KEYS {
      assert |accepted| % 4096 == |last|;
    } else {
      assert |accepted| % 4096 == 0;
    }
  }

  lemma {:induction false} OfferExact(m: Memory, key: Option<Key>, keylessClears: bool)
    requires Remembers(m)
    ensures Offer(m, key, keylessClears).accepted ==
            if key.None? || key.value in Recent(m.accepted) then m.accepted else m.accepted + [key.value]
  {
    hide Recent;
    if key.Some? { ElementsMember(Recent(m.accepted), key.value); }
    ElementsSmall(m.accepted);
  }

  lemma {:induction false} ElementsMember(keys: seq<Key>, key: Key)
    ensures key in Elements(keys) <==> key in keys
  {
  }

  lemma {:induction false} ElementsBound(keys: seq<Key>)
    ensures |Elements(keys)| <= |keys|
  {
    if keys != [] {
      var rest, last := keys[..|keys| - 1], keys[|keys| - 1];
      ElementsBound(rest);
      assert keys == rest + [last];
      ElementsSnoc(rest, last);
    } else {
      assert Elements(keys) == {};
    }
  }

  lemma {:induction false} ElementsSmall(keys: seq<Key>)
    ensures |Elements(Recent(keys))| < DEDUPE_MAX_KEYS
  {
    ElementsBound(Recent(keys));
  }

  /** Dedupe, exactly: after any calls, the keys accepted are those that were new since the last
      block of 4096 was full, in order. Calls without a key make no difference, and so app and
      plugin calls answer alike although they clear the set at different times. */
  lemma {:induction false} DedupeExact(calls: seq<Option<Key>>, keylessClears: bool)
    ensures OfferAll(calls, keylessClears).accepted == ShouldAccept(calls)
  {
    hide Offer, Remembers, Recent, Blocks;
    if calls != [] {
      var before := calls[..|calls| - 1];
      DedupeExact(before, keylessClears);
      var clears := BlocksReachable(before, keylessClears);
      var m := OfferAll(before, keylessClears);
      BlocksRemember(m.accepted, m.emitted, clears);
      OfferExact(m, calls[|calls| - 1], keylessClears);
    }
  }

  lemma NoKeys()
    ensures Distinct([])
  {
  }

  lemma {:induction false} FullBlocks(accepted: seq<Key>, n: nat, key: Key)
    requires DEDUPE_MAX_KEYS * n <= |accepted|
    requires forall b: nat :: b < n ==> Distinct(Block(accepted, b))
    ensures multiset(accepted[..DEDUPE_MAX_KEYS * n])[key] <= n
  {
    if n > 0 {
      var m := n - 1;
      FullBlocks(accepted, m, key);
      var full := Block(accepted, m);
      assert full == accepted[DEDUPE_MAX_KEYS * m..DEDUPE_MAX_KEYS * n];
      DistinctMultiplicity(full, key);
      assert accepted[..DEDUPE_MAX_KEYS * n] == accepted[..DEDUPE_MAX_KEYS * m] + full;
    }
  }

  // ---- Batching ----

  /** An event, and whether it must travel in a request of its own. */
  datatype Outgoing = Outgoing(isolated: bool, body: string)

  function Flatten(batches: seq<seq<Outgoing>>): seq<Outgoing> {
    if batches == [] then [] else Flatten(batches[..|batches| - 1]) + batches[|batches| - 1]
  }

  /** A batch is one isolated event, or at least one event and none isolated. */
  predicate GoodBatch(batch: seq<Outgoing>) {
    batch != [] && (|batch| > 1 ==> forall i :: 0 <= i < |batch| ==> !batch[i].isolated)
  }

  predicate Mergeable(a: seq<Outgoing>, b: seq<Outgoing>) {
    (forall i :: 0 <= i < |a| ==> !a[i].isolated) && (forall i :: 0 <= i < |b| ==> !b[i].isolated)
  }

  ghost predicate GoodBatches(batches: seq<seq<Outgoing>>) {
    && (forall i :: 0 <= i < |batches| ==> GoodBatch(batches[i]))
    && (forall i :: 0 <= i < |batches| - 1 ==> !Mergeable(batches[i], batches[i + 1]))
  }

  lemma {:induction false} AppendBatch(batches: seq<seq<Outgoing>>, batch: seq<Outgoing>)
    requires GoodBatches(batches) && GoodBatch(batch)
    requires batches != [] ==> !Mergeable(batches[|batches| - 1], batch)
    ensures GoodBatches(batches + [batch])
    ensures Flatten(batches + [batch]) == Flatten(batches) + batch
  {
    assert (batches + [batch])[..|batches|] == batches;
  }

  /** `track_event_request_batches`: the batches hold the events in order, none is empty, every
      isolated event is alone, and no two neighbours could have been one batch. */
  method Batch(events: seq<Outgoing>) returns (batches: seq<seq<Outgoing>>)
    ensures Flatten(batches) == events
    ensures GoodBatches(batches)
  {
    hide Batched, GoodBatches, Flatten;
    batches := [];
    var current: seq<Outgoing> := [];
    BatchedNone();
    assert events[..0] == [];
    var i := 0;
    while i < |events|
      invariant 0 <= i <= |events| && Batched(events[..i], batches, current)
    {
      var event := events[i];
      assert events[..i + 1] == events[..i] + [event];
      if event.isolated {
        BatchedFlush(events[..i], batches, current);
        if current != [] {
          batches := batches + [current];
          current := [];
        }
        BatchedIsolated(events[..i], batches, event);
        batches := batches + [[event]];
      } else {
        BatchedPlain(events[..i], batches, current, event);
        current := current + [event];
      }
      i := i + 1;
    }
    assert events[..|events|] == events;
    BatchedFlush(events, batches, current);
    if current != [] {
      batches := batches + [current];
    }
  }

  /** The loop so far: finished batches ending in an isolated event, then plain events. */
  ghost predicate Batched(done: seq<Outgoing>, batches: seq<seq<Outgoing>>, current: seq<Outgoing>) {
    && Flatten(batches) + current == done && GoodBatches(batches)
    && (forall j :: 0 <= j < |current| ==> !current[j].isolated)
    && (batches != [] ==> var last := batches[|batches| - 1]; |last| == 1 && last[0].isolated)
  }

  lemma BatchedNone()
    ensures Batched([], [], [])
  {
  }

  lemma {:induction false} BatchedPlain(done: seq<Outgoing>, batches: seq<seq<Outgoing>>, current: seq<Outgoing>,
                                        event: Outgoing)
    requires Batched(done, batches, current) && !event.isolated
    ensures Batched(done + [event], batches, current + [event])
  {
    hide GoodBatches, Flatten;
    assert Flatten(batches) + (current + [event]) == Flatten(batches) + current + [event];
  }

  lemma {:induction false} BatchedFlush(done: seq<Outgoing>, batches: seq<seq<Outgoing>>, current: seq<Outgoing>)
    requires Batched(done, batches, current)
    ensures current == [] ==> Flatten(batches) == done && GoodBatches(batches)
    ensures current != [] ==> Flatten(batches + [current]) == done && GoodBatches(batches + [current])
  {
    hide GoodBatches, Flatten;
    if current == [] {
      assert Flatten(batches) + current == Flatten(batches);
    } else {
      AppendBatch(batches, current);
    }
  }

  lemma {:induction false} BatchedIsolated(done: seq<Outgoing>, batches: seq<seq<Outgoing>>, event: Outgoing)
    requires Flatten(batches) == done && GoodBatches(batches) && event.isolated
    ensures Batched(done + [event], batches + [[event]], [])
  {
    hide GoodBatches, Flatten;
    assert !(forall i :: 0 <= i < |[event]| ==> ![event][i].isolated) by { assert [event][0].isolated; }
    AppendBatch(batches, [event]);
    assert done + [event] + [] == done + [event];
  }

  lemma {:induction false} FlattenLonger(batches: seq<seq<Outgoing>>)
    requires forall i :: 0 <= i < |batches| ==> batches[i] != []
    ensures |Flatten(batches)| >= |batches|
  {
    if batches != [] { FlattenLonger(batches[..|batches| - 1]); }
  }

  lemma {:induction false} LastEvents(batches: seq<seq<Outgoing>>, batch: seq<Outgoing>, j: nat)
    requires batches != [] && batch == batches[|batches| - 1] && j < |batch|
    ensures |batch| <= |Flatten(batches)| && Flatten(batches)[|Flatten(batches)| - |batch| + j] == batch[j]
  {
  }

  /** The last batch is fixed by the events: as many trailing events as fit together. */
  lemma {:induction false} LastBatchUnique(a: seq<seq<Outgoing>>, b: seq<seq<Outgoing>>, events: seq<Outgoing>)
    requires GoodBatches(a) && GoodBatches(b) && a != [] && b != [] && Flatten(a) == events == Flatten(b)
    requires |a[|a| - 1]| <= |b[|b| - 1]|
    ensures a[|a| - 1] == b[|b| - 1]
  {
    hide Flatten, Mergeable;
    var x, y := a[|a| - 1], b[|b| - 1];
    var d := |y| - |x|;
    assert GoodBatch(x) && GoodBatch(y);
    forall j | 0 <= j < |x| ensures x[j] == y[d + j] {
      LastEvents(a, x, j);
      LastEvents(b, y, d + j);
    }
    if d > 0 {
      LastEvents(b, y, 0);
      forall j | 0 <= j < |y| ensures y[j] == events[|events| - |y| + j] { LastEvents(b, y, j); }
      NoLongerBatch(a, events, x, y);
      assert false;
    }
  }

  /** A run of plain events that ends like `a` cannot reach past a's last batch. */
  lemma {:induction false} NoLongerBatch(a: seq<seq<Outgoing>>, events: seq<Outgoing>, x: seq<Outgoing>,
                                         y: seq<Outgoing>)
    requires GoodBatches(a) && a != [] && Flatten(a) == events && x == a[|a| - 1] && |x| < |y| <= |events|
    requires forall j :: 0 <= j < |y| ==> y[j] == events[|events| - |y| + j]
    ensures exists j :: 0 <= j < |y| && y[j].isolated
  {
    var rest := a[..|a| - 1];
    assert events == Flatten(rest) + x;
    assert rest != [];
    var z := rest[|rest| - 1];
    assert z == a[|a| - 2] && GoodBatch(z) && GoodBatch(x) && !Mergeable(z, x);
    LastEvents(rest, z, |z| - 1);
    assert y[|y| - |x| - 1] == z[|z| - 1];
    if k :| 0 <= k < |x| && x[k].isolated {
      assert y[|y| - |x| + k] == x[k];
    } else {
      assert !Mergeable(z, x);
      assert |z| == 1;
    }
  }

  /** These properties leave no choice: any batching with them is the one the loop makes. */
  lemma {:induction false} BatchingUnique(a: seq<seq<Outgoing>>, b: seq<seq<Outgoing>>)
    requires GoodBatches(a) && GoodBatches(b) && Flatten(a) == Flatten(b)
    ensures a == b
  {
    FlattenLonger(a);
    FlattenLonger(b);
    if a != [] && b != [] {
      if |a[|a| - 1]| <= |b[|b| - 1]| { LastBatchUnique(a, b, Flatten(a)); } else { LastBatchUnique(b, a, Flatten(a)); }
      var restA, restB := a[..|a| - 1], b[..|b| - 1];
      assert Flatten(restA) == Flatten(a)[..|Flatten(a)| - |a[|a| - 1]|];
      assert Flatten(restB) == Flatten(b)[..|Flatten(b)| - |b[|b| - 1]|];
      BatchingUnique(restA, restB);
      assert a == restA + [a[|a| - 1]] && b == restB + [b[|b| - 1]];
    }
  }
}
