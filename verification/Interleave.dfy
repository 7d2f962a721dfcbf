/**
 Mixing pools by a pattern of pool names, without repeating a key.  The code pops queues in place; the
 simple form it is proved against has no queues at all: it always takes the first item of a pool whose
 key is not in the output yet.
 */
module Interleave {
  import opened Sets
  import opened Wrappers

  type Pools<T> = map<string, seq<T>>

  function Pool<T>(pools: Pools<T>, name: string): seq<T> {
    if name in pools then pools[name] else []
  }

  ghost function Keys<T, K>(key: T -> K, items: seq<T>): set<K> {
    set x | x in items :: key(x)
  }

  /** The first item whose key has not been seen. */
  ghost function FirstUnseen<T, K>(key: T -> K, pool: seq<T>, seen: set<K>): Option<T> {
    if pool == [] then None
    else if key(pool[0]) in seen then FirstUnseen(key, pool[1..], seen)
    else Some(pool[0])
  }

  function AddTo<T>(out: seq<T>, item: Option<T>): seq<T> {
    if item.Some? then out + [item.value] else out
  }

  // ----- the simple form -----

  ghost function Next<T, K>(pools: Pools<T>, key: T -> K, out: seq<T>, name: string): Option<T> {
    FirstUnseen(key, Pool(pools, name), Keys(key, out))
  }

  /** The first pool of the pattern that still has something. */
  ghost function Fallback<T, K>(pools: Pools<T>, key: T -> K, out: seq<T>, names: seq<string>): Option<T> {
    if names == [] then None
    else if Next(pools, key, out, names[0]).Some? then Next(pools, key, out, names[0])
    else Fallback(pools, key, out, names[1..])
  }

  ghost function SlotItem<T, K>(pools: Pools<T>, key: T -> K, pattern: seq<string>, out: seq<T>, name: string): Option<T> {
    if Next(pools, key, out, name).Some? then Next(pools, key, out, name) else Fallback(pools, key, out, pattern)
  }

  /** The first walk over the pattern, from slot `i`: an empty pool's slot is filled from another. */
  ghost function PatternPass<T, K>(pools: Pools<T>, key: T -> K, pattern: seq<string>, limit: int, i: nat, out: seq<T>): seq<T>
    decreases |pattern| - i
  {
    if i >= |pattern| || |out| >= limit then out
    else PatternPass(pools, key, pattern, limit, i + 1, AddTo(out, SlotItem(pools, key, pattern, out, pattern[i])))
  }

  /** A later walk over the pattern: an empty pool's slot is skipped. */
  ghost function RoundPass<T, K>(pools: Pools<T>, key: T -> K, pattern: seq<string>, limit: int, i: nat, out: seq<T>): (r: seq<T>)
    ensures out <= r
    decreases |pattern| - i
  {
    if i >= |pattern| || |out| >= limit then out
    else RoundPass(pools, key, pattern, limit, i + 1, AddTo(out, Next(pools, key, out, pattern[i])))
  }

  ghost function Rounds<T, K>(pools: Pools<T>, key: T -> K, pattern: seq<string>, limit: int, out: seq<T>): seq<T>
    decreases limit - |out|
  {
    if |out| >= limit then out
    else
      var after := RoundPass(pools, key, pattern, limit, 0, out);
      if |after| == |out| then out else Rounds(pools, key, pattern, limit, after)
  }

  ghost function Interleaved<T, K>(pools: Pools<T>, key: T -> K, pattern: seq<string>, limit: int): seq<T> {
    Rounds(pools, key, pattern, limit, PatternPass(pools, key, pattern, limit, 0, []))
  }

  // ----- the code -----

  /** `queue` is what is left of `pool` after a start whose keys have all been seen. */
  ghost predicate Behind<T, K>(key: T -> K, pool: seq<T>, queue: seq<T>, seen: set<K>) {
    |queue| <= |pool| && queue == pool[|pool| - |queue|..]
    && forall j :: 0 <= j < |pool| - |queue| ==> key(pool[j]) in seen
  }

  lemma {:induction false} SeenStartIsSkipped<T, K>(key: T -> K, pool: seq<T>, k: nat, seen: set<K>)
    requires k <= |pool| && forall j :: 0 <= j < k ==> key(pool[j]) in seen
    ensures FirstUnseen(key, pool, seen) == FirstUnseen(key, pool[k..], seen)
  {
    if k > 0 {
      assert forall j :: 0 <= j < k - 1 ==> key(pool[1..][j]) in seen;
      SeenStartIsSkipped(key, pool[1..], k - 1, seen);
      assert pool[1..][k - 1..] == pool[k..];
    } else {
      assert pool[0..] == pool;
    }
  }

  lemma QueueStandsForPool<T, K>(key: T -> K, pool: seq<T>, queue: seq<T>, seen: set<K>)
    requires Behind(key, pool, queue, seen)
    ensures FirstUnseen(key, pool, seen) == FirstUnseen(key, queue, seen)
  {
    SeenStartIsSkipped(key, pool, |pool| - |queue|, seen);
  }

  lemma NothingUnseen<T, K>(key: T -> K, seen: set<K>)
    ensures FirstUnseen(key, [], seen) == None
  {
  }

  lemma PopStaysBehind<T, K>(key: T -> K, pool: seq<T>, queue: seq<T>, seen: set<K>)
    requires Behind(key, pool, queue, seen) && queue != []
    ensures Behind(key, pool, queue[1..], seen + {key(queue[0])})
    ensures FirstUnseen(key, queue, seen)
            == if key(queue[0]) in seen then FirstUnseen(key, queue[1..], seen) else Some(queue[0])
    ensures key(queue[0]) in seen ==> seen + {key(queue[0])} == seen
  {
    assert queue[0] == pool[|pool| - |queue|];
  }

  lemma SeenGrows<T, K>(key: T -> K, pool: seq<T>, queue: seq<T>, seen: set<K>, more: K)
    requires Behind(key, pool, queue, seen)
    ensures Behind(key, pool, queue, seen + {more})
  {
  }

  class Interleaver<T, K(==)> {
    var queues: map<string, seq<T>>
    var seen: set<K>
    const key: T -> K

    constructor (pools: Pools<T>, key: T -> K)
      ensures this.key == key && seen == {} && Tracks(pools)
    {
      queues, seen := pools, {};
      this.key := key;
    }

    ghost predicate Tracks(pools: Pools<T>)
      reads this
    {
      queues.Keys == pools.Keys && forall name :: name in pools ==> Behind(key, pools[name], queues[name], seen)
    }

    method Take(ghost pools: Pools<T>, name: string) returns (item: Option<T>)
      requires Tracks(pools)
      modifies this
      ensures Tracks(pools)
      ensures item == FirstUnseen(key, Pool(pools, name), old(seen))
      ensures seen == old(seen) + if item.Some? then {key(item.value)} else {}
    {
      hide FirstUnseen, Behind;
      if name !in queues {
        NothingUnseen(key, seen);
        return None;
      }
      ghost var pool := pools[name];
      QueueStandsForPool(key, pool, queues[name], seen);
      while queues[name] != []
        invariant Tracks(pools) && seen == old(seen)
        invariant FirstUnseen(key, pool, seen) == FirstUnseen(key, queues[name], seen)
        decreases |queues[name]|
      {
        var front := queues[name][0];
        PopStaysBehind(key, pool, queues[name], seen);
        queues := queues[name := queues[name][1..]];
        if key(front) !in seen {
          forall n | n in pools && n != name ensures Behind(key, pools[n], queues[n], seen + {key(front)}) {
            SeenGrows(key, pools[n], queues[n], seen, key(front));
          }
          seen := seen + {key(front)};
          return Some(front);
        }
      }
      NothingUnseen(key, seen);
      item := None;
    }
  }

  method InterleavePools<T, K(==)>(pools: Pools<T>, pattern: seq<string>, limit: int, key: T -> K) returns (out: seq<T>)
    ensures out == Interleaved(pools, key, pattern, limit)
  {
    hide FirstUnseen, Keys, Behind;
    var taker := new Interleaver<T, K>(pools, key);
    out := [];
    NoKeysYet(key);
    var i := 0;
    while i < |pattern|
      invariant 0 <= i <= |pattern| && taker.Tracks(pools) && fresh(taker) && taker.key == key
      invariant taker.seen == Keys(key, out)
      invariant PatternPass(pools, key, pattern, limit, i, out) == PatternPass(pools, key, pattern, limit, 0, [])
    {
      if |out| >= limit {
        return;
      }
      var item := taker.Take(pools, pattern[i]);
      if item.None? {
        item := FirstAvailable(taker, pools, pattern, out);
      }
      OneMoreKey(key, out, item);
      if item.Some? {
        out := out + [item.value];
      }
      i := i + 1;
    }
    var remaining := true;
    while |out| < limit && remaining
      invariant taker.Tracks(pools) && fresh(taker) && taker.key == key && taker.seen == Keys(key, out)
      invariant (if remaining then Rounds(pools, key, pattern, limit, out) else out) == Interleaved(pools, key, pattern, limit)
      decreases limit - |out|, remaining
    {
      var before := out;
      out := WalkPattern(taker, pools, pattern, limit, out);
      remaining := |out| > |before|;
    }
  }

  /** The inner `for fallback in pattern` loop. */
  method FirstAvailable<T, K(==)>(taker: Interleaver<T, K>, ghost pools: Pools<T>, pattern: seq<string>, ghost out: seq<T>)
    returns (item: Option<T>)
    requires taker.Tracks(pools) && taker.seen == Keys(taker.key, out)
    modifies taker
    ensures taker.Tracks(pools) && item == Fallback(pools, taker.key, out, pattern)
    ensures taker.seen == Keys(taker.key, out) + if item.Some? then {taker.key(item.value)} else {}
  {
    hide FirstUnseen, Keys;
    item := None;
    var j := 0;
    assert pattern[0..] == pattern;
    while j < |pattern|
      invariant 0 <= j <= |pattern| && taker.Tracks(pools) && taker.seen == Keys(taker.key, out) && item == None
      invariant Fallback(pools, taker.key, out, pattern[j..]) == Fallback(pools, taker.key, out, pattern)
    {
      assert pattern[j..][1..] == pattern[j + 1..];
      item := taker.Take(pools, pattern[j]);
      if item.Some? {
        return;
      }
      j := j + 1;
    }
  }

  /** One later walk over the pattern. */
  method WalkPattern<T, K(==)>(taker: Interleaver<T, K>, ghost pools: Pools<T>, pattern: seq<string>, limit: int, before: seq<T>)
    returns (out: seq<T>)
    requires taker.Tracks(pools) && taker.seen == Keys(taker.key, before)
    modifies taker
    ensures taker.Tracks(pools) && taker.seen == Keys(taker.key, out)
    ensures out == RoundPass(pools, taker.key, pattern, limit, 0, before)
  {
    hide FirstUnseen, Keys, Behind;
    out := before;
    var i := 0;
    while i < |pattern|
      invariant 0 <= i <= |pattern| && taker.Tracks(pools) && taker.seen == Keys(taker.key, out)
      invariant RoundPass(pools, taker.key, pattern, limit, i, out) == RoundPass(pools, taker.key, pattern, limit, 0, before)
    {
      if |out| >= limit {
        break;
      }
      var item := taker.Take(pools, pattern[i]);
      OneMoreKey(taker.key, out, item);
      if item.Some? {
        out := out + [item.value];
      }
      i := i + 1;
    }
  }

  lemma NoKeysYet<T, K>(key: T -> K)
    ensures Keys(key, []) == {}
  {
  }

  lemma OneMoreKey<T, K>(key: T -> K, out: seq<T>, item: Option<T>)
    ensures Keys(key, AddTo(out, item)) == Keys(key, out) + if item.Some? then {key(item.value)} else {}
  {
  }

  // ----- what the output is -----

  lemma {:induction false} UnseenIsFound<T, K>(key: T -> K, pool: seq<T>, seen: set<K>)
    ensures var item := FirstUnseen(key, pool, seen);
            && (item.Some? ==> item.value in pool && key(item.value) !in seen)
            && (item.None? <==> Keys(key, pool) <= seen)
  {
    if pool != [] {
      UnseenIsFound(key, pool[1..], seen);
      assert pool == [pool[0]] + pool[1..];
      assert Keys(key, pool) == {key(pool[0])} + Keys(key, pool[1..]);
    }
  }

  /** The keys on offer: those of the pools the pattern names. */
  ghost function Offered<T, K>(pools: Pools<T>, key: T -> K, names: seq<string>): set<K> {
    if names == [] then {} else Keys(key, Pool(pools, names[0])) + Offered(pools, key, names[1..])
  }

  lemma {:induction false} NamedPoolsAreOffered<T, K>(pools: Pools<T>, key: T -> K, names: seq<string>, i: nat)
    requires i < |names|
    ensures Keys(key, Pool(pools, names[i])) <= Offered(pools, key, names)
  {
    if i > 0 { NamedPoolsAreOffered(pools, key, names[1..], i - 1); }
  }

  lemma {:induction false} FallbackIsExhaustive<T, K>(pools: Pools<T>, key: T -> K, out: seq<T>, names: seq<string>)
    ensures var item := Fallback(pools, key, out, names);
            && (item.Some? ==> key(item.value) !in Keys(key, out)
                               && exists i :: 0 <= i < |names| && Next(pools, key, out, names[i]) == item)
            && (item.None? <==> Offered(pools, key, names) <= Keys(key, out))
  {
    hide FirstUnseen, Keys;
    if names != [] {
      UnseenIsFound(key, Pool(pools, names[0]), Keys(key, out));
      FallbackIsExhaustive(pools, key, out, names[1..]);
      var item := Fallback(pools, key, out, names);
      if Next(pools, key, out, names[0]).None? && item.Some? {
        var i :| 0 <= i < |names[1..]| && Next(pools, key, out, names[1..][i]) == item;
        assert names[i + 1] == names[1..][i];
      }
    }
  }

  /** Position `i` of the output holds the first item of some named pool that was new at that point. */
  ghost predicate Earned<T, K>(pools: Pools<T>, key: T -> K, pattern: seq<string>, out: seq<T>, i: nat)
    requires i < |out|
  {
    exists j :: 0 <= j < |pattern| && Next(pools, key, out[..i], pattern[j]) == Some(out[i])
  }

  /** Every item was earned, no key repeats, and only offered keys occur. */
  ghost predicate Fair<T, K>(pools: Pools<T>, key: T -> K, pattern: seq<string>, out: seq<T>) {
    && (forall i | 0 <= i < |out| :: Earned(pools, key, pattern, out, i))
    && |Keys(key, out)| == |out| && Keys(key, out) <= Offered(pools, key, pattern)
  }

  lemma FairStep<T, K>(pools: Pools<T>, key: T -> K, pattern: seq<string>, out: seq<T>, j: nat, item: Option<T>)
    requires Fair(pools, key, pattern, out) && j < |pattern|
    requires item.Some? ==> Next(pools, key, out, pattern[j]) == item
    ensures Fair(pools, key, pattern, AddTo(out, item))
  {
    hide FirstUnseen, Keys, Offered;
    if item.Some? {
      var more := out + [item.value];
      UnseenIsFound(key, Pool(pools, pattern[j]), Keys(key, out));
      ItsKeyIsAmong(key, Pool(pools, pattern[j]), item.value);
      NamedPoolsAreOffered(pools, key, pattern, j);
      OneMoreKey(key, out, item);
      forall i | 0 <= i < |more|
        ensures Earned(pools, key, pattern, more, i)
      {
        if i < |out| {
          assert more[..i] == out[..i] && Earned(pools, key, pattern, out, i);
        } else {
          assert more[..i] == out;
        }
      }
    }
  }

  lemma ItsKeyIsAmong<T, K>(key: T -> K, pool: seq<T>, item: T)
    requires item in pool
    ensures key(item) in Keys(key, pool)
  {
  }

  lemma SlotIsFair<T, K>(pools: Pools<T>, key: T -> K, pattern: seq<string>, out: seq<T>, i: nat)
    requires Fair(pools, key, pattern, out) && i < |pattern|
    ensures Fair(pools, key, pattern, AddTo(out, SlotItem(pools, key, pattern, out, pattern[i])))
  {
    hide FirstUnseen, Keys, Offered, Fair, Fallback;
    var item := SlotItem(pools, key, pattern, out, pattern[i]);
    if Next(pools, key, out, pattern[i]).Some? {
      FairStep(pools, key, pattern, out, i, item);
    } else {
      FallbackIsExhaustive(pools, key, out, pattern);
      if item.Some? {
        var j :| 0 <= j < |pattern| && Next(pools, key, out, pattern[j]) == item;
        FairStep(pools, key, pattern, out, j, item);
      } else {
        FairStep(pools, key, pattern, out, i, item);
      }
    }
  }

  lemma {:induction false} PatternPassIsFair<T, K>(pools: Pools<T>, key: T -> K, pattern: seq<string>, limit: int, i: nat,
                                                   out: seq<T>)
    requires Fair(pools, key, pattern, out) && (out == [] || |out| <= limit)
    ensures var r := PatternPass(pools, key, pattern, limit, i, out);
            Fair(pools, key, pattern, r) && (r == [] || |r| <= limit) && out <= r
    decreases |pattern| - i
  {
    hide Fair, SlotItem;
    if i < |pattern| && |out| < limit {
      SlotIsFair(pools, key, pattern, out, i);
      PatternPassIsFair(pools, key, pattern, limit, i + 1, AddTo(out, SlotItem(pools, key, pattern, out, pattern[i])));
    }
  }

  lemma {:induction false} RoundPassIsFair<T, K>(pools: Pools<T>, key: T -> K, pattern: seq<string>, limit: int, i: nat,
                                                 out: seq<T>)
    requires Fair(pools, key, pattern, out) && (out == [] || |out| <= limit)
    ensures var r := RoundPass(pools, key, pattern, limit, i, out);
            && Fair(pools, key, pattern, r) && (r == [] || |r| <= limit)
            && (r == out && |out| < limit ==> Offered(pools, key, pattern[Low(i, |pattern|)..]) <= Keys(key, out))
    decreases |pattern| - i
  {
    hide Fair, FirstUnseen, Keys;
    if i < |pattern| && |out| < limit {
      var item := Next(pools, key, out, pattern[i]);
      FairStep(pools, key, pattern, out, i, item);
      UnseenIsFound(key, Pool(pools, pattern[i]), Keys(key, out));
      RoundPassIsFair(pools, key, pattern, limit, i + 1, AddTo(out, item));
      assert pattern[i..][1..] == pattern[i + 1..];
    }
  }

  function Low(a: nat, b: nat): nat {
    if a < b then a else b
  }

  lemma {:induction false} RoundsAreFair<T, K>(pools: Pools<T>, key: T -> K, pattern: seq<string>, limit: int, out: seq<T>)
    requires Fair(pools, key, pattern, out) && (out == [] || |out| <= limit)
    ensures var r := Rounds(pools, key, pattern, limit, out);
            && Fair(pools, key, pattern, r) && (r == [] || |r| <= limit)
            && (|r| >= limit || Offered(pools, key, pattern) <= Keys(key, r))
            && out <= r
    decreases limit - |out|
  {
    hide Fair, RoundPass, Offered, Keys;
    if |out| < limit {
      var after := RoundPass(pools, key, pattern, limit, 0, out);
      RoundPassIsFair(pools, key, pattern, limit, 0, out);
      assert pattern[0..] == pattern;
      if |after| != |out| { RoundsAreFair(pools, key, pattern, limit, after); }
    }
  }

  /**
   The output has exactly as many items as the limit or the distinct keys on offer allow, its keys are
   distinct, and each item is the first of some named pool that was new when it was taken; so items from
   one pool keep that pool's order.
   */
  lemma InterleavingIsComplete<T, K>(pools: Pools<T>, key: T -> K, pattern: seq<string>, limit: int)
    requires limit >= 0
    ensures var out := Interleaved(pools, key, pattern, limit);
            && Fair(pools, key, pattern, out)
            && |out| == Low(limit, |Offered(pools, key, pattern)|)
  {
    NoKeysYet(key);
    assert Fair(pools, key, pattern, []);
    hide Fair, PatternPass, Rounds, Offered, Keys;
    PatternPassIsFair(pools, key, pattern, limit, 0, []);
    var first := PatternPass(pools, key, pattern, limit, 0, []);
    RoundsAreFair(pools, key, pattern, limit, first);
    var out := Rounds(pools, key, pattern, limit, first);
    FairSize(pools, key, pattern, out);
    if |out| < limit {
      SubsetSize(Offered(pools, key, pattern), Keys(key, out));
    }
  }

  /** Two items taken from one pool come out in that pool's order. */
  lemma PoolOrderIsKept<T, K>(pools: Pools<T>, key: T -> K, out: seq<T>, name: string, i: nat, j: nat)
    requires i < j < |out|
    requires Next(pools, key, out[..i], name) == Some(out[i]) && Next(pools, key, out[..j], name) == Some(out[j])
    ensures exists a, b :: 0 <= a < b < |Pool(pools, name)| && Pool(pools, name)[a] == out[i] && Pool(pools, name)[b] == out[j]
  {
    var pool := Pool(pools, name);
    var a := FirstUnseenAt(key, pool, Keys(key, out[..i]), out[i]);
    var b := FirstUnseenAt(key, pool, Keys(key, out[..j]), out[j]);
    assert out[i] in out[..j];
    forall k | 0 <= k < a ensures key(pool[k]) in Keys(key, out[..j]) {
      var x :| x in out[..i] && key(x) == key(pool[k]);
      assert x in out[..j];
    }
    assert pool[a] == out[i] && pool[b] == out[j];
  }

  lemma {:induction false} FirstUnseenAt<T, K>(key: T -> K, pool: seq<T>, seen: set<K>, item: T) returns (at: nat)
    requires FirstUnseen(key, pool, seen) == Some(item)
    ensures at < |pool| && pool[at] == item && key(item) !in seen && forall k :: 0 <= k < at ==> key(pool[k]) in seen
  {
    if key(pool[0]) in seen {
      var rest := FirstUnseenAt(key, pool[1..], seen, item);
      at := rest + 1;
      assert forall k :: 0 < k < at ==> pool[k] == pool[1..][k - 1];
    } else {
      at := 0;
    }
  }

  lemma FairSize<T, K>(pools: Pools<T>, key: T -> K, pattern: seq<string>, out: seq<T>)
    requires Fair(pools, key, pattern, out)
    ensures |Keys(key, out)| == |out| <= |Offered(pools, key, pattern)|
  {
    SubsetSize(Keys(key, out), Offered(pools, key, pattern));
  }

  // ----- smaller limits -----

  lemma {:induction false} PatternPassPrefix<T, K>(pools: Pools<T>, key: T -> K, pattern: seq<string>, small: int, large: int,
                                                   i: nat, out: seq<T>)
    requires small <= large
    ensures var s := PatternPass(pools, key, pattern, small, i, out);
            var l := PatternPass(pools, key, pattern, large, i, out);
            out <= s <= l && (s == l || |s| >= small)
    decreases |pattern| - i
  {
    hide SlotItem;
    if i < |pattern| && |out| < large {
      var next := AddTo(out, SlotItem(pools, key, pattern, out, pattern[i]));
      PatternPassPrefix(pools, key, pattern, small, large, i + 1, next);
    }
  }

  lemma {:induction false} RoundPassPrefix<T, K>(pools: Pools<T>, key: T -> K, pattern: seq<string>, small: int, large: int,
                                                 i: nat, out: seq<T>)
    requires small <= large
    ensures var s := RoundPass(pools, key, pattern, small, i, out);
            var l := RoundPass(pools, key, pattern, large, i, out);
            out <= s <= l && (s == l || |s| >= small)
    decreases |pattern| - i
  {
    hide Next;
    if i < |pattern| && |out| < large {
      RoundPassPrefix(pools, key, pattern, small, large, i + 1, AddTo(out, Next(pools, key, out, pattern[i])));
    }
  }

  lemma {:induction false} RoundsGrow<T, K>(pools: Pools<T>, key: T -> K, pattern: seq<string>, limit: int, out: seq<T>)
    ensures out <= Rounds(pools, key, pattern, limit, out)
    decreases limit - |out|
  {
    hide RoundPass;
    if |out| < limit {
      var after := RoundPass(pools, key, pattern, limit, 0, out);
      if |after| != |out| { RoundsGrow(pools, key, pattern, limit, after); }
    }
  }

  lemma {:induction false} RoundsPrefix<T, K>(pools: Pools<T>, key: T -> K, pattern: seq<string>, small: int, large: int,
                                              out: seq<T>)
    requires small <= large
    ensures Rounds(pools, key, pattern, small, out) <= Rounds(pools, key, pattern, large, out)
    decreases large - |out|
  {
    hide RoundPass;
    RoundsGrow(pools, key, pattern, large, out);
    if |out| < small {
      RoundPassPrefix(pools, key, pattern, small, large, 0, out);
      var s := RoundPass(pools, key, pattern, small, 0, out);
      var l := RoundPass(pools, key, pattern, large, 0, out);
      if |l| != |out| {
        RoundsGrow(pools, key, pattern, large, l);
        if s == l { RoundsPrefix(pools, key, pattern, small, large, l); }
      }
    }
  }

  /** A smaller limit yields a prefix. */
  lemma SmallerLimitIsPrefix<T, K>(pools: Pools<T>, key: T -> K, pattern: seq<string>, small: int, large: int)
    requires small <= large
    ensures Interleaved(pools, key, pattern, small) <= Interleaved(pools, key, pattern, large)
  {
    hide PatternPass, Rounds;
    PatternPassPrefix(pools, key, pattern, small, large, 0, []);
    var s := PatternPass(pools, key, pattern, small, 0, []);
    var l := PatternPass(pools, key, pattern, large, 0, []);
    RoundsGrow(pools, key, pattern, large, l);
    if s == l {
      RoundsPrefix(pools, key, pattern, small, large, l);
    } else {
      RoundsStop(pools, key, pattern, small, s);
    }
  }

  lemma RoundsStop<T, K>(pools: Pools<T>, key: T -> K, pattern: seq<string>, limit: int, out: seq<T>)
    requires |out| >= limit
    ensures Rounds(pools, key, pattern, limit, out) == out
  {
  }

  // ----- positions -----

  /** The earliest slot of the pattern whose pool has something new gives `item`. */
  ghost predicate FirstToGive<T, K>(pools: Pools<T>, key: T -> K, pattern: seq<string>, out: seq<T>, j: int, item: T) {
    && 0 <= j < |pattern| && Next(pools, key, out, pattern[j]) == Some(item)
    && forall k | 0 <= k < j :: Next(pools, key, out, pattern[k]) == None
  }

  lemma {:induction false} FallbackIsFirst<T, K>(pools: Pools<T>, key: T -> K, out: seq<T>, names: seq<string>)
    ensures var item := Fallback(pools, key, out, names);
            if item.Some? then exists j :: FirstToGive(pools, key, names, out, j, item.value)
            else forall k | 0 <= k < |names| :: Next(pools, key, out, names[k]) == None
  {
    hide Next;
    if names != [] {
      FallbackIsFirst(pools, key, out, names[1..]);
      assert forall k | 0 < k < |names| :: names[k] == names[1..][k - 1];
      var item := Fallback(pools, key, out, names);
      if Next(pools, key, out, names[0]).Some? {
        assert FirstToGive(pools, key, names, out, 0, item.value);
      } else if item.Some? {
        var j :| FirstToGive(pools, key, names[1..], out, j, item.value);
        assert FirstToGive(pools, key, names, out, j + 1, item.value);
      }
    }
  }

  /** Slot `i` of the pattern got its own pool's item, or, if that pool had nothing new, what the earliest slot could give. */
  ghost predicate InItsPlace<T, K>(pools: Pools<T>, key: T -> K, pattern: seq<string>, out: seq<T>, i: nat)
    requires i < |pattern| && i < |out|
  {
    var own := Next(pools, key, out[..i], pattern[i]);
    || own == Some(out[i])
    || (own.None? && Keys(key, Pool(pools, pattern[i])) <= Keys(key, out[..i])
        && exists j :: FirstToGive(pools, key, pattern, out[..i], j, out[i]))
  }

  lemma {:induction false} PatternPassKeepsPlaces<T, K>(pools: Pools<T>, key: T -> K, pattern: seq<string>, limit: int,
                                                        i: nat, out: seq<T>, p: nat)
    requires i <= |pattern| && (|out| == i || (|out| < i && Offered(pools, key, pattern) <= Keys(key, out)))
    requires p < i && p < |out| ==> InItsPlace(pools, key, pattern, out, p)
    requires p < |pattern|
    ensures var r := PatternPass(pools, key, pattern, limit, i, out);
            && (p < |r| ==> InItsPlace(pools, key, pattern, r, p))
            && (|r| < |pattern| && |r| < limit ==> Offered(pools, key, pattern) <= Keys(key, r))
    decreases |pattern| - i
  {
    hide FirstUnseen, Keys, Offered, Next, FirstToGive;
    if i < |pattern| && |out| < limit {
      var item := SlotItem(pools, key, pattern, out, pattern[i]);
      var next := AddTo(out, item);
      FallbackIsExhaustive(pools, key, out, pattern);
      FallbackIsFirst(pools, key, out, pattern);
      OwnPoolFirst(pools, key, pattern, out, i);
      if item.Some? {
        assert next[..|out|] == out;
        if p < |out| { assert next[..p] == out[..p]; }
      }
      hide InItsPlace, SlotItem;
      PatternPassKeepsPlaces(pools, key, pattern, limit, i + 1, next, p);
    }
  }

  lemma OwnPoolFirst<T, K>(pools: Pools<T>, key: T -> K, pattern: seq<string>, out: seq<T>, i: nat)
    requires i < |pattern|
    ensures var own := Next(pools, key, out, pattern[i]);
            && (own.None? ==> Keys(key, Pool(pools, pattern[i])) <= Keys(key, out))
            && (own.Some? ==> !(Offered(pools, key, pattern) <= Keys(key, out)))
  {
    hide FirstUnseen, Keys, Offered;
    UnseenIsFound(key, Pool(pools, pattern[i]), Keys(key, out));
    NamedPoolsAreOffered(pools, key, pattern, i);
    var own := Next(pools, key, out, pattern[i]);
    if own.Some? { ItsKeyIsAmong(key, Pool(pools, pattern[i]), own.value); }
  }

  lemma PlaceSurvives<T, K>(pools: Pools<T>, key: T -> K, pattern: seq<string>, out: seq<T>, more: seq<T>, i: nat)
    requires i < |pattern| && i < |out| && out <= more && InItsPlace(pools, key, pattern, out, i)
    ensures InItsPlace(pools, key, pattern, more, i)
  {
    assert more[..i] == out[..i];
  }

  /** Within the first walk, output position `i` belongs to slot `i`: its own pool's next item if there is one. */
  lemma PositionsFollowThePattern<T, K>(pools: Pools<T>, key: T -> K, pattern: seq<string>, limit: int, i: nat)
    requires i < |pattern| && i < |Interleaved(pools, key, pattern, limit)|
    ensures InItsPlace(pools, key, pattern, Interleaved(pools, key, pattern, limit), i)
  {
    NoKeysYet(key);
    var first := PatternPass(pools, key, pattern, limit, 0, []);
    var out := Interleaved(pools, key, pattern, limit);
    PatternPassKeepsPlaces(pools, key, pattern, limit, 0, [], i);
    assert Fair(pools, key, pattern, []);
    PatternPassIsFair(pools, key, pattern, limit, 0, []);
    hide PatternPass, Fair, Rounds, InItsPlace, Offered, Keys;
    RoundsAreFair(pools, key, pattern, limit, first);
    FairSize(pools, key, pattern, out);
    FairSize(pools, key, pattern, first);
    if i < |first| {
      PlaceSurvives(pools, key, pattern, first, out, i);
    } else if |first| < limit {
      SubsetSize(Offered(pools, key, pattern), Keys(key, first));
    } else {
      RoundsStop(pools, key, pattern, limit, first);
    }
  }

  // ----- later walks -----

  /** Slot `s` has its turn when `n` items are out: its own pool's next item if there is one and room for it. */
  ghost predicate TakesTurn<T, K>(pools: Pools<T>, key: T -> K, pattern: seq<string>, limit: int, out: seq<T>, s: nat, n: nat,
                                  after: nat)
    requires s < |pattern|
  {
    n <= |out|
    && var item := Next(pools, key, out[..n], pattern[s]);
       if n >= limit || item.None? then after == n else after == n + 1 <= |out| && out[n] == item.value
  }

  /** One later walk: every slot from `i` on has its turn in the order of the pattern; `sizes` counts what was out by then. */
  ghost predicate Walked<T, K>(pools: Pools<T>, key: T -> K, pattern: seq<string>, limit: int, before: seq<T>, out: seq<T>,
                               i: nat, sizes: seq<nat>)
    requires i <= |pattern|
  {
    && before <= out && |sizes| == |pattern| - i + 1 && sizes[0] == |before| && sizes[|sizes| - 1] == |out|
    && forall d: nat | d < |pattern| - i :: TakesTurn(pools, key, pattern, limit, out, i + d, sizes[d], sizes[d + 1])
  }

  lemma TurnFirst<T, K>(pools: Pools<T>, key: T -> K, pattern: seq<string>, limit: int, before: seq<T>, next: seq<T>,
                        out: seq<T>, i: nat, rest: seq<nat>)
    requires i < |pattern| && before <= next && Walked(pools, key, pattern, limit, next, out, i + 1, rest)
    requires TakesTurn(pools, key, pattern, limit, out, i, |before|, |next|)
    ensures Walked(pools, key, pattern, limit, before, out, i, [|before|] + rest)
  {
    hide TakesTurn;
    var sizes := [|before|] + rest;
    forall d: nat | d < |pattern| - i
      ensures TakesTurn(pools, key, pattern, limit, out, i + d, sizes[d], sizes[d + 1])
    {
      if d > 0 { assert TakesTurn(pools, key, pattern, limit, out, (i + 1) + (d - 1), rest[d - 1], rest[d]); }
    }
  }

  lemma TurnAt<T, K>(pools: Pools<T>, key: T -> K, pattern: seq<string>, limit: int, before: seq<T>, out: seq<T>, i: nat)
    requires i < |pattern|
    ensures var next := if |before| >= limit then before else AddTo(before, Next(pools, key, before, pattern[i]));
            before <= next && (next <= out ==> TakesTurn(pools, key, pattern, limit, out, i, |before|, |next|))
  {
    hide Next;
    var next := if |before| >= limit then before else AddTo(before, Next(pools, key, before, pattern[i]));
    if next <= out {
      assert out[..|before|] == before;
    }
  }

  lemma {:induction false} WalkFollowsThePattern<T, K>(pools: Pools<T>, key: T -> K, pattern: seq<string>, limit: int, i: nat,
                                                       before: seq<T>) returns (sizes: seq<nat>)
    requires i <= |pattern|
    ensures Walked(pools, key, pattern, limit, before, RoundPass(pools, key, pattern, limit, i, before), i, sizes)
    decreases |pattern| - i
  {
    hide Next, TakesTurn;
    var out := RoundPass(pools, key, pattern, limit, i, before);
    if i == |pattern| {
      sizes := [|before|];
    } else {
      var next := if |before| >= limit then before else AddTo(before, Next(pools, key, before, pattern[i]));
      assert out == RoundPass(pools, key, pattern, limit, i + 1, next);
      TurnAt(pools, key, pattern, limit, before, out, i);
      hide RoundPass, AddTo, Walked;
      var rest := WalkFollowsThePattern(pools, key, pattern, limit, i + 1, next);
      TurnFirst(pools, key, pattern, limit, before, next, out, i, rest);
      sizes := [|before|] + rest;
    }
  }
}
