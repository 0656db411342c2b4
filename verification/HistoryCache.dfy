/** The history cache: a bounded LRU over an insertion-ordered map, with lazy expiry
    (src/chat/history-cache.ts).
 */
module HistoryCaches {
  import opened Options

  datatype Entry<V> = Entry(key: string, value: V, at: int)

  // ---- The insertion-ordered map -------------------------------------------------------------

  function Keys<V>(entries: seq<Entry<V>>): set<string> {
    if entries == [] then {} else {entries[0].key} + Keys(entries[1..])
  }

  ghost predicate Distinct<V>(entries: seq<Entry<V>>) {
    entries == [] || (entries[0].key !in Keys(entries[1..]) && Distinct(entries[1..]))
  }

  function Find<V>(entries: seq<Entry<V>>, key: string): Option<Entry<V>> {
    if entries == [] then None
    else if entries[0].key == key then Some(entries[0])
    else Find(entries[1..], key)
  }

  /** The entries whose key is in `keys`, in order. */
  function Restrict<V>(entries: seq<Entry<V>>, keys: set<string>): seq<Entry<V>> {
    if entries == [] then []
    else (if entries[0].key in keys then [entries[0]] else []) + Restrict(entries[1..], keys)
  }

  function Without<V>(entries: seq<Entry<V>>, key: string): seq<Entry<V>> {
    if entries == [] then []
    else (if entries[0].key == key then [] else [entries[0]]) + Without(entries[1..], key)
  }

  /** What eviction leaves: the last `max` entries. */
  function Last<V>(entries: seq<Entry<V>>, max: nat): seq<Entry<V>>
    decreases |entries|
  {
    if |entries| > max then Last(entries[1..], max) else entries
  }

  lemma {:induction false} FindIsIn<V>(entries: seq<Entry<V>>, key: string)
    ensures Find(entries, key).Some? <==> key in Keys(entries)
    ensures Find(entries, key).Some? ==> Find(entries, key).value.key == key
  {
    if entries != [] && entries[0].key != key {
      FindIsIn(entries[1..], key);
    }
  }

  lemma {:induction false} Cons<V>(e: Entry<V>, rest: seq<Entry<V>>)
    ensures ([e] + rest)[1..] == rest
  {
  }

  lemma {:induction false} Snoc<V>(entries: seq<Entry<V>>, e: Entry<V>)
    ensures Keys(entries + [e]) == Keys(entries) + {e.key}
    ensures Distinct(entries + [e]) <==> Distinct(entries) && e.key !in Keys(entries)
  {
    if entries == [] {
      assert [] + [e] == [e] && [e][1..] == [];
    } else {
      assert (entries + [e])[1..] == entries[1..] + [e];
      Snoc(entries[1..], e);
    }
  }

  lemma {:induction false} WithoutIs<V>(entries: seq<Entry<V>>, key: string)
    ensures Keys(Without(entries, key)) == Keys(entries) - {key}
    ensures key !in Keys(entries) ==> Without(entries, key) == entries
    ensures Distinct(entries) ==>
              && Distinct(Without(entries, key))
              && |Without(entries, key)| == |entries| - if key in Keys(entries) then 1 else 0
  {
    if entries != [] {
      var first, rest := entries[0], entries[1..];
      WithoutIs(rest, key);
      assert Without(entries, key) == if first.key == key then Without(rest, key) else [first] + Without(rest, key);
      Cons(first, Without(rest, key));
    }
  }

  lemma {:induction false} LastIs<V>(entries: seq<Entry<V>>, max: nat)
    requires Distinct(entries)
    ensures Distinct(Last(entries, max)) && Keys(Last(entries, max)) <= Keys(entries)
    ensures |Last(entries, max)| == if |entries| > max then max else |entries|
    decreases |entries|
  {
    if |entries| > max {
      LastIs(entries[1..], max);
    }
  }

  // ---- The operations ------------------------------------------------------------------------

  datatype Op<V> = Get(key: string, now: int) | Set(key: string, value: V, now: int) | Delete(key: string)

  function Hit<V>(entries: seq<Entry<V>>, key: string, now: int, ttl: int): Option<V> {
    var hit := Find(entries, key);
    if hit.None? || now - hit.value.at > ttl then None else Some(hit.value.value)
  }

  function AfterGet<V>(entries: seq<Entry<V>>, key: string, now: int, ttl: int): seq<Entry<V>> {
    var hit := Find(entries, key);
    if hit.None? then entries
    else if now - hit.value.at > ttl then Without(entries, key)
    else Without(entries, key) + [hit.value]
  }

  function AfterSet<V>(entries: seq<Entry<V>>, key: string, value: V, now: int, max: nat): seq<Entry<V>> {
    Last(Without(entries, key) + [Entry(key, value, now)], max)
  }

  function After<V>(entries: seq<Entry<V>>, op: Op<V>, max: nat, ttl: int): seq<Entry<V>> {
    match op
    case Get(key, now) => AfterGet(entries, key, now, ttl)
    case Set(key, value, now) => AfterSet(entries, key, value, now, max)
    case Delete(key) => Without(entries, key)
  }

  function Run<V>(entries: seq<Entry<V>>, ops: seq<Op<V>>, max: nat, ttl: int): seq<Entry<V>>
    decreases |ops|
  {
    if ops == [] then entries else Run(After(entries, ops[0], max, ttl), ops[1..], max, ttl)
  }

  ghost predicate Bounded<V>(entries: seq<Entry<V>>, max: nat) { Distinct(entries) && |entries| <= max }

  lemma {:induction false} SizeIsKeys<V>(entries: seq<Entry<V>>)
    requires Distinct(entries)
    ensures |Keys(entries)| == |entries|
  {
    if entries != [] {
      SizeIsKeys(entries[1..]);
    }
  }

  /** The size never exceeds the cap. */
  lemma {:induction false} AfterKeepsBounds<V>(entries: seq<Entry<V>>, op: Op<V>, max: nat, ttl: int)
    requires Bounded(entries, max)
    ensures Bounded(After(entries, op, max, ttl), max)
  {
    WithoutIs(entries, op.key);
    FindIsIn(entries, op.key);
    match op
    case Get(key, now) =>
      if Find(entries, key).Some? {
        Snoc(Without(entries, key), Find(entries, key).value);
      }
    case Set(key, value, now) =>
      Snoc(Without(entries, key), Entry(key, value, now));
      LastIs(Without(entries, key) + [Entry(key, value, now)], max);
    case Delete(_) =>
  }

  lemma {:induction false} RunKeepsBounds<V>(entries: seq<Entry<V>>, ops: seq<Op<V>>, max: nat, ttl: int)
    requires Bounded(entries, max)
    ensures Bounded(Run(entries, ops, max, ttl), max)
    decreases |ops|
  {
    if ops != [] {
      AfterKeepsBounds(entries, ops[0], max, ttl);
      RunKeepsBounds(After(entries, ops[0], max, ttl), ops[1..], max, ttl);
    }
  }

  /** The cache object. */
  class HistoryCache<V> {
    var entries: seq<Entry<V>>
    const max: nat
    const ttl: int

    ghost predicate Valid()
      reads this
    {
      Bounded(entries, max)
    }

    constructor (max: nat, ttl: int)
      ensures Valid() && entries == [] && this.max == max && this.ttl == ttl
    {
      this.max, this.ttl := max, ttl;
      entries := [];
    }

    /** A hit moves its entry to the end and keeps its time; an expired entry is dropped on the way. */
    method Get(key: string, now: int) returns (value: Option<V>)
      requires Valid()
      modifies this
      ensures Valid()
      ensures value == Hit(old(entries), key, now, ttl)
      ensures entries == AfterGet(old(entries), key, now, ttl)
    {
      AfterKeepsBounds(entries, Op.Get(key, now), max, ttl);
      var hit := Find(entries, key);
      if hit.None? {
        return None;
      }
      if now - hit.value.at > ttl {
        Remove(key);
        return None;
      }
      Remove(key);
      entries := entries + [hit.value];
      return Some(hit.value.value);
    }

    method Set(key: string, value: V, now: int)
      requires Valid()
      modifies this
      ensures Valid()
      ensures entries == AfterSet(old(entries), key, value, now, max)
    {
      AfterKeepsBounds(entries, Op.Set(key, value, now), max, ttl);
      Remove(key);
      entries := entries + [Entry(key, value, now)];
      ghost var all := entries;
      while |entries| > max
        invariant Last(entries, max) == Last(all, max)
        decreases |entries|
      {
        entries := entries[1..];
      }
    }

    method Delete(key: string)
      requires Valid()
      modifies this
      ensures Valid()
      ensures entries == Without(old(entries), key)
    {
      AfterKeepsBounds(entries, Op.Delete(key), max, ttl);
      Remove(key);
    }

    method Remove(key: string)
      modifies this
      ensures entries == Without(old(entries), key)
    {
      var all := entries;
      entries := [];
      var i := |all|;
      while i > 0
        invariant 0 <= i <= |all|
        invariant entries == Without(all[i..], key)
      {
        i := i - 1;
        assert all[i..][1..] == all[i + 1..];
        if all[i].key != key {
          entries := [all[i]] + entries;
        }
      }
      assert all[0..] == all;
    }
  }

  // ---- Agreement with a plain timestamped map ------------------------------------------------

  function PlainAfter<V>(plain: map<string, (V, int)>, op: Op<V>): map<string, (V, int)> {
    match op
    case Get(_, _) => plain
    case Set(key, value, now) => plain[key := (value, now)]
    case Delete(key) => plain - {key}
  }

  function PlainRun<V>(plain: map<string, (V, int)>, ops: seq<Op<V>>): map<string, (V, int)>
    decreases |ops|
  {
    if ops == [] then plain else PlainRun(PlainAfter(plain, ops[0]), ops[1..])
  }

  function PlainHit<V>(plain: map<string, (V, int)>, key: string, now: int, ttl: int): Option<V> {
    if key !in plain || now - plain[key].1 > ttl then None else Some(plain[key].0)
  }

  ghost predicate Coherent<V>(entries: seq<Entry<V>>, plain: map<string, (V, int)>) {
    entries == [] ||
    (entries[0].key in plain && plain[entries[0].key] == (entries[0].value, entries[0].at) && Coherent(entries[1..], plain))
  }

  lemma {:induction false} CoherentSnoc<V>(entries: seq<Entry<V>>, e: Entry<V>, plain: map<string, (V, int)>)
    ensures Coherent(entries + [e], plain)
            <==> Coherent(entries, plain) && e.key in plain && plain[e.key] == (e.value, e.at)
  {
    if entries == [] {
      assert [] + [e] == [e] && [e][1..] == [];
    } else {
      assert (entries + [e])[1..] == entries[1..] + [e];
      CoherentSnoc(entries[1..], e, plain);
    }
  }

  lemma {:induction false} CoherentWithout<V>(
      entries: seq<Entry<V>>, key: string, plain: map<string, (V, int)>, next: map<string, (V, int)>)
    requires Coherent(entries, plain)
    requires forall k | k in plain && k != key :: k in next && next[k] == plain[k]
    ensures Coherent(Without(entries, key), next)
  {
    if entries != [] {
      CoherentWithout(entries[1..], key, plain, next);
      assert Without(entries, key)
          == if entries[0].key == key then Without(entries[1..], key) else [entries[0]] + Without(entries[1..], key);
      Cons(entries[0], Without(entries[1..], key));
    }
  }

  lemma {:induction false} CoherentLast<V>(entries: seq<Entry<V>>, max: nat, plain: map<string, (V, int)>)
    requires Coherent(entries, plain)
    ensures Coherent(Last(entries, max), plain)
    decreases |entries|
  {
    if |entries| > max {
      CoherentLast(entries[1..], max, plain);
    }
  }

  lemma {:induction false} CoherentFind<V>(entries: seq<Entry<V>>, key: string, plain: map<string, (V, int)>)
    requires Coherent(entries, plain)
    ensures var hit := Find(entries, key);
            hit.Some? ==> key in plain && plain[key] == (hit.value.value, hit.value.at)
  {
    if entries != [] && entries[0].key != key {
      CoherentFind(entries[1..], key, plain);
    }
  }

  lemma {:induction false} AfterKeepsCoherent<V>(
      entries: seq<Entry<V>>, plain: map<string, (V, int)>, op: Op<V>, max: nat, ttl: int)
    requires Coherent(entries, plain)
    ensures Coherent(After(entries, op, max, ttl), PlainAfter(plain, op))
  {
    var next := PlainAfter(plain, op);
    CoherentWithout(entries, op.key, plain, next);
    match op
    case Get(key, now) =>
      FindIsIn(entries, key);
      CoherentFind(entries, key, plain);
      if Find(entries, key).Some? {
        CoherentSnoc(Without(entries, key), Find(entries, key).value, plain);
      }
    case Set(key, value, now) =>
      CoherentSnoc(Without(entries, key), Entry(key, value, now), next);
      CoherentLast(Without(entries, key) + [Entry(key, value, now)], max, next);
    case Delete(_) =>
  }

  lemma {:induction false} RunKeepsCoherent<V>(
      entries: seq<Entry<V>>, plain: map<string, (V, int)>, ops: seq<Op<V>>, max: nat, ttl: int)
    requires Coherent(entries, plain)
    ensures Coherent(Run(entries, ops, max, ttl), PlainRun(plain, ops))
    decreases |ops|
  {
    if ops != [] {
      AfterKeepsCoherent(entries, plain, ops[0], max, ttl);
      RunKeepsCoherent(After(entries, ops[0], max, ttl), PlainAfter(plain, ops[0]), ops[1..], max, ttl);
    }
  }

  /** After any run, whatever the clock did, a hit is what a plain timestamped map answers: the value last
      set for the key, no longer than the time to live ago. */
  lemma {:induction false} HitIsPlainHit<V>(ops: seq<Op<V>>, max: nat, ttl: int, key: string, now: int)
    ensures var hit := Hit(Run([], ops, max, ttl), key, now, ttl);
            hit.Some? ==> hit == PlainHit(PlainRun(map[], ops), key, now, ttl)
  {
    RunKeepsCoherent([], map[], ops, max, ttl);
    CoherentFind(Run([], ops, max, ttl), key, PlainRun(map[], ops));
  }

  // ---- Inclusion -----------------------------------------------------------------------------

  /** The small cache holds some of the large one's entries, in the same order, and the large one holds
      no more entries beside them than its capacity is larger. */
  ghost predicate Included<V>(small: seq<Entry<V>>, m: nat, large: seq<Entry<V>>, M: nat) {
    && Bounded(small, m) && Bounded(large, M)
    && small == Restrict(large, Keys(small))
    && |large| - |small| <= M - m
  }

  lemma {:induction false} RestrictIs<V>(entries: seq<Entry<V>>, keys: set<string>)
    ensures Keys(Restrict(entries, keys)) == Keys(entries) * keys
  {
    if entries != [] {
      RestrictIs(entries[1..], keys);
      RestrictCons(entries[0], entries[1..], keys);
      Cons(entries[0], Restrict(entries[1..], keys));
    }
  }

  lemma {:induction false} RestrictCons<V>(e: Entry<V>, rest: seq<Entry<V>>, keys: set<string>)
    ensures Restrict([e] + rest, keys) == if e.key in keys then [e] + Restrict(rest, keys) else Restrict(rest, keys)
  {
  }

  lemma {:induction false} WithoutCons<V>(e: Entry<V>, rest: seq<Entry<V>>, key: string)
    ensures Without([e] + rest, key) == if e.key == key then Without(rest, key) else [e] + Without(rest, key)
  {
  }

  /** Removing a key commutes with restriction. */
  lemma {:induction false} RestrictWithout<V>(entries: seq<Entry<V>>, keys: set<string>, key: string)
    ensures Without(Restrict(entries, keys), key) == Restrict(Without(entries, key), keys)
    ensures Restrict(Without(entries, key), keys - {key}) == Restrict(Without(entries, key), keys)
  {
    if entries != [] {
      var e, rest := entries[0], entries[1..];
      assert entries == [e] + rest;
      RestrictWithout(rest, keys, key);
      RestrictCons(e, rest, keys);
      WithoutCons(e, rest, key);
      WithoutCons(e, Restrict(rest, keys), key);
      RestrictCons(e, Without(rest, key), keys);
      RestrictCons(e, Without(rest, key), keys - {key});
    }
  }

  lemma {:induction false} RestrictSnoc<V>(entries: seq<Entry<V>>, e: Entry<V>, keys: set<string>)
    ensures Restrict(entries + [e], keys) == Restrict(entries, keys) + if e.key in keys then [e] else []
  {
    if entries == [] {
      assert [] + [e] == [e] && [e][1..] == [];
    } else {
      assert entries + [e] == [entries[0]] + (entries[1..] + [e]);
      assert entries == [entries[0]] + entries[1..];
      RestrictSnoc(entries[1..], e, keys);
      RestrictCons(entries[0], entries[1..] + [e], keys);
      RestrictCons(entries[0], entries[1..], keys);
    }
  }

  lemma {:induction false} RestrictSame<V>(entries: seq<Entry<V>>, a: set<string>, b: set<string>)
    requires a * Keys(entries) == b * Keys(entries)
    ensures Restrict(entries, a) == Restrict(entries, b)
  {
    if entries != [] {
      var e := entries[0];
      assert e.key in a * Keys(entries) <==> e.key in b * Keys(entries);
      forall k | k in Keys(entries[1..]) ensures k in a <==> k in b {
        assert k in a * Keys(entries) <==> k in b * Keys(entries);
      }
      assert a * Keys(entries[1..]) == b * Keys(entries[1..]);
      RestrictSame(entries[1..], a, b);
    }
  }

  /** An entry of the restriction is the entry of the whole. */
  lemma {:induction false} RestrictFind<V>(entries: seq<Entry<V>>, keys: set<string>, key: string)
    ensures key in keys ==> Find(Restrict(entries, keys), key) == Find(entries, key)
    ensures key !in keys ==> Find(Restrict(entries, keys), key).None?
  {
    if entries != [] {
      var rest := Restrict(entries[1..], keys);
      RestrictFind(entries[1..], keys, key);
      assert entries == [entries[0]] + entries[1..];
      RestrictCons(entries[0], entries[1..], keys);
      Cons(entries[0], rest);
    }
  }

  /** Removing a key from both sides. */
  lemma {:induction false} IncludedWithout<V>(small: seq<Entry<V>>, m: nat, large: seq<Entry<V>>, M: nat, key: string)
    requires Included(small, m, large, M)
    ensures Included(Without(small, key), m, Without(large, key), M)
    ensures key in Keys(small) ==> key in Keys(large)
  {
    RestrictIs(large, Keys(small));
    WithoutIs(small, key);
    WithoutIs(large, key);
    RestrictWithout(large, Keys(small), key);
  }

  /** Appending an entry to both sides, before eviction. */
  lemma {:induction false} IncludedSnoc<V>(small: seq<Entry<V>>, large: seq<Entry<V>>, e: Entry<V>)
    requires small == Restrict(large, Keys(small)) && e.key !in Keys(large)
    ensures small + [e] == Restrict(large + [e], Keys(small + [e]))
  {
    Snoc(small, e);
    RestrictSnoc(large, e, Keys(small) + {e.key});
    RestrictSame(large, Keys(small) + {e.key}, Keys(small));
  }

  /** Evicting the oldest entry of the small side, or of both. */
  lemma {:induction false} IncludedEvictSmall<V>(small: seq<Entry<V>>, large: seq<Entry<V>>)
    requires small != [] && Distinct(small) && small == Restrict(large, Keys(small))
    ensures small[1..] == Restrict(large, Keys(small[1..]))
  {
    if large[0].key in Keys(small) {
      var rest := large[1..];
      assert large == [large[0]] + rest;
      RestrictCons(large[0], rest, Keys(small));
      Cons(large[0], Restrict(rest, Keys(small)));
      assert small[0] == large[0] && small[1..] == Restrict(rest, Keys(small));
      RestrictIs(rest, Keys(small));
      RestrictSame(rest, Keys(small), Keys(small[1..]));
      RestrictCons(large[0], rest, Keys(small[1..]));
    } else {
      assert large == [large[0]] + large[1..];
      RestrictCons(large[0], large[1..], Keys(small));
      IncludedEvictSmall(small, large[1..]);
      RestrictCons(large[0], large[1..], Keys(small[1..]));
    }
  }

  /** Evicting the oldest entry of the large side, when the small side does not hold it. */
  lemma {:induction false} IncludedEvictLarge<V>(small: seq<Entry<V>>, large: seq<Entry<V>>)
    requires large != [] && large[0].key !in Keys(small) && small == Restrict(large, Keys(small))
    ensures small == Restrict(large[1..], Keys(small))
  {
  }

  /** Evicting from both sides at once never evicts from the large one what the small one keeps. */
  lemma {:induction false} IncludedEvictBoth<V>(small: seq<Entry<V>>, large: seq<Entry<V>>)
    requires small != [] && large != [] && Distinct(small) && small == Restrict(large, Keys(small))
    ensures small[1..] == Restrict(large[1..], Keys(small[1..]))
  {
    IncludedEvictSmall(small, large);
    if large[0].key in Keys(small) {
      assert large == [large[0]] + large[1..];
      RestrictCons(large[0], large[1..], Keys(small));
      assert small[0] == large[0];
    }
    IncludedEvictLarge(small[1..], large);
  }

  lemma {:induction false} IncludedLast<V>(small: seq<Entry<V>>, m: nat, large: seq<Entry<V>>, M: nat)
    requires small != [] && Distinct(small) && Distinct(large) && small == Restrict(large, Keys(small))
    requires m <= M && |small| <= m + 1 && |large| <= M + 1 && |large| - |small| <= M - m
    ensures Included(Last(small, m), m, Last(large, M), M)
  {
    LastIs(small, m);
    LastIs(large, M);
    assert Last(small, m) == if |small| > m then small[1..] else small;
    assert Last(large, M) == if |large| > M then large[1..] else large;
    if |large| > M {
      IncludedEvictBoth(small, large);
    } else if |small| > m {
      IncludedEvictSmall(small, large);
    }
  }

  lemma {:induction false} IncludedGet<V>(
      small: seq<Entry<V>>, m: nat, large: seq<Entry<V>>, M: nat, key: string, now: int, ttl: int)
    requires Included(small, m, large, M)
    ensures Included(AfterGet(small, key, now, ttl), m, AfterGet(large, key, now, ttl), M)
  {
    FindIsIn(small, key);
    FindIsIn(large, key);
    RestrictFind(large, Keys(small), key);
    IncludedWithout(small, m, large, M, key);
    WithoutIs(small, key);
    WithoutIs(large, key);
    AfterKeepsBounds(small, Op.Get(key, now), m, ttl);
    AfterKeepsBounds(large, Op.Get(key, now), M, ttl);
    var hit := Find(large, key);
    if hit.Some? && now - hit.value.at <= ttl {
      if key in Keys(small) {
        IncludedSnoc(Without(small, key), Without(large, key), hit.value);
      } else {
        RestrictSnoc(Without(large, key), hit.value, Keys(small));
      }
    }
  }

  lemma {:induction false} IncludedSet<V>(
      small: seq<Entry<V>>, m: nat, large: seq<Entry<V>>, M: nat, key: string, value: V, now: int)
    requires m <= M && Included(small, m, large, M)
    ensures Included(AfterSet(small, key, value, now, m), m, AfterSet(large, key, value, now, M), M)
  {
    var e := Entry(key, value, now);
    IncludedWithout(small, m, large, M, key);
    WithoutIs(small, key);
    WithoutIs(large, key);
    IncludedSnoc(Without(small, key), Without(large, key), e);
    Snoc(Without(small, key), e);
    Snoc(Without(large, key), e);
    IncludedLast(Without(small, key) + [e], m, Without(large, key) + [e], M);
  }

  lemma {:induction false} RunKeepsIncluded<V>(
      small: seq<Entry<V>>, m: nat, large: seq<Entry<V>>, M: nat, ops: seq<Op<V>>, ttl: int)
    requires m <= M && Included(small, m, large, M)
    ensures Included(Run(small, ops, m, ttl), m, Run(large, ops, M, ttl), M)
    decreases |ops|
  {
    if ops != [] {
      match ops[0] {
        case Get(key, now) => IncludedGet(small, m, large, M, key, now, ttl);
        case Set(key, value, now) => IncludedSet(small, m, large, M, key, value, now);
        case Delete(key) => IncludedWithout(small, m, large, M, key);
      }
      RunKeepsIncluded(After(small, ops[0], m, ttl), m, After(large, ops[0], M, ttl), M, ops[1..], ttl);
    }
  }

  /** LRU inclusion: after any run of the same operations, every hit of a smaller cache is a hit of a
      larger one with the same value. */
  lemma {:induction false} SmallerHitsAreLargerHits<V>(
      ops: seq<Op<V>>, m: nat, M: nat, ttl: int, key: string, now: int)
    requires m <= M
    ensures var hit := Hit(Run([], ops, m, ttl), key, now, ttl);
            hit.Some? ==> hit == Hit(Run([], ops, M, ttl), key, now, ttl)
  {
    var empty: seq<Entry<V>> := [];
    RunKeepsIncluded(empty, m, empty, M, ops, ttl);
    RestrictFind(Run([], ops, M, ttl), Keys(Run([], ops, m, ttl)), key);
  }

  // ---- What is used stays --------------------------------------------------------------------

  /** The entries behind a key, that is, the ones used more recently. */
  function Behind<V>(entries: seq<Entry<V>>, key: string): set<string> {
    if entries == [] then {}
    else if entries[0].key == key then Keys(entries[1..])
    else Behind(entries[1..], key)
  }

  lemma {:induction false} BehindSnoc<V>(entries: seq<Entry<V>>, key: string, e: Entry<V>)
    requires key in Keys(entries)
    ensures Behind(entries + [e], key) == Behind(entries, key) + {e.key}
  {
    assert (entries + [e])[1..] == entries[1..] + [e];
    if entries[0].key == key {
      Snoc(entries[1..], e);
    } else {
      BehindSnoc(entries[1..], key, e);
    }
  }

  lemma {:induction false} BehindWithout<V>(entries: seq<Entry<V>>, key: string, other: string)
    requires key != other
    ensures Behind(Without(entries, other), key) == Behind(entries, key) - {other}
  {
    if entries != [] {
      var e, rest := entries[0], entries[1..];
      assert entries == [e] + rest;
      WithoutCons(e, rest, other);
      WithoutIs(rest, other);
      BehindWithout(rest, key, other);
      Cons(e, Without(rest, other));
    }
  }

  /** An entry is evicted only with a full cache behind it. */
  lemma {:induction false} BehindLast<V>(entries: seq<Entry<V>>, max: nat, key: string)
    requires Distinct(entries) && key in Keys(entries) && |Behind(entries, key)| < max
    ensures key in Keys(Last(entries, max)) && Behind(Last(entries, max), key) == Behind(entries, key)
    decreases |entries|
  {
    if |entries| > max {
      if entries[0].key == key {
        SizeIsKeys(entries[1..]);
        assert false;
      }
      BehindLast(entries[1..], max, key);
    }
  }

  function Touched<V>(ops: seq<Op<V>>): set<string> {
    if ops == [] then {} else {ops[0].key} + Touched(ops[1..])
  }

  /** The LRU promise: an entry just used, that is set or hit, is still there as long as fewer than `max`
      other keys have been named by operations since. */
  lemma {:induction false} UsedEntriesStay<V>(
      entries: seq<Entry<V>>, ops: seq<Op<V>>, max: nat, ttl: int, key: string, touched: set<string>)
    requires Distinct(entries) && key in Keys(entries)
    requires key !in Touched(ops) && Behind(entries, key) <= touched
    requires |touched + Touched(ops)| < max
    ensures key in Keys(Run(entries, ops, max, ttl))
    ensures Find(Run(entries, ops, max, ttl), key) == Find(entries, key)
    decreases |ops|
  {
    if ops != [] {
      var op := ops[0];
      assert op.key != key;
      UsedEntryStays(entries, op, max, ttl, key, touched + {op.key}, touched + Touched(ops));
      assert touched + {op.key} + Touched(ops[1..]) == touched + Touched(ops);
      UsedEntriesStay(After(entries, op, max, ttl), ops[1..], max, ttl, key, touched + {op.key});
    }
  }

  lemma {:induction false} SmallerSet(a: set<string>, b: set<string>)
    requires a <= b
    ensures |a| <= |b|
  {
    assert b == a + (b - a);
  }

  lemma {:induction false} FindWithout<V>(entries: seq<Entry<V>>, key: string, other: string)
    requires key != other
    ensures Find(Without(entries, other), key) == Find(entries, key)
  {
    if entries != [] {
      FindWithout(entries[1..], key, other);
      assert entries == [entries[0]] + entries[1..];
      WithoutCons(entries[0], entries[1..], other);
      Cons(entries[0], Without(entries[1..], other));
    }
  }

  lemma {:induction false} FindSnoc<V>(entries: seq<Entry<V>>, e: Entry<V>, key: string)
    requires key in Keys(entries)
    ensures Find(entries + [e], key) == Find(entries, key)
  {
    assert (entries + [e])[1..] == entries[1..] + [e];
    if entries[0].key != key {
      FindSnoc(entries[1..], e, key);
    }
  }

  lemma {:induction false} FindLast<V>(entries: seq<Entry<V>>, max: nat, key: string)
    requires Distinct(entries) && key in Keys(Last(entries, max))
    ensures Find(Last(entries, max), key) == Find(entries, key)
    decreases |entries|
  {
    if |entries| > max {
      LastIs(entries[1..], max);
      FindLast(entries[1..], max, key);
    }
  }

  lemma {:induction false} UsedEntryStays<V>(
      entries: seq<Entry<V>>, op: Op<V>, max: nat, ttl: int, key: string, touched: set<string>, all: set<string>)
    requires Distinct(entries) && key in Keys(entries) && op.key != key
    requires Behind(entries, key) + {op.key} <= touched <= all && |all| < max
    ensures var next := After(entries, op, max, ttl);
            && Distinct(next) && key in Keys(next) && Behind(next, key) <= touched
            && Find(next, key) == Find(entries, key)
  {
    var rest := Without(entries, op.key);
    WithoutIs(entries, op.key);
    BehindWithout(entries, key, op.key);
    FindWithout(entries, key, op.key);
    FindIsIn(entries, op.key);
    match op
    case Get(k, now) =>
      if Find(entries, k).Some? {
        Snoc(rest, Find(entries, k).value);
        BehindSnoc(rest, key, Find(entries, k).value);
        FindSnoc(rest, Find(entries, k).value, key);
      }
    case Set(k, value, now) =>
      var e := Entry(k, value, now);
      Snoc(rest, e);
      BehindSnoc(rest, key, e);
      FindSnoc(rest, e, key);
      SmallerSet(Behind(rest + [e], key), all);
      BehindLast(rest + [e], max, key);
      LastIs(rest + [e], max);
      FindLast(rest + [e], max, key);
    case Delete(_) =>
  }

  lemma {:induction false} Newest<V>(entries: seq<Entry<V>>, e: Entry<V>)
    requires e.key !in Keys(entries)
    ensures Behind(entries + [e], e.key) == {} && Find(entries + [e], e.key) == Some(e)
  {
    if entries == [] {
      assert entries + [e] == [e] && [e][1..] == [];
    } else {
      assert (entries + [e])[1..] == entries[1..] + [e];
      Newest(entries[1..], e);
    }
  }

  /** A value set is answered until it expires, whatever is done with fewer than `max` other keys. */
  lemma {:induction false} SetThenHit<V>(
      entries: seq<Entry<V>>, key: string, value: V, at: int, ops: seq<Op<V>>, max: nat, ttl: int, now: int)
    requires Bounded(entries, max) && key !in Touched(ops) && |Touched(ops)| < max
    ensures Hit(Run(AfterSet(entries, key, value, at, max), ops, max, ttl), key, now, ttl)
            == if now - at > ttl then None else Some(value)
  {
    var rest, e := Without(entries, key), Entry(key, value, at);
    WithoutIs(entries, key);
    Newest(rest, e);
    Snoc(rest, e);
    BehindLast(rest + [e], max, key);
    LastIs(rest + [e], max);
    FindLast(rest + [e], max, key);
    assert {} + Touched(ops) == Touched(ops);
    UsedEntriesStay(AfterSet(entries, key, value, at, max), ops, max, ttl, key, {});
  }

  /** A hit counts as a use, but does not renew the entry: it still expires by the time it was set. */
  lemma {:induction false} HitThenHit<V>(
      entries: seq<Entry<V>>, key: string, at: int, ops: seq<Op<V>>, max: nat, ttl: int, now: int)
    requires Bounded(entries, max) && key !in Touched(ops) && |Touched(ops)| < max
    requires Hit(entries, key, at, ttl).Some?
    ensures Hit(Run(AfterGet(entries, key, at, ttl), ops, max, ttl), key, now, ttl)
            == if now - Find(entries, key).value.at > ttl then None else Hit(entries, key, at, ttl)
  {
    var rest, e := Without(entries, key), Find(entries, key).value;
    FindIsIn(entries, key);
    WithoutIs(entries, key);
    Newest(rest, e);
    Snoc(rest, e);
    assert {} + Touched(ops) == Touched(ops);
    UsedEntriesStay(AfterGet(entries, key, at, ttl), ops, max, ttl, key, {});
  }

  /** A miss is final: an entry found expired, or never there, is gone, in any state the cache gets to. */
  lemma {:induction false} MissIsGone<V>(ops: seq<Op<V>>, max: nat, ttl: int, key: string, now: int)
    requires Hit(Run([], ops, max, ttl), key, now, ttl).None?
    ensures key !in Keys(AfterGet(Run([], ops, max, ttl), key, now, ttl))
    ensures |AfterGet(Run([], ops, max, ttl), key, now, ttl)|
            == |Run([], ops, max, ttl)| - if key in Keys(Run([], ops, max, ttl)) then 1 else 0
  {
    var empty: seq<Entry<V>> := [];
    var entries := Run(empty, ops, max, ttl);
    RunKeepsBounds(empty, ops, max, ttl);
    FindIsIn(entries, key);
    WithoutIs(entries, key);
  }
}
