/**
 * The client's page_objects: object name -> instance id -> resource name ->
 * resource path. Each level is a Python dict, modelled as its items in
 * insertion order, which is the order the resolver's loops visit them in.
 * Instance ids are strings, as they are once the topology has been through
 * the client's JSON cache.
 */
module Topology {
  import opened Outcomes
  import opened Text

  type Dict<V> = seq<(string, V)>
  type ResourceMap = Dict<string>
  type InstanceMap = Dict<ResourceMap>
  type Topo = Dict<InstanceMap>

  /** An (object key, instance key) pair handed to the per-instance search. */
  type Pair = (string, string)

  /** d.keys(), in iteration order. */
  function Keys<V>(d: Dict<V>): (ks: seq<string>)
    ensures |ks| == |d|
    ensures forall j :: 0 <= j < |d| ==> ks[j] == d[j].0
    decreases |d|
  {
    if |d| == 0 then [] else Keys(d[..|d| - 1]) + [d[|d| - 1].0]
  }

  /** d.get(k): the value stored under k, or None when k is not a key. */
  function Get<V>(d: Dict<V>, k: string): Option<V>
    decreases |d|
  {
    if |d| == 0 then None
    else if d[0].0 == k then Some(d[0].1)
    else Get(d[1..], k)
  }

  /** A lookup fails exactly when k is not a key, and succeeds with a value stored under k. */
  lemma {:induction false} GetSpec<V>(d: Dict<V>, k: string)
    ensures Get(d, k).None? <==> k !in Keys(d)
    ensures Get(d, k).Some? ==> (k, Get(d, k).value) in d
    decreases |d|
  {
    if |d| > 0 && d[0].0 != k {
      GetSpec(d[1..], k);
      assert Keys(d) == [d[0].0] + Keys(d[1..]);
    }
  }

  /** The position of a key that a lookup finds. */
  lemma FindKey<V>(d: Dict<V>, k: string) returns (j: nat)
    requires Get(d, k).Some?
    ensures j < |d| && d[j] == (k, Get(d, k).value)
  {
    GetSpec(d, k);
    j :| 0 <= j < |d| && d[j] == (k, Get(d, k).value);
  }

  predicate UniqueKeys<V>(d: Dict<V>)
  {
    forall i, j :: 0 <= i < j < |d| ==> d[i].0 != d[j].0
  }

  /** Every level has distinct keys, as every Python dict does. */
  predicate WellFormed(t: Topo)
  {
    UniqueKeys(t) &&
    (forall j :: 0 <= j < |t| ==> UniqueKeys(t[j].1)) &&
    (forall j, k :: 0 <= j < |t| && 0 <= k < |t[j].1| ==> UniqueKeys(t[j].1[k].1))
  }

  /** With distinct keys, looking up the key of an item finds that item's value. */
  lemma {:induction false} GetAt<V>(d: Dict<V>, j: nat)
    requires UniqueKeys(d) && j < |d|
    ensures Get(d, d[j].0) == Some(d[j].1)
    decreases j
  {
    if j > 0 {
      assert d[0].0 != d[j].0;
      GetAt(d[1..], j - 1);
    }
  }

  /** d[k] = v: a new key goes last; an existing key keeps its place and takes the new value. */
  function Put<V>(d: Dict<V>, k: string, v: V): Dict<V>
    decreases |d|
  {
    if |d| == 0 then [(k, v)]
    else if d[0].0 == k then [(k, v)] + d[1..]
    else [d[0]] + Put(d[1..], k, v)
  }

  /** After d[k] = v, k holds v and every other key holds what it held before. */
  lemma {:induction false} PutGet<V>(d: Dict<V>, k: string, v: V, x: string)
    ensures Get(Put(d, k, v), x) == if x == k then Some(v) else Get(d, x)
    decreases |d|
  {
    if |d| > 0 && d[0].0 != k {
      PutGet(d[1..], k, v, x);
    }
  }

  /** Assigning a key that is not yet present appends it. */
  lemma {:induction false} PutNew<V>(d: Dict<V>, k: string, v: V)
    requires Get(d, k).None?
    ensures Put(d, k, v) == d + [(k, v)]
    decreases |d|
  {
    if |d| > 0 {
      assert d[0].0 != k by { assert d[0].0 in Keys(d); }
      PutNew(d[1..], k, v);
      assert d == [d[0]] + d[1..];
    }
  }

  /** Assignment keeps the keys distinct. */
  lemma {:induction false} PutUnique<V>(d: Dict<V>, k: string, v: V)
    requires UniqueKeys(d)
    ensures UniqueKeys(Put(d, k, v))
    decreases |d|
  {
    if |d| > 0 && d[0].0 != k {
      var tail := Put(d[1..], k, v);
      PutUnique(d[1..], k, v);
      PutGet(d[1..], k, v, d[0].0);
      GetSpec(tail, d[0].0);
      GetSpec(d[1..], d[0].0);
      assert d[0].0 !in Keys(d[1..]);
      assert forall j :: 0 <= j < |tail| ==> tail[j].0 in Keys(tail);
    }
  }

  /** The value the last item whose key lower-cases to x carries, if any: what a later item overwrites. */
  function LastFolding<V>(d: Dict<V>, x: string): Option<V>
    decreases |d|
  {
    if |d| == 0 then None
    else if Lower(d[|d| - 1].0) == x then Some(d[|d| - 1].1)
    else LastFolding(d[..|d| - 1], x)
  }

  /** {k.lower(): v for k, v in d.items()}, inserting item by item. */
  function LowerKeys<V>(d: Dict<V>): Dict<V>
    decreases |d|
  {
    if |d| == 0 then [] else Put(LowerKeys(d[..|d| - 1]), Lower(d[|d| - 1].0), d[|d| - 1].1)
  }

  /**
   * Looking x up in the lower-cased dict gives the value of the last item
   * whose key lower-cases to x: where keys collide the later value wins.
   */
  lemma {:induction false} LowerKeysGet<V>(d: Dict<V>, x: string)
    ensures Get(LowerKeys(d), x) == LastFolding(d, x)
    decreases |d|
  {
    if |d| > 0 {
      LowerKeysGet(d[..|d| - 1], x);
      PutGet(LowerKeys(d[..|d| - 1]), Lower(d[|d| - 1].0), d[|d| - 1].1, x);
    }
  }

  /** Every key of the lower-cased dict is lower-case, and no key appears twice. */
  lemma {:induction false} LowerKeysShape<V>(d: Dict<V>)
    ensures UniqueKeys(LowerKeys(d))
    ensures forall x :: x in Keys(LowerKeys(d)) ==> Lower(x) == x
    decreases |d|
  {
    if |d| > 0 {
      var prev := LowerKeys(d[..|d| - 1]);
      var k := Lower(d[|d| - 1].0);
      LowerKeysShape(d[..|d| - 1]);
      PutUnique(prev, k, d[|d| - 1].1);
      forall x | x in Keys(LowerKeys(d)) ensures Lower(x) == x {
        PutGet(prev, k, d[|d| - 1].1, x);
        GetSpec(LowerKeys(d), x);
        GetSpec(prev, x);
        if x == k {
          LowerIdempotent(d[|d| - 1].0);
        } else {
          assert x in Keys(prev);
        }
      }
    }
  }

  /** A lookup of x succeeds exactly when some original key lower-cases to x. */
  lemma {:induction false} LastFoldingSome<V>(d: Dict<V>, x: string)
    ensures LastFolding(d, x).Some? <==> exists j :: 0 <= j < |d| && Lower(d[j].0) == x
    decreases |d|
  {
    if |d| > 0 {
      LastFoldingSome(d[..|d| - 1], x);
      assert forall j :: 0 <= j < |d| - 1 ==> d[..|d| - 1][j] == d[j];
    }
  }

  /** Lower-casing the keys of a dict whose keys are already lower-case and distinct changes nothing. */
  lemma {:induction false} LowerKeysOfLowered<V>(d: Dict<V>)
    requires UniqueKeys(d)
    requires forall j :: 0 <= j < |d| ==> Lower(d[j].0) == d[j].0
    ensures LowerKeys(d) == d
    decreases |d|
  {
    if |d| > 0 {
      var init := d[..|d| - 1];
      LowerKeysOfLowered(init);
      assert d[|d| - 1].0 !in Keys(init);
      GetSpec(init, d[|d| - 1].0);
      PutNew(init, d[|d| - 1].0, d[|d| - 1].1);
      assert d == init + [d[|d| - 1]];
    }
  }

  /** Lower-casing the keys twice is the same as once. */
  lemma LowerKeysIdempotent<V>(d: Dict<V>)
    ensures LowerKeys(LowerKeys(d)) == LowerKeys(d)
  {
    var r := LowerKeys(d);
    LowerKeysShape(d);
    forall j | 0 <= j < |r| ensures Lower(r[j].0) == r[j].0 {
      assert r[j].0 in Keys(r);
    }
    LowerKeysOfLowered(r);
  }

  /**
   * On a lower-cased topology, an object name looked up after lower-casing
   * is found exactly when some original object name folds to the same text.
   */
  lemma LookupIgnoresCase<V>(d: Dict<V>, name: string)
    ensures Get(LowerKeys(d), Lower(name)).Some? <==> exists j :: 0 <= j < |d| && Lower(d[j].0) == Lower(name)
  {
    LowerKeysGet(d, Lower(name));
    LastFoldingSome(d, Lower(name));
  }

  /** The paths of resources whose name equals q ignoring case, in dict order. */
  function ResourceMatches(rm: ResourceMap, q: string): (ps: seq<string>)
    ensures |ps| <= |rm|
    decreases |rm|
  {
    if |rm| == 0 then []
    else
      var last := rm[|rm| - 1];
      ResourceMatches(rm[..|rm| - 1], q) + if Lower(last.0) == Lower(q) then [last.1] else []
  }

  /** A path is among the matches exactly when some resource with that path has a name equal to q ignoring case. */
  lemma {:induction false} ResourceMatchesMembership(rm: ResourceMap, q: string, p: string)
    ensures p in ResourceMatches(rm, q) <==> exists j :: 0 <= j < |rm| && rm[j].1 == p && Lower(rm[j].0) == Lower(q)
    decreases |rm|
  {
    if |rm| > 0 {
      var init := rm[..|rm| - 1];
      ResourceMatchesMembership(init, q, p);
      assert forall j :: 0 <= j < |init| ==> init[j] == rm[j];
    }
  }

  lemma {:induction false} ResourceMatchesAppend(a: ResourceMap, b: ResourceMap, q: string)
    ensures ResourceMatches(a + b, q) == ResourceMatches(a, q) + ResourceMatches(b, q)
    decreases |b|
  {
    if |b| == 0 {
      assert a + b == a;
    } else {
      var init := b[..|b| - 1];
      assert (a + b)[..|a + b| - 1] == a + init;
      ResourceMatchesAppend(a, init, q);
    }
  }

  /** What the per-instance search collects for one pair: nothing when either key is missing. */
  function MatchesAt(t: Topo, o: string, i: string, q: string): seq<string>
  {
    match Get(t, o)
    case None => []
    case Some(im) =>
      match Get(im, i)
      case None => []
      case Some(rm) => ResourceMatches(rm, q)
  }

  /** Everything f yields for the pairs ps, concatenated in order. */
  function Collect(ps: seq<Pair>, f: Pair -> seq<string>): seq<string>
    decreases |ps|
  {
    if |ps| == 0 then [] else Collect(ps[..|ps| - 1], f) + f(ps[|ps| - 1])
  }

  /** The per-pair search as a function value. */
  function Finder(t: Topo, q: string): Pair -> seq<string>
  {
    (pair: Pair) => MatchesAt(t, pair.0, pair.1, q)
  }

  /** Everything the per-instance search collects over the pairs ps, in order. */
  function ScanPairs(t: Topo, ps: seq<Pair>, q: string): seq<string>
  {
    Collect(ps, Finder(t, q))
  }

  lemma CollectSnoc(ps: seq<Pair>, pair: Pair, f: Pair -> seq<string>)
    ensures Collect(ps + [pair], f) == Collect(ps, f) + f(pair)
  {
    assert (ps + [pair])[..|ps|] == ps;
  }

  lemma ScanSnoc(t: Topo, ps: seq<Pair>, pair: Pair, q: string)
    ensures ScanPairs(t, ps + [pair], q) == ScanPairs(t, ps, q) + MatchesAt(t, pair.0, pair.1, q)
  {
    CollectSnoc(ps, pair, Finder(t, q));
  }

  lemma {:induction false} CollectAppend(a: seq<Pair>, b: seq<Pair>, f: Pair -> seq<string>)
    ensures Collect(a + b, f) == Collect(a, f) + Collect(b, f)
    decreases |b|
  {
    if |b| == 0 {
      assert a + b == a;
    } else {
      var init := b[..|b| - 1];
      var last := b[|b| - 1];
      assert a + b == (a + init) + [last];
      assert b == init + [last];
      CollectSnoc(a + init, last, f);
      CollectSnoc(init, last, f);
      CollectAppend(a, init, f);
    }
  }

  lemma ScanAppend(t: Topo, a: seq<Pair>, b: seq<Pair>, q: string)
    ensures ScanPairs(t, a + b, q) == ScanPairs(t, a, q) + ScanPairs(t, b, q)
  {
    CollectAppend(a, b, Finder(t, q));
  }

  /** Scanning a prefix of the pairs collects a prefix of the matches. */
  lemma ScanPrefix(t: Topo, p: seq<Pair>, ps: seq<Pair>, q: string)
    requires p <= ps
    ensures ScanPairs(t, p, q) <= ScanPairs(t, ps, q)
  {
    assert ps == p + ps[|p|..];
    CollectAppend(p, ps[|p|..], Finder(t, q));
  }

  lemma {:induction false} CollectMembership(ps: seq<Pair>, f: Pair -> seq<string>, x: string)
    ensures x in Collect(ps, f) <==> exists j :: 0 <= j < |ps| && x in f(ps[j])
    decreases |ps|
  {
    if |ps| > 0 {
      var init := ps[..|ps| - 1];
      CollectMembership(init, f, x);
      assert forall j :: 0 <= j < |init| ==> init[j] == ps[j];
    }
  }

  /** A path is collected exactly when one of the scanned pairs holds a matching resource with that path. */
  lemma ScanMembership(t: Topo, ps: seq<Pair>, q: string, x: string)
    ensures x in ScanPairs(t, ps, q) <==> exists j :: 0 <= j < |ps| && x in MatchesAt(t, ps[j].0, ps[j].1, q)
  {
    CollectMembership(ps, Finder(t, q), x);
  }

  /** Moving one pair to the end of the scan moves its matches and keeps the rest. */
  lemma CollectMoveLast(before: seq<Pair>, last: Pair, after: seq<Pair>, f: Pair -> seq<string>)
    ensures multiset(Collect(before + [last] + after, f)) == multiset(Collect(before + after, f) + f(last))
  {
    CollectAppend(before + [last], after, f);
    CollectSnoc(before, last, f);
    CollectAppend(before, after, f);
  }

  lemma {:induction false} CollectPermutation(ps1: seq<Pair>, ps2: seq<Pair>, f: Pair -> seq<string>)
    requires multiset(ps1) == multiset(ps2)
    ensures multiset(Collect(ps1, f)) == multiset(Collect(ps2, f))
    decreases |ps1|
  {
    if |ps1| == 0 {
      assert |ps2| == |multiset(ps2)| == 0;
    } else {
      var init, last := ps1[..|ps1| - 1], ps1[|ps1| - 1];
      var before, after := RemoveLast(ps1, ps2);
      CollectPermutation(init, before + after, f);
      CollectSnoc(init, last, f);
      CollectMoveLast(before, last, after, f);
    }
  }

  /** Where the last pair of ps1 sits in its permutation ps2, and what is left around it. */
  lemma RemoveLast(ps1: seq<Pair>, ps2: seq<Pair>) returns (before: seq<Pair>, after: seq<Pair>)
    requires |ps1| > 0 && multiset(ps1) == multiset(ps2)
    ensures ps2 == before + [ps1[|ps1| - 1]] + after
    ensures multiset(ps1[..|ps1| - 1]) == multiset(before + after)
  {
    var init, last := ps1[..|ps1| - 1], ps1[|ps1| - 1];
    assert ps1 == init + [last];
    assert last in multiset(ps2);
    var j :| 0 <= j < |ps2| && ps2[j] == last;
    before, after := ps2[..j], ps2[j + 1..];
    assert ps2 == before + [last] + after;
    InsertOne(init, last, []);
    assert init + [last] + [] == ps1 && init + [] == init;
    InsertOne(before, last, after);
    Cancel(multiset(init), multiset(before + after), last);
  }

  lemma InsertOne(a: seq<Pair>, x: Pair, b: seq<Pair>)
    ensures multiset(a + [x] + b) == multiset(a + b) + multiset{x}
  {
    assert multiset(a + [x] + b) == multiset(a) + multiset{x} + multiset(b);
  }

  lemma Cancel(m1: multiset<Pair>, m2: multiset<Pair>, x: Pair)
    requires m1 + multiset{x} == m2 + multiset{x}
    ensures m1 == m2
  {
    assert forall y :: m1[y] == (m1 + multiset{x})[y] - multiset{x}[y];
    assert forall y :: m2[y] == (m2 + multiset{x})[y] - multiset{x}[y];
  }

  lemma ScanPermutation(t: Topo, ps1: seq<Pair>, ps2: seq<Pair>, q: string)
    requires multiset(ps1) == multiset(ps2)
    ensures multiset(ScanPairs(t, ps1, q)) == multiset(ScanPairs(t, ps2, q))
  {
    CollectPermutation(ps1, ps2, Finder(t, q));
  }

  /** Scanning one pair collects what the per-instance search collects there. */
  lemma ScanOne(t: Topo, pair: Pair, q: string)
    ensures ScanPairs(t, [pair], q) == MatchesAt(t, pair.0, pair.1, q)
  {
    ScanSnoc(t, [], pair, q);
    assert [] + [pair] == [pair];
  }

  /** An instance holding one resource whose name matches collects its path. */
  lemma OneResourceMatches(t: Topo, o: string, i: string, r: string, p: string, q: string)
    requires Get(t, o).Some? && Get(Get(t, o).value, i) == Some([(r, p)]) && Lower(r) == Lower(q)
    ensures MatchesAt(t, o, i, q) == [p]
  {
    var rm: ResourceMap := [(r, p)];
    assert rm[..0] == [];
  }

  lemma PairsOfOne(o: string, k: string)
    ensures PairsOf(o, [k]) == [(o, k)]
  {
    assert [k][..0] == [];
  }

  lemma KeysOne<V>(d: Dict<V>)
    requires |d| == 1
    ensures Keys(d) == [d[0].0]
  {
  }

  /** (o, k) for every key k of ks, in order. */
  function PairsOf(o: string, ks: seq<string>): (ps: seq<Pair>)
    ensures |ps| == |ks|
    ensures forall j :: 0 <= j < |ks| ==> ps[j] == (o, ks[j])
    decreases |ks|
  {
    if |ks| == 0 then [] else PairsOf(o, ks[..|ks| - 1]) + [(o, ks[|ks| - 1])]
  }

  lemma PairsOfSnoc(o: string, ks: seq<string>, k: string)
    ensures PairsOf(o, ks + [k]) == PairsOf(o, ks) + [(o, k)]
  {
    assert (ks + [k])[..|ks|] == ks;
  }

  /** (o, i) for every object key o of t, in order. */
  function EveryObject(t: Topo, i: string): (ps: seq<Pair>)
    ensures |ps| == |t|
    ensures forall j :: 0 <= j < |t| ==> ps[j] == (t[j].0, i)
  {
    seq(|t|, j requires 0 <= j < |t| => (t[j].0, i))
  }

  /** page_objects[o].keys(), or nothing when o is missing. */
  function InstanceKeys(t: Topo, o: string): seq<string>
  {
    match Get(t, o)
    case None => []
    case Some(im) => Keys(im)
  }

  /** InstanceKeys as a function value. */
  function InstanceLister(t: Topo): string -> seq<string>
  {
    (o: string) => InstanceKeys(t, o)
  }

  /** The pairs that a loop over the object keys objs, with an inner loop over each one's instance keys, visits. */
  function NestedPairs(objs: seq<string>, instances: string -> seq<string>): seq<Pair>
    decreases |objs|
  {
    if |objs| == 0 then []
    else NestedPairs(objs[..|objs| - 1], instances) + PairsOf(objs[|objs| - 1], instances(objs[|objs| - 1]))
  }

  /** Every (object, instance) pair of t, objects in order and each one's instances in order. */
  function AllPairs(t: Topo): seq<Pair>
  {
    NestedPairs(Keys(t), InstanceLister(t))
  }

  lemma NestedPairsSnoc(objs: seq<string>, o: string, instances: string -> seq<string>)
    ensures NestedPairs(objs + [o], instances) == NestedPairs(objs, instances) + PairsOf(o, instances(o))
  {
    assert (objs + [o])[..|objs|] == objs;
  }

  /** The loops have visited a prefix of all pairs after any number of objects. */
  lemma {:induction false} NestedPairsPrefix(objs: seq<string>, j: nat, instances: string -> seq<string>)
    requires j <= |objs|
    ensures NestedPairs(objs[..j], instances) <= NestedPairs(objs, instances)
    decreases |objs|
  {
    if j < |objs| {
      var init := objs[..|objs| - 1];
      assert init[..j] == objs[..j];
      NestedPairsPrefix(init, j, instances);
      var a, b := NestedPairs(objs[..j], instances), NestedPairs(init, instances);
      assert (b + PairsOf(objs[|objs| - 1], instances(objs[|objs| - 1])))[..|a|] == b[..|a|];
    } else {
      assert objs[..j] == objs;
    }
  }

  lemma KeysSnoc<V>(d: Dict<V>, n: nat)
    requires n < |d|
    ensures Keys(d)[..n + 1] == Keys(d)[..n] + [d[n].0]
  {
    var ks := Keys(d);
    var before, after := ks[..n + 1], ks[..n] + [d[n].0];
    forall i | 0 <= i <= n ensures before[i] == after[i] {
      if i == n {
        assert before[i] == ks[n] == d[n].0;
      }
    }
  }

  /** The loops over the first n + 1 objects visit those of the first n, then every instance of object n. */
  lemma NestedPairsStep(t: Topo, n: nat)
    requires n < |t|
    ensures NestedPairs(Keys(t)[..n + 1], InstanceLister(t))
      == NestedPairs(Keys(t)[..n], InstanceLister(t)) + PairsOf(t[n].0, InstanceKeys(t, t[n].0))
  {
    var lister := InstanceLister(t);
    var objs := Keys(t)[..n];
    KeysSnoc(t, n);
    NestedPairsSnoc(objs, t[n].0, lister);
    assert lister(t[n].0) == InstanceKeys(t, t[n].0);
  }

  /** What the loops over the first n + 1 objects collect: that of the first n, then that of object n's instances. */
  lemma ScanObjectStep(t: Topo, n: nat, q: string)
    requires n < |t|
    ensures ScanPairs(t, NestedPairs(Keys(t)[..n + 1], InstanceLister(t)), q)
      == ScanPairs(t, NestedPairs(Keys(t)[..n], InstanceLister(t)), q) + ScanPairs(t, PairsOf(t[n].0, InstanceKeys(t, t[n].0)), q)
  {
    NestedPairsStep(t, n);
    ScanAppend(t, NestedPairs(Keys(t)[..n], InstanceLister(t)), PairsOf(t[n].0, InstanceKeys(t, t[n].0)), q);
  }

  /** The loops over the first n objects collect a prefix of what the loops over all objects collect. */
  lemma ScanObjectsPrefix(t: Topo, n: nat, q: string)
    requires n <= |t|
    ensures ScanPairs(t, NestedPairs(Keys(t)[..n], InstanceLister(t)), q) <= ScanPairs(t, AllPairs(t), q)
  {
    NestedPairsPrefix(Keys(t), n, InstanceLister(t));
    ScanPrefix(t, NestedPairs(Keys(t)[..n], InstanceLister(t)), AllPairs(t), q);
  }

  /** A reference walk: every matching resource stored anywhere in an instance map, no lookups. */
  function InstanceHits(im: InstanceMap, q: string): seq<string>
    decreases |im|
  {
    if |im| == 0 then [] else InstanceHits(im[..|im| - 1], q) + ResourceMatches(im[|im| - 1].1, q)
  }

  /** A reference walk: every matching resource stored anywhere in the topology, no lookups. */
  function Hits(t: Topo, q: string): seq<string>
    decreases |t|
  {
    if |t| == 0 then [] else Hits(t[..|t| - 1], q) + InstanceHits(t[|t| - 1].1, q)
  }

  lemma HitsSnoc(t: Topo, n: nat, q: string)
    requires 0 < n <= |t|
    ensures Hits(t[..n], q) == Hits(t[..n - 1], q) + InstanceHits(t[n - 1].1, q)
  {
    assert t[..n][..n - 1] == t[..n - 1];
  }

  /** Some resource stored at object j, instance k, position m has path p and a name matching q. */
  predicate Stored(t: Topo, q: string, p: string)
  {
    exists j, k, m :: 0 <= j < |t| && 0 <= k < |t[j].1| && 0 <= m < |t[j].1[k].1| &&
      t[j].1[k].1[m].1 == p && Lower(t[j].1[k].1[m].0) == Lower(q)
  }

  predicate StoredIn(im: InstanceMap, q: string, p: string)
  {
    exists k, m :: 0 <= k < |im| && 0 <= m < |im[k].1| && im[k].1[m].1 == p && Lower(im[k].1[m].0) == Lower(q)
  }

  lemma {:induction false} InstanceHitsMembership(im: InstanceMap, q: string, p: string)
    ensures p in InstanceHits(im, q) <==> StoredIn(im, q, p)
    decreases |im|
  {
    if |im| > 0 {
      var init := im[..|im| - 1];
      InstanceHitsMembership(init, q, p);
      assert forall k :: 0 <= k < |init| ==> init[k] == im[k];
      ResourceMatchesMembership(im[|im| - 1].1, q, p);
      if p in ResourceMatches(im[|im| - 1].1, q) {
        var m :| 0 <= m < |im[|im| - 1].1| && im[|im| - 1].1[m].1 == p && Lower(im[|im| - 1].1[m].0) == Lower(q);
        assert StoredIn(im, q, p);
      }
    }
  }

  /** The reference walk finds exactly the stored resources whose name matches. */
  lemma {:induction false} HitsMembership(t: Topo, q: string, p: string)
    ensures p in Hits(t, q) <==> Stored(t, q, p)
    decreases |t|
  {
    if |t| > 0 {
      var init := t[..|t| - 1];
      HitsMembership(init, q, p);
      InstanceHitsMembership(t[|t| - 1].1, q, p);
      assert forall j :: 0 <= j < |init| ==> init[j] == t[j];
      if StoredIn(t[|t| - 1].1, q, p) {
        var k, m :| 0 <= k < |t[|t| - 1].1| && 0 <= m < |t[|t| - 1].1[k].1| &&
          t[|t| - 1].1[k].1[m].1 == p && Lower(t[|t| - 1].1[k].1[m].0) == Lower(q);
        assert Stored(t, q, p);
      }
      if Stored(t, q, p) {
        var j, k, m :| 0 <= j < |t| && 0 <= k < |t[j].1| && 0 <= m < |t[j].1[k].1| &&
          t[j].1[k].1[m].1 == p && Lower(t[j].1[k].1[m].0) == Lower(q);
        if j < |t| - 1 {
          assert Stored(init, q, p);
        } else {
          assert StoredIn(t[|t| - 1].1, q, p);
        }
      }
    }
  }

  lemma {:induction false} ScanInstancesIsInstanceHits(t: Topo, o: string, im: InstanceMap, m: nat, q: string)
    requires Get(t, o) == Some(im) && UniqueKeys(im) && m <= |im|
    ensures ScanPairs(t, PairsOf(o, Keys(im[..m])), q) == InstanceHits(im[..m], q)
    decreases m
  {
    if m > 0 {
      ScanInstancesIsInstanceHits(t, o, im, m - 1, q);
      LookupAt(t, o, im, m - 1, q);
      ScanInstanceStep(t, o, im, m, q);
      HitsPrefixSnoc(im, m, q);
    }
  }

  /** One more instance of object o adds what the lookup of that instance collects. */
  lemma ScanInstanceStep(t: Topo, o: string, im: InstanceMap, m: nat, q: string)
    requires 0 < m <= |im| && MatchesAt(t, o, im[m - 1].0, q) == ResourceMatches(im[m - 1].1, q)
    ensures ScanPairs(t, PairsOf(o, Keys(im[..m])), q)
      == ScanPairs(t, PairsOf(o, Keys(im[..m - 1])), q) + ResourceMatches(im[m - 1].1, q)
  {
    var ks := Keys(im[..m - 1]);
    PairsOfPrefixSnoc(o, im, m);
    ScanSnoc(t, PairsOf(o, ks), (o, im[m - 1].0), q);
  }

  lemma PairsOfPrefixSnoc(o: string, im: InstanceMap, m: nat)
    requires 0 < m <= |im|
    ensures PairsOf(o, Keys(im[..m])) == PairsOf(o, Keys(im[..m - 1])) + [(o, im[m - 1].0)]
  {
    KeysPrefixSnoc(im, m);
    PairsOfSnoc(o, Keys(im[..m - 1]), im[m - 1].0);
  }

  /** Looking up the key of an instance of o finds that instance's resources. */
  lemma LookupAt(t: Topo, o: string, im: InstanceMap, j: nat, q: string)
    requires Get(t, o) == Some(im) && UniqueKeys(im) && j < |im|
    ensures MatchesAt(t, o, im[j].0, q) == ResourceMatches(im[j].1, q)
  {
    GetAt(im, j);
  }

  lemma KeysPrefixSnoc<V>(d: Dict<V>, m: nat)
    requires 0 < m <= |d|
    ensures Keys(d[..m]) == Keys(d[..m - 1]) + [d[m - 1].0]
  {
    assert d[..m][..m - 1] == d[..m - 1];
  }

  lemma HitsPrefixSnoc(im: InstanceMap, m: nat, q: string)
    requires 0 < m <= |im|
    ensures InstanceHits(im[..m], q) == InstanceHits(im[..m - 1], q) + ResourceMatches(im[m - 1].1, q)
  {
    assert im[..m][..m - 1] == im[..m - 1];
  }

  /** The instances of the object at position j, scanned by lookup, collect what the reference walk finds in them. */
  lemma ScanObjectIsInstanceHits(t: Topo, j: nat, q: string)
    requires WellFormed(t) && j < |t|
    ensures ScanPairs(t, PairsOf(t[j].0, InstanceKeys(t, t[j].0)), q) == InstanceHits(t[j].1, q)
  {
    var im := t[j].1;
    GetAt(t, j);
    ScanInstancesIsInstanceHits(t, t[j].0, im, |im|, q);
    assert im[..|im|] == im;
  }

  /**
   * When scanning each object's instances by lookup collects what the
   * reference walk finds in that object, scanning every (object, instance)
   * pair of the first n objects collects what the reference walk finds in
   * them, in the same order.
   */
  lemma {:induction false} ScanAllIsHits(t: Topo, n: nat, q: string)
    requires n <= |t|
    requires forall j :: 0 <= j < |t| ==> ScanPairs(t, PairsOf(t[j].0, InstanceKeys(t, t[j].0)), q) == InstanceHits(t[j].1, q)
    ensures ScanPairs(t, NestedPairs(Keys(t)[..n], InstanceLister(t)), q) == Hits(t[..n], q)
    decreases n
  {
    if n > 0 {
      ScanAllIsHits(t, n - 1, q);
      ScanObjectStep(t, n - 1, q);
      HitsSnoc(t, n, q);
    }
  }

  /** With distinct keys at every level, scanning all pairs by lookup collects exactly what the reference walk finds, in order. */
  lemma ScanAllPairs(t: Topo, q: string)
    requires WellFormed(t)
    ensures ScanPairs(t, AllPairs(t), q) == Hits(t, q)
  {
    forall j | 0 <= j < |t|
      ensures ScanPairs(t, PairsOf(t[j].0, InstanceKeys(t, t[j].0)), q) == InstanceHits(t[j].1, q)
    {
      ScanObjectIsInstanceHits(t, j, q);
    }
    ScanAllIsHits(t, |t|, q);
    assert Keys(t)[..|t|] == Keys(t);
    assert t[..|t|] == t;
  }

  /** A reference walk: the matching resources of every instance with id i in an instance map, no lookups. */
  function IdHitsIn(im: InstanceMap, i: string, q: string): seq<string>
    decreases |im|
  {
    if |im| == 0 then []
    else IdHitsIn(im[..|im| - 1], i, q) + if im[|im| - 1].0 == i then ResourceMatches(im[|im| - 1].1, q) else []
  }

  /** A reference walk: the matching resources of instance i of every object, objects in order, no lookups. */
  function IdHits(t: Topo, i: string, q: string): seq<string>
    decreases |t|
  {
    if |t| == 0 then [] else IdHits(t[..|t| - 1], i, q) + IdHitsIn(t[|t| - 1].1, i, q)
  }

  /** An instance map without the id i holds nothing under it. */
  lemma {:induction false} IdHitsInNone(im: InstanceMap, i: string, q: string)
    requires i !in Keys(im)
    ensures IdHitsIn(im, i, q) == []
    decreases |im|
  {
    if |im| > 0 {
      var init := im[..|im| - 1];
      assert Keys(im)[|im| - 1] == im[|im| - 1].0;
      assert forall j :: 0 <= j < |init| ==> Keys(init)[j] == Keys(im)[j];
      IdHitsInNone(init, i, q);
    }
  }

  /** With distinct ids, the walk for the id of the instance at position j finds exactly that instance's matches. */
  lemma {:induction false} IdHitsInAt(im: InstanceMap, j: nat, q: string)
    requires UniqueKeys(im) && j < |im|
    ensures IdHitsIn(im, im[j].0, q) == ResourceMatches(im[j].1, q)
    decreases |im|
  {
    var init := im[..|im| - 1];
    if j == |im| - 1 {
      LastKeyFresh(im);
      IdHitsInNone(init, im[j].0, q);
    } else {
      UniqueInit(im, j);
      IdHitsInAt(init, j, q);
    }
  }

  /** With distinct keys, the last key is not a key of the items before it. */
  lemma LastKeyFresh<V>(d: Dict<V>)
    requires UniqueKeys(d) && |d| > 0
    ensures d[|d| - 1].0 !in Keys(d[..|d| - 1])
  {
    var init := d[..|d| - 1];
    forall k | 0 <= k < |init| ensures Keys(init)[k] != d[|d| - 1].0 {
      assert init[k] == d[k];
    }
  }

  /** Dropping the last item keeps keys distinct, keeps item j, and the dropped key differs from item j's. */
  lemma UniqueInit<V>(d: Dict<V>, j: nat)
    requires UniqueKeys(d) && j < |d| - 1
    ensures UniqueKeys(d[..|d| - 1]) && d[..|d| - 1][j] == d[j] && d[|d| - 1].0 != d[j].0
  {
  }

  /** With distinct ids, looking up id i collects what the walk for i finds. */
  lemma IdHitsInIsLookup(im: InstanceMap, i: string, q: string)
    requires UniqueKeys(im)
    ensures IdHitsIn(im, i, q) == match Get(im, i) case None => [] case Some(rm) => ResourceMatches(rm, q)
  {
    if Get(im, i).None? {
      GetSpec(im, i);
      IdHitsInNone(im, i, q);
    } else {
      var j := FindKey(im, i);
      IdHitsInAt(im, j, q);
    }
  }

  /**
   * When looking up instance i of each object collects what the walk for i
   * finds in it, scanning (object, i) for the first n objects collects
   * what the walk finds in them, in order.
   */
  lemma {:induction false} ScanEveryObjectIsIdHits(t: Topo, n: nat, i: string, q: string)
    requires n <= |t|
    requires forall j :: 0 <= j < |t| ==> MatchesAt(t, t[j].0, i, q) == IdHitsIn(t[j].1, i, q)
    ensures ScanPairs(t, EveryObject(t, i)[..n], q) == IdHits(t[..n], i, q)
    decreases n
  {
    if n > 0 {
      ScanEveryObjectIsIdHits(t, n - 1, i, q);
      ScanEveryObjectStep(t, n, i, q);
      IdHitsSnoc(t, n, i, q);
    }
  }

  lemma ScanEveryObjectStep(t: Topo, n: nat, i: string, q: string)
    requires 0 < n <= |t|
    ensures ScanPairs(t, EveryObject(t, i)[..n], q) == ScanPairs(t, EveryObject(t, i)[..n - 1], q) + MatchesAt(t, t[n - 1].0, i, q)
  {
    var ps := EveryObject(t, i);
    assert ps[..n] == ps[..n - 1] + [(t[n - 1].0, i)];
    ScanSnoc(t, ps[..n - 1], (t[n - 1].0, i), q);
  }

  lemma IdHitsSnoc(t: Topo, n: nat, i: string, q: string)
    requires 0 < n <= |t|
    ensures IdHits(t[..n], i, q) == IdHits(t[..n - 1], i, q) + IdHitsIn(t[n - 1].1, i, q)
  {
    assert t[..n][..n - 1] == t[..n - 1];
  }

  /** With distinct keys at every level, scanning instance i of every object by lookup collects exactly what the walk for i finds. */
  lemma ScanEveryObject(t: Topo, i: string, q: string)
    requires WellFormed(t)
    ensures ScanPairs(t, EveryObject(t, i), q) == IdHits(t, i, q)
  {
    forall j | 0 <= j < |t| ensures MatchesAt(t, t[j].0, i, q) == IdHitsIn(t[j].1, i, q) {
      GetAt(t, j);
      IdHitsInIsLookup(t[j].1, i, q);
    }
    ScanEveryObjectIsIdHits(t, |t|, i, q);
    assert EveryObject(t, i)[..|t|] == EveryObject(t, i);
    assert t[..|t|] == t;
  }
}
