/**
 * The decision tree of Client.__searchDictionary as a specification: which
 * (object, instance) pairs a query scans, in what order, and what outcome
 * the matches it collects lead to. The loops that carry it out are
 * Client.SearchDictionary and its helpers.
 */
module Resolver {
  import opened Outcomes
  import opened Text
  import opened Topology

  /** A query argument as a caller passes it: omitted (None), an int, or a str. */
  datatype Arg = Absent | Int(n: int) | Str(s: string)

  /** str(a). */
  function PyStr(a: Arg): string
  {
    match a
    case Absent => "None"
    case Int(n) => DecimalString(n)
    case Str(s) => s
  }

  /** Whether int(a) returns rather than raising ValueError. */
  predicate ParsesAsInt(a: Arg)
  {
    a.Int? || (a.Str? && IsIntLiteral(a.s))
  }

  /**
   * The pairs the search scans, in scan order, or the exception raised
   * before anything is scanned.
   *  - nothing given: every instance of every object;
   *  - an instance only: str(instance) under every object;
   *  - an object that int() accepts: the arguments were swapped, so the
   *    pair (instance.lower(), str(object)) is scanned; .lower() raises on
   *    None and on an int, and the comparison with 'None' is never true;
   *  - any other object: its lower-cased name, with every one of its
   *    instances (a KeyError when the name is not a key) or with
   *    str(instance).
   */
  function Plan(t: Topo, obj: Arg, inst: Arg): Result<seq<Pair>>
  {
    if obj.Absent? then
      if inst.Absent? then Ok(AllPairs(t))
      else Ok(EveryObject(t, PyStr(inst)))
    else if ParsesAsInt(obj) then
      if !inst.Str? then Err(NotAString)
      else
        var name := Lower(inst.s);
        if name == "None" then Ok(EveryObject(t, PyStr(obj)))
        else Ok([(name, PyStr(obj))])
    else
      var name := Lower(obj.s);
      if inst.Absent? then
        match Get(t, name)
        case None => Err(UnknownObject(name))
        case Some(instances) => Ok(PairsOf(name, Keys(instances)))
      else Ok([(name, PyStr(inst))])
  }

  /** The shared matches list after collecting ms: the search raises as soon as it holds two paths. */
  function Accumulate(ms: seq<string>, q: string): Result<seq<string>>
  {
    if |ms| > 1 then Err(Ambiguous(q)) else Ok(ms)
  }

  /** The outcome of a completed scan that collected ms. */
  function Classify(ms: seq<string>, q: string): Result<string>
  {
    if |ms| > 1 then Err(Ambiguous(q))
    else if |ms| == 0 then Err(NotFound)
    else Ok(ms[0])
  }

  /** __searchDictionary(q, obj, inst) against the topology t. */
  function Resolve(t: Topo, q: string, obj: Arg, inst: Arg): Result<string>
  {
    match Plan(t, obj, inst)
    case Err(e) => Err(e)
    case Ok(ps) => Classify(ScanPairs(t, ps, q), q)
  }

  /**
   * With no object and no instance, every resource of the topology is a
   * candidate: the search returns a path exactly when one stored resource
   * matches, that resource's path; it reports ambiguity exactly when two or
   * more match and "not found" exactly when none does.
   */
  lemma NothingGivenSearchesEverything(t: Topo, q: string)
    requires WellFormed(t)
    ensures Resolve(t, q, Absent, Absent).Ok? <==> |Hits(t, q)| == 1
    ensures Resolve(t, q, Absent, Absent).Ok? ==> Stored(t, q, Resolve(t, q, Absent, Absent).value)
    ensures Resolve(t, q, Absent, Absent) == Err(Ambiguous(q)) <==> |Hits(t, q)| > 1
    ensures Resolve(t, q, Absent, Absent) == Err(NotFound) <==> forall p :: !Stored(t, q, p)
  {
    ScanAllPairs(t, q);
    var hits := Hits(t, q);
    if |hits| > 0 {
      HitsMembership(t, q, hits[0]);
    }
    forall p | Stored(t, q, p) ensures |hits| > 0 {
      HitsMembership(t, q, p);
    }
  }

  /**
   * A named object with no instance: on a well-formed topology the search
   * classifies exactly what the lookup-free walk of that object's instances
   * finds.
   */
  lemma NamedObjectSearchesItsInstances(t: Topo, q: string, name: string, im: InstanceMap)
    requires WellFormed(t) && !IsIntLiteral(name) && Get(t, Lower(name)) == Some(im)
    ensures Resolve(t, q, Str(name), Absent) == Classify(InstanceHits(im, q), q)
  {
    var j := FindKey(t, Lower(name));
    assert Plan(t, Str(name), Absent) == Ok(PairsOf(t[j].0, InstanceKeys(t, t[j].0)));
    ScanObjectIsInstanceHits(t, j, q);
  }

  /**
   * An instance with no object: on a well-formed topology the search
   * classifies exactly what the lookup-free walk of instance str(inst) of
   * every object finds.
   */
  lemma InstanceGivenSearchesEveryObject(t: Topo, q: string, inst: Arg)
    requires WellFormed(t) && !inst.Absent?
    ensures Resolve(t, q, Absent, inst) == Classify(IdHits(t, PyStr(inst), q), q)
  {
    ScanEveryObject(t, PyStr(inst), q);
  }

  /**
   * A named object with an instance id searches that one pair only: the
   * object name lower-cased and the instance id as its string.
   */
  lemma NamedPairSearchesOnePair(t: Topo, q: string, o: string, inst: Arg)
    requires !IsIntLiteral(o) && !inst.Absent?
    ensures Resolve(t, q, Str(o), inst) == Classify(MatchesAt(t, Lower(o), PyStr(inst), q), q)
  {
    assert Plan(t, Str(o), inst) == Ok([(Lower(o), PyStr(inst))]);
    ScanOne(t, (Lower(o), PyStr(inst)), q);
  }

  /** The matches collected for two queries that lower-case alike are the same. */
  lemma {:induction false} ResourceMatchesFold(rm: ResourceMap, q1: string, q2: string)
    requires Lower(q1) == Lower(q2)
    ensures ResourceMatches(rm, q1) == ResourceMatches(rm, q2)
    decreases |rm|
  {
    if |rm| > 0 {
      ResourceMatchesFold(rm[..|rm| - 1], q1, q2);
    }
  }

  lemma {:induction false} CollectPointwise(ps: seq<Pair>, f: Pair -> seq<string>, g: Pair -> seq<string>)
    requires forall pair :: f(pair) == g(pair)
    ensures Collect(ps, f) == Collect(ps, g)
    decreases |ps|
  {
    if |ps| > 0 {
      CollectPointwise(ps[..|ps| - 1], f, g);
    }
  }

  /**
   * Resource names are compared lower-cased on both sides, so two queries
   * that differ only in letter case give the same outcome; only the name
   * quoted in an ambiguity error is the caller's own.
   */
  lemma ResourceNameIgnoresCase(t: Topo, q1: string, q2: string, obj: Arg, inst: Arg)
    requires Lower(q1) == Lower(q2)
    ensures Resolve(t, q1, obj, inst) == Err(Ambiguous(q1)) <==> Resolve(t, q2, obj, inst) == Err(Ambiguous(q2))
    ensures Resolve(t, q1, obj, inst) != Err(Ambiguous(q1)) ==> Resolve(t, q1, obj, inst) == Resolve(t, q2, obj, inst)
  {
    forall pair: Pair ensures Finder(t, q1)(pair) == Finder(t, q2)(pair) {
      match Get(t, pair.0)
      case None =>
      case Some(im) =>
        match Get(im, pair.1)
        case None =>
        case Some(rm) => ResourceMatchesFold(rm, q1, q2);
    }
    if Plan(t, obj, inst).Ok? {
      CollectPointwise(Plan(t, obj, inst).value, Finder(t, q1), Finder(t, q2));
    }
  }

  /**
   * The outcome of a scan does not depend on the order the pairs are
   * visited in: the list only grows, and the search fails once it holds two
   * paths, so only how many paths are collected, and which one when there
   * is just one, matters.
   */
  lemma ScanOrderIrrelevant(t: Topo, ps1: seq<Pair>, ps2: seq<Pair>, q: string)
    requires multiset(ps1) == multiset(ps2)
    ensures Classify(ScanPairs(t, ps1, q), q) == Classify(ScanPairs(t, ps2, q), q)
  {
    var m1, m2 := ScanPairs(t, ps1, q), ScanPairs(t, ps2, q);
    ScanPermutation(t, ps1, ps2, q);
    assert |m1| == |multiset(m1)| == |multiset(m2)| == |m2|;
    if |m1| == 1 {
      assert multiset(m1) == multiset{m1[0]} by { assert m1 == [m1[0]]; }
      assert multiset(m2) == multiset{m2[0]} by { assert m2 == [m2[0]]; }
    }
  }

  /** A returned path is always one collected from one of the pairs the query scans. */
  lemma FoundInScope(t: Topo, q: string, obj: Arg, inst: Arg)
    requires Resolve(t, q, obj, inst).Ok?
    ensures Plan(t, obj, inst).Ok?
    ensures exists j :: (0 <= j < |Plan(t, obj, inst).value| &&
      Resolve(t, q, obj, inst).value in MatchesAt(t, Plan(t, obj, inst).value[j].0, Plan(t, obj, inst).value[j].1, q))
  {
    var ps := Plan(t, obj, inst).value;
    ScanMembership(t, ps, q, Resolve(t, q, obj, inst).value);
  }

  /** An instance passed as an int is searched as its decimal string, except in the swapped form. */
  lemma InstanceIntIsItsString(t: Topo, q: string, obj: Arg, n: int)
    requires !ParsesAsInt(obj)
    ensures Resolve(t, q, obj, Int(n)) == Resolve(t, q, obj, Str(DecimalString(n)))
  {
  }

  /**
   * Both object name slots lower-case the name they are given, so an object
   * name's letter case never changes the outcome.
   */
  lemma ObjectNameIgnoresCase(t: Topo, q: string, a: string, b: string, inst: Arg)
    requires Lower(a) == Lower(b)
    ensures Resolve(t, q, Str(a), inst) == Resolve(t, q, Str(b), inst)
  {
    IntLiteralIgnoresCase(a, b);
    if IsIntLiteral(a) {
      forall i | 0 <= i < |a| ensures a[i] == b[i] {
        LowerKeepsNonLetters(a, b, i);
      }
      assert a == b;
    }
  }

  /**
   * When int() accepts the object argument and the instance is a string,
   * exactly the one pair (instance lower-cased, str(object)) is scanned:
   * the branch that would scan every object is never taken.
   */
  lemma SwappedSearchesOnePair(t: Topo, q: string, obj: Arg, name: string)
    requires ParsesAsInt(obj)
    ensures Resolve(t, q, obj, Str(name)) == Classify(MatchesAt(t, Lower(name), PyStr(obj), q), q)
  {
    LowerIsNeverNone(name);
    ScanSnoc(t, [], (Lower(name), PyStr(obj)), q);
    assert [] + [(Lower(name), PyStr(obj))] == [(Lower(name), PyStr(obj))];
  }

  /**
   * Swapping an object name and an instance id between the two slots gives
   * the same outcome: the id in the object slot is recognised by int() and
   * the two are put back in place.
   */
  lemma SwappedArgumentsAgree(t: Topo, q: string, name: string, id: Arg)
    requires ParsesAsInt(id) && !IsIntLiteral(name)
    ensures Resolve(t, q, id, Str(name)) == Resolve(t, q, Str(name), id)
  {
    SwappedSearchesOnePair(t, q, id, name);
    ScanSnoc(t, [], (Lower(name), PyStr(id)), q);
    assert [] + [(Lower(name), PyStr(id))] == [(Lower(name), PyStr(id))];
  }

  /** In the swapped form a missing or int instance cannot be lower-cased, so the search raises before scanning. */
  lemma SwappedNeedsStringInstance(t: Topo, q: string, obj: Arg, inst: Arg)
    requires ParsesAsInt(obj) && !inst.Str?
    ensures Resolve(t, q, obj, inst) == Err(NotAString)
  {
  }

  /**
   * An object name that is not a key: without an instance, indexing the
   * topology raises KeyError; with an instance, the lookup by get finds no
   * pair and the search reports that nothing was found.
   */
  lemma UnknownObjectName(t: Topo, q: string, name: string, inst: Arg)
    requires !IsIntLiteral(name) && Get(t, Lower(name)).None?
    ensures Resolve(t, q, Str(name), Absent) == Err(UnknownObject(Lower(name)))
    ensures inst != Absent ==> Resolve(t, q, Str(name), inst) == Err(NotFound)
  {
    ScanSnoc(t, [], (Lower(name), PyStr(inst)), q);
    assert [] + [(Lower(name), PyStr(inst))] == [(Lower(name), PyStr(inst))];
  }

  /**
   * An (object, instance) pair that is not in the topology yields nothing
   * for that pair, so asking for it by name reports "not found".
   */
  lemma MissingInstanceNotFound(t: Topo, q: string, name: string, inst: Arg)
    requires !IsIntLiteral(name) && inst != Absent
    requires Get(t, Lower(name)).Some? && Get(Get(t, Lower(name)).value, PyStr(inst)).None?
    ensures Resolve(t, q, Str(name), inst) == Err(NotFound)
  {
    ScanSnoc(t, [], (Lower(name), PyStr(inst)), q);
    assert [] + [(Lower(name), PyStr(inst))] == [(Lower(name), PyStr(inst))];
  }

  /**
   * Passing an instance id in the object slot and no instance does not
   * behave like passing it as the instance: on a topology with one object
   * 'device' whose instance '0' holds 'battery', the second finds the
   * resource and the first raises on None.lower().
   */
  lemma IdInObjectSlotAloneFails()
    ensures var t: Topo := [("device", [("0", [("battery", "/3/0/9")])])];
      Resolve(t, "battery", Absent, Str("0")) == Ok("/3/0/9") &&
      Resolve(t, "battery", Str("0"), Absent) == Err(NotAString)
  {
    var t: Topo := [("device", [("0", [("battery", "/3/0/9")])])];
    assert IsIntLiteral("0");
    assert Lower("battery") == "battery";
    ScanSnoc(t, [], ("device", "0"), "battery");
  }

  /**
   * A resource name two objects share: with neither object nor instance
   * given, the search raises the ambiguity, whatever the paths.
   */
  lemma SharedNameIsAmbiguous(o1: string, i1: string, r1: string, p1: string,
                               o2: string, i2: string, r2: string, p2: string, q: string)
    requires o1 != o2 && Lower(r1) == Lower(q) && Lower(r2) == Lower(q)
    ensures Resolve([(o1, [(i1, [(r1, p1)])]), (o2, [(i2, [(r2, p2)])])], q, Absent, Absent) == Err(Ambiguous(q))
  {
    var t: Topo := [(o1, [(i1, [(r1, p1)])]), (o2, [(i2, [(r2, p2)])])];
    assert WellFormed(t);
    NothingGivenSearchesEverything(t, q);
    OneInstanceHits(i1, r1, p1, q);
    OneInstanceHits(i2, r2, p2, q);
    HitsSnoc(t, 1, q);
    HitsSnoc(t, 2, q);
    assert t[..0] == [];
    assert t[..2] == t;
  }

  /** The reference walk over one instance holding one matching resource finds its path. */
  lemma OneInstanceHits(i: string, r: string, p: string, q: string)
    requires Lower(r) == Lower(q)
    ensures InstanceHits([(i, [(r, p)])], q) == [p]
  {
    var im: InstanceMap := [(i, [(r, p)])];
    var rm: ResourceMap := [(r, p)];
    assert im[..0] == [] && rm[..0] == [];
  }

  /**
   * Naming an object whose only instance holds one resource, under a name
   * that does not parse as an int, finds that resource's path.
   */
  lemma NamedObjectFindsItsResource(t: Topo, q: string, name: string, i: string, r: string, p: string)
    requires !IsIntLiteral(name) && Get(t, Lower(name)) == Some([(i, [(r, p)])]) && Lower(r) == Lower(q)
    ensures Resolve(t, q, Str(name), Absent) == Ok(p)
  {
    var im: InstanceMap := [(i, [(r, p)])];
    var o := Lower(name);
    KeysOne(im);
    PairsOfOne(o, i);
    assert Plan(t, Str(name), Absent) == Ok([(o, i)]);
    OneResourceMatches(t, o, i, r, p, q);
    ScanOne(t, (o, i), q);
  }

  /** Two objects that both hold a resource named 'Battery', with the keys as scraped. */
  function TwoBatteries(): Topo
  {
    [("Device", [("0", [("Battery", "/3/0/9")])]),
     ("Connectivity", [("0", [("Battery", "/4/0/2")])])]
  }

  /** A resource name two objects share: the bare query is ambiguous. */
  lemma BatteryAloneIsAmbiguous()
    ensures Resolve(TwoBatteries(), "battery", Absent, Absent) == Err(Ambiguous("battery"))
  {
    assert Lower("Battery") == Lower("battery");
    SharedNameIsAmbiguous("Device", "0", "Battery", "/3/0/9", "Connectivity", "0", "Battery", "/4/0/2", "battery");
  }

  /** Naming the object finds the resource once the object keys are lower-cased, as the scrape stores them. */
  lemma BatteryOfDeviceFound()
    ensures Resolve(LowerKeys(TwoBatteries()), "battery", Str("Device"), Absent) == Ok("/3/0/9")
  {
    var t := TwoBatteries();
    assert Lower("Battery") == Lower("battery");
    assert Lower("Device") == "device";
    assert !IsIntLiteral("Device");
    LowerKeysGet(t, "device");
    assert LastFolding(t, "device") == Some(t[0].1) by {
      assert Lower(t[1].0) != "device";
      assert t[..1] == [t[0]];
    }
    NamedObjectFindsItsResource(LowerKeys(t), "battery", "Device", "0", "Battery", "/3/0/9");
  }

  /** On the keys as written the same query raises KeyError: the object name is lower-cased before the lookup. */
  lemma BatteryOfDeviceNeedsLowerKeys()
    ensures Resolve(TwoBatteries(), "battery", Str("Device"), Absent) == Err(UnknownObject("device"))
  {
    var t := TwoBatteries();
    assert Lower("Device") == "device";
    assert !IsIntLiteral("Device");
    GetSpec(t, "device");
    assert Keys(t) == ["Device", "Connectivity"];
  }
}
