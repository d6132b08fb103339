/**
 * The Client class of the LeshanRestAPI package: the REST base address
 * derived from the client page's URL, the resource search over
 * page_objects, and the six REST verbs. The HTTP library is a transport
 * function passed to each verb; page_objects is passed to the constructor
 * in place of the scrape or cache read that produces it.
 */
module LeshanClient {
  import opened Outcomes
  import opened Text
  import opened Topology
  import opened Resolver

  /** The default timeout, in seconds, of every REST call. */
  const TIMEOUT := 4

  /** The REST base address and the client name derived from a client page URL. */
  datatype Endpoint = Endpoint(requestUrl: string, client: string)

  /**
   * The address derivation of __init__. The branch meant to turn 'client'
   * into 'clients' reads requestUrl before anything has assigned it, so a
   * URL without 'clients' raises AttributeError. Otherwise '#' becomes
   * 'api', '/default' is dropped, and the client name is the last path
   * segment.
   */
  function ClientEndpoint(url: string): (r: Result<Endpoint>)
    ensures r.Err? <==> !Contains(url, "clients")
    ensures r.Err? ==> r.error == UnsetRequestUrl
    ensures r.Ok? ==> '#' !in r.value.requestUrl
    ensures r.Ok? ==> '/' !in r.value.client
    ensures r.Ok? ==> |r.value.client| <= |r.value.requestUrl|
    ensures r.Ok? ==> r.value.client == r.value.requestUrl[|r.value.requestUrl| - |r.value.client|..]
    ensures r.Ok? && |r.value.client| < |r.value.requestUrl| ==>
      r.value.requestUrl[|r.value.requestUrl| - |r.value.client| - 1] == '/'
    ensures r.Ok? && '#' !in url && !Contains(url, "/default") ==> r.value.requestUrl == url
  {
    if !Contains(url, "clients") then Err(UnsetRequestUrl)
    else
      var requestUrl := RequestUrl(url);
      Ok(Endpoint(requestUrl, LastSegment(requestUrl)))
  }

  /** url.replace('#', 'api').replace('/default', ''): no '#' is left, and a URL with neither is kept. */
  function RequestUrl(url: string): (r: string)
    ensures '#' !in r
    ensures '#' !in url && !Contains(url, "/default") ==> r == url
  {
    RequestUrlFacts(url);
    Replace(Replace(url, "#", "api"), "/default", "")
  }

  /** '#' is gone from requestUrl, and a URL with neither '#' nor '/default' is kept as it is. */
  lemma RequestUrlFacts(url: string)
    ensures '#' !in Replace(Replace(url, "#", "api"), "/default", "")
    ensures '#' !in url && !Contains(url, "/default") ==> Replace(Replace(url, "#", "api"), "/default", "") == url
  {
    var api := Replace(url, "#", "api");
    ReplaceRemovesChar(url, '#', "api");
    if '#' in Replace(api, "/default", "") {
      ReplaceChars(api, "/default", "", '#');
    }
    if '#' !in url && !Contains(url, "/default") {
      CharAbsent(url, '#');
      ReplaceAbsent(url, "#", "api");
      ReplaceAbsent(url, "/default", "");
    }
  }

  /**
   * The URL Server.cacheClients builds for a client, host + '/#/clients/' +
   * name, gives the REST base host + '/api/clients/' + name and the client
   * name back.
   */
  lemma CachedClientEndpoint(host: string, name: string)
    requires '#' !in host && '#' !in name && '/' !in name
    requires !Contains(host + "/api/clients/" + name, "/default")
    ensures ClientEndpoint(host + "/#/clients/" + name) == Ok(Endpoint(host + "/api/clients/" + name, name))
  {
    CachedUrlNamesClients(host, name);
    CachedRequestUrl(host, name);
    ClientNameOf(host, name);
  }

  /** The last segment of a client's REST base is the client name. */
  lemma ClientNameOf(host: string, name: string)
    requires '/' !in name
    ensures LastSegment(host + "/api/clients/" + name) == name
  {
    assert host + "/api/clients/" + name == host + "/api/clients" + "/" + name;
    LastSegmentOfJoin(host + "/api/clients", name);
  }

  lemma CachedUrlNamesClients(host: string, name: string)
    ensures Contains(host + "/#/clients/" + name, "clients")
  {
    var url := host + "/#/clients/" + name;
    assert url[|host| + 3..|host| + 10] == "clients";
    assert OccursAt(url, "clients", |host| + 3);
  }

  /** '#' becomes 'api' in a cached client's URL, and there is no '/default' to drop. */
  lemma CachedRequestUrl(host: string, name: string)
    requires '#' !in host && '#' !in name
    requires !Contains(host + "/api/clients/" + name, "/default")
    ensures Replace(Replace(host + "/#/clients/" + name, "#", "api"), "/default", "") == host + "/api/clients/" + name
  {
    var a, b := host + "/", "/clients/" + name;
    CachedUrlShape(host, name);
    assert '#' !in b;
    RequestUrlOfHash(a, b);
  }

  lemma CachedUrlShape(host: string, name: string)
    ensures host + "/#/clients/" + name == (host + "/") + "#" + ("/clients/" + name)
    ensures host + "/api/clients/" + name == (host + "/") + "api" + ("/clients/" + name)
  {
  }

  /** The request URL of a page URL with a single '#' and no '/default' around it. */
  lemma RequestUrlOfHash(a: string, b: string)
    requires '#' !in a && '#' !in b && !Contains(a + "api" + b, "/default")
    ensures Replace(Replace(a + "#" + b, "#", "api"), "/default", "") == a + "api" + b
  {
    ReplaceCharOnce(a, b, '#', "api");
    ReplaceAbsent(a + "api" + b, "/default", "");
  }

  /**
   * A page URL that ends in '/default', host + '/#/clients/' + name +
   * '/default', gives the same REST base and client name as the URL
   * without it: the suffix is dropped, so the client name is not 'default'.
   */
  lemma DefaultPageEndpoint(host: string, name: string)
    requires '#' !in host && '#' !in name && '/' !in name
    requires !Contains(host + "/api/clients/" + name, "/default")
    ensures ClientEndpoint(host + "/#/clients/" + name + "/default") == Ok(Endpoint(host + "/api/clients/" + name, name))
  {
    DefaultUrlNamesClients(host, name);
    DefaultRequestUrl(host, name);
    ClientNameOf(host, name);
  }

  lemma DefaultUrlNamesClients(host: string, name: string)
    ensures Contains(host + "/#/clients/" + name + "/default", "clients")
  {
    var url := host + "/#/clients/" + name + "/default";
    assert url[|host| + 3..|host| + 10] == "clients";
    assert OccursAt(url, "clients", |host| + 3);
  }

  /** The request URL of such a page: 'api' for the '#', and '/default' dropped. */
  lemma DefaultRequestUrl(host: string, name: string)
    requires '#' !in host && '#' !in name
    requires !Contains(host + "/api/clients/" + name, "/default")
    ensures RequestUrl(host + "/#/clients/" + name + "/default") == host + "/api/clients/" + name
  {
    DefaultPageHash(host, name);
    DefaultUrlShape(host, name);
    DropTrailingDefault(host + "/api/clients/" + name);
  }

  /** The '#' of such a URL becomes 'api' and the rest is kept. */
  lemma DefaultPageHash(host: string, name: string)
    requires '#' !in host && '#' !in name
    ensures Replace(host + "/#/clients/" + name + "/default", "#", "api") == host + "/api/clients/" + name + "/default"
  {
    var a, b := host + "/", "/clients/" + name + "/default";
    DefaultUrlShape(host, name);
    NoHashAround(name);
    ReplaceCharOnce(a, b, '#', "api");
  }

  lemma DefaultUrlShape(host: string, name: string)
    ensures host + "/#/clients/" + name + "/default" == (host + "/") + ['#'] + ("/clients/" + name + "/default")
    ensures host + "/api/clients/" + name + "/default" == (host + "/") + "api" + ("/clients/" + name + "/default")
    ensures host + "/api/clients/" + name + "/default" == (host + "/api/clients/" + name) + "/default"
  {
  }

  lemma NoHashAround(name: string)
    requires '#' !in name
    ensures '#' !in "/clients/" + name + "/default"
  {
  }

  /**
   * Dropping '/default' removes a trailing '/default' and keeps the rest:
   * no occurrence can straddle the join, since '/' starts the pattern and
   * does not occur in it again.
   */
  lemma DropTrailingDefault(x: string)
    requires !Contains(x, "/default")
    ensures Replace(x + "/default", "/default", "") == x
  {
    DropInnerDefault(x, "");
    assert x + "/default" + "" == x + "/default";
    assert Replace("", "/default", "") == "";
  }

  /**
   * Line 66 drops every '/default', not only a trailing one: whatever
   * follows the first occurrence is kept, with its own occurrences dropped.
   */
  lemma {:induction false} DropInnerDefault(x: string, y: string)
    requires !Contains(x, "/default")
    ensures Replace(x + "/default" + y, "/default", "") == x + Replace(y, "/default", "")
    decreases |x|
  {
    if |x| == 0 {
      DropLeadingDefault(y);
      assert x + "/default" + y == "/default" + y;
    } else {
      var s, r := x + "/default" + y, Replace(y, "/default", "");
      NoDefaultAtFront(x, y);
      ReplaceSkip(s, "/default", "");
      JoinTail(x, y);
      ContainsTail(x, "/default");
      DropInnerDefault(x[1..], y);
      ConsBack(x, r);
    }
  }

  lemma JoinTail(x: string, y: string)
    requires |x| > 0
    ensures (x + "/default" + y)[0] == x[0]
    ensures (x + "/default" + y)[1..] == x[1..] + "/default" + y
  {
  }

  lemma ConsBack(x: string, r: string)
    requires |x| > 0
    ensures [x[0]] + (x[1..] + r) == x + r
  {
    assert x == [x[0]] + x[1..];
  }

  lemma DropLeadingDefault(y: string)
    ensures Replace("/default" + y, "/default", "") == Replace(y, "/default", "")
  {
    var s := "/default" + y;
    assert s[..8] == "/default";
    assert s[8..] == y;
  }

  /** With x non-empty and free of '/default', the joined string does not start with it. */
  lemma NoDefaultAtFront(x: string, y: string)
    requires |x| > 0 && !Contains(x, "/default")
    ensures (x + "/default" + y)[..8] != "/default"
  {
    var t := "/default" + y;
    DefaultThenRest(x, y);
    if |x| >= 8 {
      LongHeadKeepsFront(x, t);
    } else {
      ShortHeadBringsSlash(x, t);
    }
  }

  lemma DefaultThenRest(x: string, y: string)
    ensures x + "/default" + y == x + ("/default" + y)
    ensures |"/default" + y| >= 8 && ("/default" + y)[0] == '/'
  {
  }

  lemma LongHeadKeepsFront(x: string, t: string)
    requires |x| >= 8 && !Contains(x, "/default")
    ensures (x + t)[..8] != "/default"
  {
    assert (x + t)[..8] == x[..8];
    assert !OccursAt(x, "/default", 0);
  }

  lemma ShortHeadBringsSlash(x: string, t: string)
    requires 0 < |x| < 8 && |t| >= 8 && t[0] == '/'
    ensures (x + t)[..8] != "/default"
  {
    SlashOnlyFirst(|x|);
    assert (x + t)[..8][|x|] == '/';
  }

  lemma SlashOnlyFirst(k: int)
    requires 0 < k < 8
    ensures "/default"[k] != '/'
  {
  }

  /**
   * A client whose name starts with 'default' loses that prefix together with
   * the slash before it: the request URL no longer ends in '/clients/<name>'
   * and the client name becomes 'clients' followed by the rest of the name.
   */
  lemma DefaultPrefixedName(host: string, rest: string)
    requires '#' !in host && '#' !in rest && '/' !in rest
    requires !Contains(host + "/api/clients", "/default") && !Contains(rest, "/default")
    ensures ClientEndpoint(host + "/#/clients/default" + rest) == Ok(Endpoint(host + "/api/clients" + rest, "clients" + rest))
  {
    CachedUrlNamesClients(host, "default" + rest);
    assert host + "/#/clients/" + ("default" + rest) == host + "/#/clients/default" + rest;
    PrefixedRequestUrl(host, rest);
    PrefixedClientName(host, rest);
  }

  lemma PrefixedClientName(host: string, rest: string)
    requires '/' !in rest
    ensures LastSegment(host + "/api/clients" + rest) == "clients" + rest
  {
    assert '/' !in "clients" + rest by {
      assert forall k :: 0 <= k < |"clients"| ==> "clients"[k] != '/';
    }
    assert host + "/api/clients" + rest == (host + "/api") + "/" + ("clients" + rest);
    LastSegmentOfJoin(host + "/api", "clients" + rest);
  }

  lemma PrefixedRequestUrl(host: string, rest: string)
    requires '#' !in host && '#' !in rest
    requires !Contains(host + "/api/clients", "/default") && !Contains(rest, "/default")
    ensures RequestUrl(host + "/#/clients/default" + rest) == host + "/api/clients" + rest
  {
    PrefixedHash(host, rest);
    PrefixedUrlShape(host, rest);
    DropInnerDefault(host + "/api/clients", rest);
    ReplaceAbsent(rest, "/default", "");
  }

  lemma PrefixedHash(host: string, rest: string)
    requires '#' !in host && '#' !in rest
    ensures Replace(host + "/#/clients/default" + rest, "#", "api") == host + "/api/clients/default" + rest
  {
    var a, b := host + "/", "/clients/default" + rest;
    PrefixedUrlShape(host, rest);
    assert '#' !in b by {
      assert b == "/clients/default" + rest;
      assert forall k :: 0 <= k < |"/clients/default"| ==> "/clients/default"[k] != '#';
    }
    ReplaceCharOnce(a, b, '#', "api");
  }

  lemma PrefixedUrlShape(host: string, rest: string)
    ensures host + "/#/clients/default" + rest == (host + "/") + ['#'] + ("/clients/default" + rest)
    ensures host + "/api/clients/default" + rest == (host + "/") + "api" + ("/clients/default" + rest)
    ensures host + "/api/clients/default" + rest == (host + "/api/clients") + "/default" + rest
  {
  }

  /** The concrete case: client 'default-01' on host 'h'. */
  lemma DefaultDashZeroOne()
    ensures ClientEndpoint("h/#/clients/default-01") == Ok(Endpoint("h/api/clients-01", "clients-01"))
  {
    DefaultAbsentHere();
    DefaultPrefixedName("h", "-01");
    DashZeroOneShape();
  }

  lemma DefaultAbsentHere()
    ensures !Contains("h/api/clients", "/default") && !Contains("-01", "/default")
  {
    ContainsHasChar("h/api/clients", "/default", 3);
    assert "/default"[3] == 'f';
    assert 'f' !in "h/api/clients";
  }

  lemma DashZeroOneShape()
    ensures "h" + "/#/clients/default" + "-01" == "h/#/clients/default-01"
    ensures "h" + "/api/clients" + "-01" == "h/api/clients-01"
    ensures "clients" + "-01" == "clients-01"
  {
  }

  datatype HttpMethod = GET | PUT | POST | DELETE

  /** The JSON document a write sends: the resource id and the text to write. */
  datatype WriteBody = WriteBody(id: string, value: string)

  /** One HTTP request as the requests library is asked to send it. */
  datatype Request = Request(httpMethod: HttpMethod, url: string, body: Option<WriteBody>, timeout: int)

  /** A decoded JSON document: an object, or any other value as its text. */
  datatype Json = Scalar(text: string) | Object(fields: map<string, Json>)

  /** What the transport hands back: a failure before any status, or a status and a body. */
  datatype Response = Unreachable(reason: string) | Reply(status: int, body: Json)

  /** The operations of the REST API; a write carries its text. */
  datatype Verb = Read | Write(text: string) | Observe | Discover | Execute | Delete

  /** The path suffix a verb appends to the resource's address. */
  function Suffix(verb: Verb): string
  {
    match verb
    case Observe => "/observe"
    case Discover => "/discover"
    case _ => ""
  }

  /**
   * The request each verb sends for the resolved path: read and discover
   * GET, write PUT, observe and execute POST, delete DELETE, all at
   * requestUrl + path with the suffix of observe and discover; a write
   * carries the path's last segment as the resource id.
   */
  function RequestFor(requestUrl: string, path: string, verb: Verb, timeout: int): (r: Request)
    ensures |r.url| >= |requestUrl| + |path| && r.url[..|requestUrl| + |path|] == requestUrl + path
    ensures r.url == requestUrl + path <==> !(verb.Observe? || verb.Discover?)
    ensures verb.Observe? ==> r.url == requestUrl + path + "/observe"
    ensures verb.Discover? ==> r.url == requestUrl + path + "/discover"
    ensures r.timeout == timeout
    ensures r.httpMethod == GET <==> verb.Read? || verb.Discover?
    ensures r.httpMethod == PUT <==> verb.Write?
    ensures r.httpMethod == POST <==> verb.Observe? || verb.Execute?
    ensures r.httpMethod == DELETE <==> verb.Delete?
    ensures r.body.Some? <==> verb.Write?
    ensures verb.Write? ==> r.body.value.value == verb.text && r.body.value.id == LastSegment(path)
  {
    var url := requestUrl + path + Suffix(verb);
    assert url[..|requestUrl| + |path|] == requestUrl + path;
    match verb
    case Read => Request(GET, url, None, timeout)
    case Write(text) => Request(PUT, url, Some(WriteBody(LastSegment(path), text)), timeout)
    case Observe => Request(POST, url, None, timeout)
    case Discover => Request(GET, url, None, timeout)
    case Execute => Request(POST, url, None, timeout)
    case Delete => Request(DELETE, url, None, timeout)
  }

  /** The id a write sends for an /object/instance/resource path is the resource's own id. */
  lemma WriteIdIsResourceId(requestUrl: string, obj: string, inst: string, res: string, text: string, timeout: int)
    requires '/' !in res
    ensures RequestFor(requestUrl, "/" + obj + "/" + inst + "/" + res, Write(text), timeout).body
      == Some(WriteBody(res, text))
  {
    LastSegmentOfJoin("/" + obj + "/" + inst, res);
  }

  /** raise_for_status(): a 4xx or 5xx status raises; a transport failure has raised already. */
  function CheckReply(resp: Response): (r: Result<Json>)
    ensures r.Ok? <==> resp.Reply? && !(400 <= resp.status < 600)
    ensures r.Ok? ==> r.value == resp.body
    ensures resp.Unreachable? ==> r == Err(NoResponse(resp.reason))
    ensures resp.Reply? && 400 <= resp.status < 600 ==> r == Err(HttpError(resp.status))
  {
    match resp
    case Unreachable(reason) => Err(NoResponse(reason))
    case Reply(status, body) => if 400 <= status < 600 then Err(HttpError(status)) else Ok(body)
  }

  /**
   * rDict['content']['value']: a missing key is re-raised as a KeyError
   * naming the resource; indexing anything but a JSON object raises
   * TypeError.
   */
  function ReadValue(body: Json, resource: string): (r: Result<Json>)
    ensures r.Ok? <==> (body.Object? && "content" in body.fields
      && body.fields["content"].Object? && "value" in body.fields["content"].fields)
    ensures r.Ok? ==> r.value == body.fields["content"].fields["value"]
    ensures r == Err(NotReadable(resource)) <==> (body.Object? &&
      ("content" !in body.fields || (body.fields["content"].Object? && "value" !in body.fields["content"].fields)))
    ensures r.Err? ==> r.error in {NotReadable(resource), NotAnObject}
  {
    if !body.Object? then Err(NotAnObject)
    else if "content" !in body.fields then Err(NotReadable(resource))
    else
      var content := body.fields["content"];
      if !content.Object? then Err(NotAnObject)
      else if "value" !in content.fields then Err(NotReadable(resource))
      else Ok(content.fields["value"])
  }

  /** The outcome a verb reports once its request has been answered. */
  function Outcome(verb: Verb, resource: string, resp: Response): Result<Json>
  {
    match CheckReply(resp)
    case Err(e) => Err(e)
    case Ok(body) => if verb.Read? then ReadValue(body, resource) else Ok(body)
  }

  /** The None a verb other than read returns, or the exception it raised. */
  function Done(r: Result<Json>): (d: Result<()>)
    ensures d.Ok? <==> r.Ok?
    ensures d.Err? ==> d.error == r.error
  {
    match r
    case Ok(_) => Ok(())
    case Err(e) => Err(e)
  }

  /**
   * The REST client of one Leshan client page. Every field is assigned
   * once, by the constructor, and nothing reassigns it.
   */
  class Client {
    const url: string
    const requestUrl: string
    const client: string
    /** page_objects: object name -> instance id -> resource name -> resource path. */
    const pageObjects: Topo

    /** __init__ for a URL whose address derivation succeeds. */
    constructor (url: string, pageObjects: Topo)
      requires ClientEndpoint(url).Ok?
      ensures this.url == url && this.pageObjects == pageObjects
      ensures Endpoint(requestUrl, client) == ClientEndpoint(url).value
    {
      var endpoint := ClientEndpoint(url).value;
      this.url := url;
      requestUrl := endpoint.requestUrl;
      client := endpoint.client;
      this.pageObjects := pageObjects;
    }

    /** Client(url): the AttributeError of a URL without 'clients', or a new client. */
    static method Open(url: string, pageObjects: Topo) returns (r: Result<Client>)
      ensures r.Err? <==> !Contains(url, "clients")
      ensures r.Err? ==> r.error == UnsetRequestUrl
      ensures r.Ok? ==> fresh(r.value) && r.value.url == url && r.value.pageObjects == pageObjects
      ensures r.Ok? ==> Endpoint(r.value.requestUrl, r.value.client) == ClientEndpoint(url).value
    {
      var endpoint := ClientEndpoint(url);
      if endpoint.Err? {
        return Err(endpoint.error);
      }
      var c := new Client(url, pageObjects);
      return Ok(c);
    }

    /**
     * __searchInstances: appends to matches the path of every resource of
     * instance inst of object obj whose name matches resource, ignoring
     * case, and raises once two paths have been collected. A pair missing
     * from page_objects leaves matches as it was.
     */
    method SearchInstances(resource: string, obj: string, inst: string, matches: seq<string>)
      returns (r: Result<seq<string>>)
      requires |matches| <= 1
      ensures r == Accumulate(matches + MatchesAt(pageObjects, obj, inst, resource), resource)
    {
      var instances := Get(pageObjects, obj);
      if instances.None? {
        assert matches + [] == matches;
        return Ok(matches);
      }
      var resources := Get(instances.value, inst);
      if resources.None? {
        assert matches + [] == matches;
        return Ok(matches);
      }
      var rm: ResourceMap := resources.value;
      var found := matches;
      for k := 0 to |rm|
        invariant found == matches + ResourceMatches(rm[..k], resource)
        invariant |found| <= 1
      {
        assert rm[..k + 1][..k] == rm[..k];
        if Lower(rm[k].0) == Lower(resource) {
          found := found + [rm[k].1];
        }
        if |found| > 1 {
          assert rm == rm[..k + 1] + rm[k + 1..];
          ResourceMatchesAppend(rm[..k + 1], rm[k + 1..], resource);
          return Err(Ambiguous(resource));
        }
      }
      assert rm[..|rm|] == rm;
      return Ok(found);
    }

    /**
     * The search with neither object nor instance: every instance of every
     * object, objects in page_objects order and each object's instances in
     * order, threading one matches list through all of them.
     */
    method SearchAll(resource: string) returns (r: Result<seq<string>>)
      ensures r == Accumulate(ScanPairs(pageObjects, AllPairs(pageObjects), resource), resource)
    {
      var t := pageObjects;
      var matches: seq<string> := [];
      for j := 0 to |t|
        invariant matches == ScanPairs(t, NestedPairs(Keys(t)[..j], InstanceLister(t)), resource)
        invariant |matches| <= 1
      {
        var objKey := t[j].0;
        var step := SearchObject(resource, objKey, InstanceKeys(t, objKey), matches);
        ScanObjectStep(t, j, resource);
        if step.Err? {
          ScanObjectsPrefix(t, j + 1, resource);
          return step;
        }
        matches := step.value;
      }
      assert Keys(t)[..|t|] == Keys(t);
      return Ok(matches);
    }

    /** The search for an instance with no object: instance inst under every object, in page_objects order. */
    method SearchEveryObject(resource: string, inst: string) returns (r: Result<seq<string>>)
      ensures r == Accumulate(ScanPairs(pageObjects, EveryObject(pageObjects, inst), resource), resource)
    {
      var t := pageObjects;
      ghost var plan := EveryObject(t, inst);
      var matches: seq<string> := [];
      for j := 0 to |t|
        invariant matches == ScanPairs(t, plan[..j], resource)
        invariant |matches| <= 1
      {
        var step := SearchInstances(resource, t[j].0, inst, matches);
        assert plan[..j + 1] == plan[..j] + [(t[j].0, inst)];
        ScanSnoc(t, plan[..j], (t[j].0, inst), resource);
        if step.Err? {
          ScanPrefix(t, plan[..j + 1], plan, resource);
          return step;
        }
        matches := step.value;
      }
      assert plan[..|t|] == plan;
      return Ok(matches);
    }

    /**
     * The inner loop over one object's instances: every instance id of
     * instKeys under the object obj, in order, continuing the matches
     * collected so far.
     */
    method SearchObject(resource: string, obj: string, instKeys: seq<string>, matches: seq<string>)
      returns (r: Result<seq<string>>)
      requires |matches| <= 1
      ensures r == Accumulate(matches + ScanPairs(pageObjects, PairsOf(obj, instKeys), resource), resource)
    {
      var t := pageObjects;
      ghost var plan := PairsOf(obj, instKeys);
      var found := matches;
      for k := 0 to |instKeys|
        invariant found == matches + ScanPairs(t, plan[..k], resource)
        invariant |found| <= 1
      {
        var step := SearchInstances(resource, obj, instKeys[k], found);
        assert plan[..k + 1] == plan[..k] + [(obj, instKeys[k])];
        ScanSnoc(t, plan[..k], (obj, instKeys[k]), resource);
        if step.Err? {
          ScanPrefix(t, plan[..k + 1], plan, resource);
          return step;
        }
        found := step.value;
      }
      assert plan[..|instKeys|] == plan;
      return Ok(found);
    }

    /**
     * __searchDictionary: the path of the one resource the query picks
     * out, or the exception the search raises. It only reads page_objects,
     * so the same query always has the same outcome.
     */
    method SearchDictionary(resource: string, obj: Arg, inst: Arg) returns (r: Result<string>)
      ensures r == Resolve(pageObjects, resource, obj, inst)
    {
      var scanned: Result<seq<string>>;
      if obj.Absent? {
        if inst.Absent? {
          assert Plan(pageObjects, obj, inst) == Ok(AllPairs(pageObjects));
          scanned := SearchAll(resource);
        } else {
          assert Plan(pageObjects, obj, inst) == Ok(EveryObject(pageObjects, PyStr(inst)));
          scanned := SearchEveryObject(resource, PyStr(inst));
        }
      } else if ParsesAsInt(obj) {
        if !inst.Str? {
          return Err(NotAString);
        }
        var name := Lower(inst.s);
        var id := PyStr(obj);
        if name == "None" {
          scanned := SearchEveryObject(resource, id);
        } else {
          assert Plan(pageObjects, obj, inst) == Ok([(name, id)]);
          scanned := SearchInstances(resource, name, id, []);
          ScanSnoc(pageObjects, [], (name, id), resource);
        }
      } else {
        var name := Lower(obj.s);
        if inst.Absent? {
          var instances := Get(pageObjects, name);
          if instances.None? {
            return Err(UnknownObject(name));
          }
          assert Plan(pageObjects, obj, inst) == Ok(PairsOf(name, Keys(instances.value)));
          scanned := SearchObject(resource, name, Keys(instances.value), []);
        } else {
          assert Plan(pageObjects, obj, inst) == Ok([(name, PyStr(inst))]);
          scanned := SearchInstances(resource, name, PyStr(inst), []);
          ScanSnoc(pageObjects, [], (name, PyStr(inst)), resource);
        }
      }
      if scanned.Err? {
        return Err(scanned.error);
      }
      if |scanned.value| == 0 {
        return Err(NotFound);
      }
      return Ok(scanned.value[0]);
    }

    /**
     * Resolves the resource, sends the verb's request through transport,
     * and raises on a failed reply; sent is the request, if one was sent.
     */
    method Call(transport: Request -> Response, verb: Verb, resource: string, obj: Arg, inst: Arg, timeout: int)
      returns (sent: Option<Request>, r: Result<Json>)
      ensures Resolve(pageObjects, resource, obj, inst).Err? ==>
        sent == None && r == Err(Resolve(pageObjects, resource, obj, inst).error)
      ensures Resolve(pageObjects, resource, obj, inst).Ok? ==>
        sent == Some(RequestFor(requestUrl, Resolve(pageObjects, resource, obj, inst).value, verb, timeout))
        && r == Outcome(verb, resource, transport(sent.value))
    {
      var path := SearchDictionary(resource, obj, inst);
      if path.Err? {
        return None, Err(path.error);
      }
      var request := RequestFor(requestUrl, path.value, verb, timeout);
      var resp := transport(request);
      return Some(request), Outcome(verb, resource, resp);
    }

    /** read(): GET the resource and return content.value of the reply. */
    method ReadResource(transport: Request -> Response, resource: string, obj: Arg := Absent, inst: Arg := Absent, timeout: int := TIMEOUT)
      returns (sent: Option<Request>, r: Result<Json>)
      ensures Resolve(pageObjects, resource, obj, inst).Err? ==>
        sent == None && r == Err(Resolve(pageObjects, resource, obj, inst).error)
      ensures Resolve(pageObjects, resource, obj, inst).Ok? ==>
        sent == Some(Request(GET, requestUrl + Resolve(pageObjects, resource, obj, inst).value, None, timeout))
        && r == (match CheckReply(transport(sent.value))
                 case Err(e) => Err(e)
                 case Ok(body) => ReadValue(body, resource))
    {
      sent, r := Call(transport, Read, resource, obj, inst, timeout);
    }

    /** write(): PUT {'id': last segment of the path, 'value': text}. */
    method WriteResource(transport: Request -> Response, text: string, resource: string, obj: Arg := Absent, inst: Arg := Absent, timeout: int := TIMEOUT)
      returns (sent: Option<Request>, r: Result<()>)
      ensures Resolve(pageObjects, resource, obj, inst).Err? ==>
        sent == None && r == Err(Resolve(pageObjects, resource, obj, inst).error)
      ensures Resolve(pageObjects, resource, obj, inst).Ok? ==>
        var path := Resolve(pageObjects, resource, obj, inst).value;
        sent == Some(Request(PUT, requestUrl + path, Some(WriteBody(LastSegment(path), text)), timeout))
        && r == Done(CheckReply(transport(sent.value)))
    {
      var reply: Result<Json>;
      sent, reply := Call(transport, Write(text), resource, obj, inst, timeout);
      r := Done(reply);
    }

    /** observe(): POST to the resource's address followed by /observe. */
    method ObserveResource(transport: Request -> Response, resource: string, obj: Arg := Absent, inst: Arg := Absent, timeout: int := TIMEOUT)
      returns (sent: Option<Request>, r: Result<()>)
      ensures Resolve(pageObjects, resource, obj, inst).Err? ==>
        sent == None && r == Err(Resolve(pageObjects, resource, obj, inst).error)
      ensures Resolve(pageObjects, resource, obj, inst).Ok? ==>
        sent == Some(Request(POST, requestUrl + Resolve(pageObjects, resource, obj, inst).value + "/observe", None, timeout))
        && r == Done(CheckReply(transport(sent.value)))
    {
      var reply: Result<Json>;
      sent, reply := Call(transport, Observe, resource, obj, inst, timeout);
      r := Done(reply);
    }

    /** discover(): GET the resource's address followed by /discover. */
    method DiscoverResource(transport: Request -> Response, resource: string, obj: Arg := Absent, inst: Arg := Absent, timeout: int := TIMEOUT)
      returns (sent: Option<Request>, r: Result<()>)
      ensures Resolve(pageObjects, resource, obj, inst).Err? ==>
        sent == None && r == Err(Resolve(pageObjects, resource, obj, inst).error)
      ensures Resolve(pageObjects, resource, obj, inst).Ok? ==>
        sent == Some(Request(GET, requestUrl + Resolve(pageObjects, resource, obj, inst).value + "/discover", None, timeout))
        && r == Done(CheckReply(transport(sent.value)))
    {
      var reply: Result<Json>;
      sent, reply := Call(transport, Discover, resource, obj, inst, timeout);
      r := Done(reply);
    }

    /** execute(): POST to the resource's address. */
    method ExecuteResource(transport: Request -> Response, resource: string, obj: Arg := Absent, inst: Arg := Absent, timeout: int := TIMEOUT)
      returns (sent: Option<Request>, r: Result<()>)
      ensures Resolve(pageObjects, resource, obj, inst).Err? ==>
        sent == None && r == Err(Resolve(pageObjects, resource, obj, inst).error)
      ensures Resolve(pageObjects, resource, obj, inst).Ok? ==>
        sent == Some(Request(POST, requestUrl + Resolve(pageObjects, resource, obj, inst).value, None, timeout))
        && r == Done(CheckReply(transport(sent.value)))
    {
      var reply: Result<Json>;
      sent, reply := Call(transport, Execute, resource, obj, inst, timeout);
      r := Done(reply);
    }

    /** delete(): DELETE the resource's address. */
    method DeleteResource(transport: Request -> Response, resource: string, obj: Arg := Absent, inst: Arg := Absent, timeout: int := TIMEOUT)
      returns (sent: Option<Request>, r: Result<()>)
      ensures Resolve(pageObjects, resource, obj, inst).Err? ==>
        sent == None && r == Err(Resolve(pageObjects, resource, obj, inst).error)
      ensures Resolve(pageObjects, resource, obj, inst).Ok? ==>
        sent == Some(Request(DELETE, requestUrl + Resolve(pageObjects, resource, obj, inst).value, None, timeout))
        && r == Done(CheckReply(transport(sent.value)))
    {
      var reply: Result<Json>;
      sent, reply := Call(transport, Delete, resource, obj, inst, timeout);
      r := Done(reply);
    }
  }

  /** A client page whose only object 'temp' holds the resource 'Value'. */
  function Thermometer(): Topo
  {
    [("temp", [("0", [("Value", "/3303/0/5700")])])]
  }

  lemma ThermometerValue()
    ensures Resolve(Thermometer(), "Value", Absent, Absent) == Ok("/3303/0/5700")
  {
    var t := Thermometer();
    assert Keys(t) == ["temp"];
    assert InstanceLister(t)("temp") == ["0"];
    NestedPairsSnoc([], "temp", InstanceLister(t));
    assert [] + ["temp"] == ["temp"];
    ScanSnoc(t, [], ("temp", "0"), "Value");
    assert [] + [("temp", "0")] == [("temp", "0")];
  }

  /** A successful reply whose content.value is 21.5. */
  function TemperatureReply(): Response
  {
    Reply(200, Object(map["content" := Object(map["value" := Scalar("21.5")])]))
  }

  lemma TemperatureReplyValue()
    ensures CheckReply(TemperatureReply()).Ok?
    ensures ReadValue(CheckReply(TemperatureReply()).value, "Value") == Ok(Scalar("21.5"))
  {
  }

  /**
   * Reading 'Value' from that client over a transport that answers
   * {"content": {"value": 21.5}} sends a GET and returns 21.5.
   */
  method ReadTemperature(url: string) returns (sent: Option<Request>, v: Result<Json>)
    requires Contains(url, "clients")
    ensures sent.Some? && sent.value.httpMethod == GET && sent.value.timeout == TIMEOUT
    ensures v == Ok(Scalar("21.5"))
  {
    var c := new Client(url, Thermometer());
    ThermometerValue();
    TemperatureReplyValue();
    sent, v := c.ReadResource(_ => TemperatureReply(), "Value");
  }
}
