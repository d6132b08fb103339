# LeshanRestAPI resource resolver, in Dafny

This project models the core of the `LeshanRestAPI` Python package. The package is a
REST client for a Leshan LwM2M server. A `Client` holds `page_objects`, the topology of
one LwM2M client: object name → instance id → resource name → resource path
(`/3/0/9`). Every REST verb first resolves the caller's query
`(resource, object_, instance)` to one path with `__searchDictionary`. It then sends
one HTTP request to `requestUrl + path`; observe and discover append `/observe` and
`/discover` to that address.

The model covers:

- **The resolver.** `__searchDictionary` and its helper `__searchInstances` appear twice.
  - As a specification in module `Resolver`. `Plan` gives the (object, instance) pairs a
    query scans, in scan order, or the exception raised before scanning. `Classify` turns
    the collected matches into one path, "not found" or "ambiguous". `Resolve` composes
    the two.
  - As imperative methods of class `LeshanClient.Client` that follow the source's loops.
    `SearchInstances` is the inner loop over one instance's resources. `SearchAll`,
    `SearchEveryObject` and `SearchObject` are the loops over objects and instances.
    `SearchDictionary` holds the decision tree.
  - Each method is proved equal to the specification. The specification is related to a
    lookup-free reference walk over the whole topology (`Topology.Hits`).
- **Topology and dictionaries.** Module `Topology` models Python dicts as
  sequences of (key, value) pairs in insertion order. `Get` is `dict.get`, `Put` is
  `d[k] = v`, and `LowerKeys` is the comprehension that lower-cases the object keys of a
  freshly scraped topology.
- **Text operations.** Module `Text` covers ASCII `str.lower()`, `str.replace`,
  `split('/')[-1]`, `in` on strings, what `int()` accepts, and `str()` of an int.
- **Request shaping.** These parts are in `LeshanClient`:
  - the base address and client name derived in `__init__`;
  - the method, URL, body and timeout of each verb's request;
  - `raise_for_status`;
  - `read`'s extraction of `content.value`.
- **The HTTP transport.** It is a function parameter `Request -> Response` of each verb.
  The constructor receives `page_objects` in place of the scrape or cache read that
  produces it.
- **Exceptions.** They are values of `Outcomes.Error`, returned in `Outcomes.Result`.

### Sharp edges of the code as written

The model follows the code. The source's own comments describe some intents that the code does not reach:

- The swap branch's comment (line 209) says it handles a caller who swapped object
  and instance. Its comment at line 215 says that a caller who gave no real object is
  served by a loop over every object. That loop is never reached. With no instance,
  `instance.lower()` at line 213 raises `AttributeError` on `None` before the
  `'None'` test, so an id in the object slot alone crashes. The same id passed as the
  instance finds the resource (`Resolver.IdInObjectSlotAloneFails`).
- The `'None'` test at line 216 compares a lower-cased string with `'None'`, so it can
  never hold (`Text.LowerIsNeverNone`, `Resolver.SwappedSearchesOnePair`). The method
  still has the branch.
- A named object is indexed directly at line 229 when no instance is given, so an
  unknown name raises `KeyError`. With an instance, the lookup in `__searchInstances`
  fails quietly and the search reports `LookupError` (`Resolver.UnknownObjectName`).
- The object name is lower-cased (line 226) before it is looked up. A named lookup
  therefore succeeds only on lower-cased keys, as the HTML scrape stores them at
  line 320 (`Resolver.BatteryOfDeviceFound`, `Resolver.BatteryOfDeviceNeedsLowerKeys`).
  The XML path (`__getSourceFromXML`, line 303) stores object names as written, so
  with `models` given a named query on an object whose name has capitals raises
  `KeyError` there.
- The comment at line 64 says a URL without 'clients' is repaired. The repair reads
  `requestUrl` before anything has assigned it, so such a URL makes the constructor
  raise `AttributeError` (`LeshanClient.ClientEndpoint`).
- Line 66 drops '/default' wherever it occurs, not only the trailing page suffix
  (`LeshanClient.DropInnerDefault`). A client whose name starts with 'default' loses
  that prefix with the slash before it: 'h/#/clients/default-01' gives the REST base
  'h/api/clients-01' and the client name 'clients-01'
  (`LeshanClient.DefaultPrefixedName`, `LeshanClient.DefaultDashZeroOne`).

## Model

| member | source | states |
|---|---|---|
| Text.Lower | LeshanRestAPI/__init__.py:257 | str.lower() keeps the length and folds each ASCII capital to its lower-case letter, leaving every other character alone |
| Text.LowerIsNeverNone | LeshanRestAPI/__init__.py:213-216 | a lower-cased string is never 'None', so the swap branch's comparison with 'None' is never true |
| Text.IntLiteralIgnoresCase | LeshanRestAPI/__init__.py:210-226 | whether int() accepts a string does not change when its letters change case |
| Text.Contains | LeshanRestAPI/__init__.py:64 | `p in s` holds exactly when p occurs in s at some index |
| Text.ReplaceAbsent | LeshanRestAPI/__init__.py:66 | str.replace changes nothing when the pattern does not occur |
| Text.ReplaceChars | LeshanRestAPI/__init__.py:66 | every character after str.replace came from the input or from the replacement |
| Text.ReplaceRemovesChar | LeshanRestAPI/__init__.py:66 | replacing a character by text without it leaves no occurrence of it |
| Text.LastSegment | LeshanRestAPI/__init__.py:68 | split('/')[-1] holds no '/', is a suffix of the string, and is preceded by '/' unless it is the whole string |
| Text.LastSegmentOfJoin | LeshanRestAPI/__init__.py:107 | the last segment of head + '/' + field is field when field holds no '/' |
| Text.DecimalString | LeshanRestAPI/__init__.py:203 | str(n) of an int is accepted by int(), starts with '-' exactly when n is negative, never with '+', has no leading zero after the sign, and int() parses it back to n |
| Text.NatDigits | LeshanRestAPI/__init__.py:235 | the digits of a non-negative int are non-empty, all decimal digits, denote that int, and are "0" for zero and otherwise start with a non-zero digit |
| Text.ContainsTail | LeshanRestAPI/__init__.py:66 | a pattern that occurs in the tail of a string occurs in the string |
| Text.ContainsHasChar | LeshanRestAPI/__init__.py:66 | every character of a pattern that occurs in a string is a character of that string |
| Text.ReplaceSkip | LeshanRestAPI/__init__.py:66 | where the pattern does not start the string, replacing keeps the first character and goes on in the rest |
| Text.DecimalStringInjective | LeshanRestAPI/__init__.py:235 | distinct ints give distinct str() |
| Text.ReplaceCharAppend | LeshanRestAPI/__init__.py:66 | replacing a one-character pattern in a + b is replacing it in a and in b separately |
| Text.ReplaceCharOnce | LeshanRestAPI/__init__.py:66 | a single '#' between two '#'-free stretches becomes the replacement, and nothing else changes |
| Topology.Keys | LeshanRestAPI/__init__.py:197 | d.keys() lists every key once, in insertion order |
| Topology.GetSpec | LeshanRestAPI/__init__.py:253 | d.get(k) is None exactly when k is not a key, and otherwise returns a value stored under k |
| Topology.GetAt | LeshanRestAPI/__init__.py:229 | with distinct keys, indexing by the key of an item returns that item's value |
| Topology.PutGet | LeshanRestAPI/__init__.py:320 | after d[k] = v, k maps to v and every other key maps to what it mapped to before |
| Topology.PutNew | LeshanRestAPI/__init__.py:320 | assigning a key that is not yet present appends it at the end |
| Topology.PutUnique | LeshanRestAPI/__init__.py:320 | assignment keeps keys distinct |
| Topology.LowerKeysGet | LeshanRestAPI/__init__.py:320 | in {k.lower(): v}, a lower-cased name maps to the value of the last original key that folds to it |
| Topology.LowerKeysShape | LeshanRestAPI/__init__.py:320 | the comprehension's keys are distinct and all lower-case |
| Topology.LastFoldingSome | LeshanRestAPI/__init__.py:320 | a lower-cased name has a value exactly when some original key folds to it |
| Topology.LowerKeysOfLowered | LeshanRestAPI/__init__.py:320 | a dict whose keys are already distinct and lower-case is unchanged by the comprehension |
| Topology.LowerKeysIdempotent | LeshanRestAPI/__init__.py:320 | applying the comprehension twice is the same as once |
| Topology.LookupIgnoresCase | LeshanRestAPI/__init__.py:226-229 | after lower-casing the keys, a lower-cased object name is found exactly when some scraped key matches it ignoring case |
| Topology.ResourceMatches | LeshanRestAPI/__init__.py:256-258 | the inner loop collects at most one path per resource |
| Topology.ResourceMatchesMembership | LeshanRestAPI/__init__.py:256-258 | a path is collected exactly when some resource with that path has a name equal to the query ignoring case |
| Topology.ResourceMatchesAppend | LeshanRestAPI/__init__.py:256-258 | what the inner loop collects over two runs of resources is what it collects over each, in order |
| Topology.ScanAppend | LeshanRestAPI/__init__.py:196-199 | what the search collects over two runs of pairs is what it collects over each, in order |
| Topology.ScanPrefix | LeshanRestAPI/__init__.py:258-262 | the matches list only grows: scanning a prefix of the pairs collects a prefix of the matches |
| Topology.ScanMembership | LeshanRestAPI/__init__.py:253-258 | a path is collected exactly when one of the scanned pairs yields it |
| Topology.CollectPermutation | LeshanRestAPI/__init__.py:196-199 | visiting the same pairs in another order collects the same paths, as a multiset |
| Topology.ScanPermutation | LeshanRestAPI/__init__.py:196-199 | scanning a permutation of the pairs collects a permutation of the matches |
| Topology.PairsOf | LeshanRestAPI/__init__.py:229-231 | the inner loop over one object visits (object, id) for each instance id, in order |
| Topology.EveryObject | LeshanRestAPI/__init__.py:204-206 | the loop over objects visits (object, instance) for each object key, in order |
| Topology.NestedPairsPrefix | LeshanRestAPI/__init__.py:196-199 | after any number of objects, the nested loops have visited a prefix of all pairs |
| Topology.ScanObjectStep | LeshanRestAPI/__init__.py:196-199 | one more object adds exactly what its instances collect, after what came before |
| Topology.ScanObjectsPrefix | LeshanRestAPI/__init__.py:196-199 | what the first n objects collect is a prefix of what all objects collect |
| Topology.InstanceHitsMembership | LeshanRestAPI/__init__.py:256-258 | the reference walk of an instance map finds exactly the stored paths whose names match |
| Topology.HitsMembership | LeshanRestAPI/__init__.py:196-199 | the reference walk of the topology finds exactly the stored paths whose names match |
| Topology.ScanInstancesIsInstanceHits | LeshanRestAPI/__init__.py:253-258 | with distinct instance ids, looking up each id of an object collects what the reference walk finds there |
| Topology.ScanObjectIsInstanceHits | LeshanRestAPI/__init__.py:197-199 | with distinct keys, scanning one object's instances by lookup collects what the reference walk finds in it |
| Topology.ScanAllIsHits | LeshanRestAPI/__init__.py:196-199 | scanning every pair of the first n objects by lookup collects what the reference walk finds in them, in order |
| Topology.FindKey | LeshanRestAPI/__init__.py:229 | a key that a lookup finds sits at some position, holding the value found |
| Topology.IdHitsInNone | LeshanRestAPI/__init__.py:253-254 | an instance map without id i holds nothing under i |
| Topology.IdHitsInAt | LeshanRestAPI/__init__.py:253-258 | with distinct ids, the walk for an instance's id finds exactly that instance's matches |
| Topology.IdHitsInIsLookup | LeshanRestAPI/__init__.py:253-258 | with distinct ids, looking up instance i collects exactly what the lookup-free walk for i finds |
| Topology.ScanEveryObjectIsIdHits | LeshanRestAPI/__init__.py:204-206 | scanning instance i of the first n objects by lookup collects what the walk for i finds in them, in order |
| Topology.ScanEveryObject | LeshanRestAPI/__init__.py:204-206 | on a well-formed topology, the loop over objects with a fixed instance collects exactly what the lookup-free walk for that instance finds, in order |
| Topology.ScanAllPairs | LeshanRestAPI/__init__.py:196-199 | with distinct keys at every level, scanning all pairs by lookup collects exactly what the reference walk finds, in order |
| Resolver.NothingGivenSearchesEverything | LeshanRestAPI/__init__.py:193-199 | with neither object nor instance, a path is returned exactly when one stored resource matches, and it is that resource's path; ambiguity exactly when two or more match; not found exactly when none does |
| Resolver.NamedObjectSearchesItsInstances | LeshanRestAPI/__init__.py:223-231 | with a named object and no instance, on a well-formed topology the outcome is the classification of what a lookup-free walk of that object's instances finds |
| Resolver.NamedPairSearchesOnePair | LeshanRestAPI/__init__.py:232-237 | with a named object (not an integer literal) and an instance, the outcome is the classification of the matches in the one pair of the lower-cased object name and str(instance) |
| Resolver.InstanceGivenSearchesEveryObject | LeshanRestAPI/__init__.py:200-206 | with an instance and no object, on a well-formed topology the outcome is the classification of what a lookup-free walk of instance str(instance) in every object finds |
| Resolver.ResourceNameIgnoresCase | LeshanRestAPI/__init__.py:257 | queries that differ only in letter case give the same outcome, and the ambiguity error quotes the caller's own spelling |
| Resolver.ScanOrderIrrelevant | LeshanRestAPI/__init__.py:239-262 | the outcome of a scan does not depend on the order in which the pairs are visited |
| Resolver.FoundInScope | LeshanRestAPI/__init__.py:243 | a returned path was collected from one of the pairs the query scans |
| Resolver.InstanceIntIsItsString | LeshanRestAPI/__init__.py:235 | an int instance is searched as its decimal string |
| Resolver.ObjectNameIgnoresCase | LeshanRestAPI/__init__.py:213-226 | an object name's letter case never changes the outcome |
| Resolver.SwappedSearchesOnePair | LeshanRestAPI/__init__.py:208-222 | when int() accepts the object argument and the instance is a string, exactly the pair (instance lower-cased, str(object)) is scanned |
| Resolver.SwappedArgumentsAgree | LeshanRestAPI/__init__.py:208-237 | swapping an id and a string object name between the two slots gives the same outcome |
| Resolver.SwappedNeedsStringInstance | LeshanRestAPI/__init__.py:213 | in the swapped form a missing or int instance raises at .lower() before any scanning |
| Resolver.UnknownObjectName | LeshanRestAPI/__init__.py:226-241 | an unknown object name raises KeyError without an instance, and reports "not found" with one |
| Resolver.MissingInstanceNotFound | LeshanRestAPI/__init__.py:233-241 | a named object without the requested instance reports "not found" |
| Resolver.IdInObjectSlotAloneFails | LeshanRestAPI/__init__.py:200-213 | an id as the instance finds a resource that the same id in the object slot fails on |
| Resolver.SharedNameIsAmbiguous | LeshanRestAPI/__init__.py:196-199 | a resource name that two objects share is ambiguous when neither object nor instance is given |
| Resolver.NamedObjectFindsItsResource | LeshanRestAPI/__init__.py:226-231 | naming an object whose one instance holds one matching resource returns that resource's path |
| Resolver.BatteryAloneIsAmbiguous | LeshanRestAPI/__init__.py:260-262 | 'battery' under both 'Device' and 'Connectivity' is ambiguous when asked for alone |
| Resolver.BatteryOfDeviceFound | LeshanRestAPI/__init__.py:226-231 | with lower-cased object keys, asking for 'battery' of 'Device' returns '/3/0/9' |
| Resolver.BatteryOfDeviceNeedsLowerKeys | LeshanRestAPI/__init__.py:226-229 | on the object keys as scraped, asking for 'battery' of 'Device' raises KeyError for 'device' |
| LeshanClient.ClientEndpoint | LeshanRestAPI/__init__.py:63-68 | the derivation fails exactly when the URL lacks 'clients'; otherwise requestUrl holds no '#' and the client name is its last '/' segment; a URL with neither '#' nor '/default' is kept unchanged |
| LeshanClient.CachedClientEndpoint | LeshanRestAPI/__init__.py:63-68 | for the URL Server.cacheClients builds (line 47), host + '/#/clients/' + name with no '#' in host or name and no '/' in name, requestUrl is host + '/api/clients/' + name and the client name is name, provided host + '/api/clients/' + name holds no '/default' (so the host has none and the name does not start with 'default') |
| LeshanClient.CachedRequestUrl | LeshanRestAPI/__init__.py:66 | in host + '/#/clients/' + name the '#' becomes 'api' and nothing else changes |
| LeshanClient.RequestUrlOfHash | LeshanRestAPI/__init__.py:66 | a URL with one '#' and no '/default' turns into the URL with 'api' in place of the '#' |
| LeshanClient.DefaultPageEndpoint | LeshanRestAPI/__init__.py:63-68 | for host + '/#/clients/' + name + '/default' with the same conditions on host and name, including that host + '/api/clients/' + name holds no '/default', the suffix is dropped: requestUrl is host + '/api/clients/' + name and the client name is name, not 'default' |
| LeshanClient.DefaultPrefixedName | LeshanRestAPI/__init__.py:63-68 | for host + '/#/clients/default' + rest, where rest has no '#', no '/' and no '/default' and host + '/api/clients' holds no '/default', requestUrl is host + '/api/clients' + rest and the client name is 'clients' + rest: a name starting with 'default' loses that prefix and its slash |
| LeshanClient.DefaultDashZeroOne | LeshanRestAPI/__init__.py:63-68 | the client page 'h/#/clients/default-01' gives requestUrl 'h/api/clients-01' and client name 'clients-01' |
| LeshanClient.RequestUrl | LeshanRestAPI/__init__.py:66 | url.replace('#', 'api').replace('/default', '') leaves no '#', and keeps a URL that has neither |
| LeshanClient.DefaultRequestUrl | LeshanRestAPI/__init__.py:66 | the request URL of host + '/#/clients/' + name + '/default' is host + '/api/clients/' + name |
| LeshanClient.DefaultPageHash | LeshanRestAPI/__init__.py:66 | in host + '/#/clients/' + name + '/default' the '#' becomes 'api' and nothing else changes |
| LeshanClient.DropTrailingDefault | LeshanRestAPI/__init__.py:66 | replacing '/default' by nothing removes a trailing '/default' from a string that holds no other one, and keeps the rest |
| LeshanClient.DropInnerDefault | LeshanRestAPI/__init__.py:66 | replacing '/default' by nothing removes the first occurrence wherever it stands, keeps what precedes it, and goes on replacing in what follows |
| LeshanClient.RequestUrlFacts | LeshanRestAPI/__init__.py:66 | replacing '#' by 'api' and dropping '/default' leaves no '#', and changes nothing when neither occurs |
| LeshanClient.RequestFor | LeshanRestAPI/__init__.py:82-169 | each verb's HTTP method; its URL, which is requestUrl + path, plus '/observe' for observe and '/discover' for discover; its timeout; and a body only for write, carrying the text and the path's last segment as the id |
| LeshanClient.WriteIdIsResourceId | LeshanRestAPI/__init__.py:106-107 | a write to /object/instance/resource sends the resource's own id |
| LeshanClient.CheckReply | LeshanRestAPI/__init__.py:84 | raise_for_status passes a reply exactly when it is not 4xx or 5xx; a transport failure raises |
| LeshanClient.ReadValue | LeshanRestAPI/__init__.py:88-92 | read returns content.value when the reply has it; a missing key raises KeyError naming the resource; indexing a non-object raises TypeError |
| LeshanClient.Client.constructor | LeshanRestAPI/__init__.py:57-70 | a client keeps its URL and topology and the derived requestUrl and client name |
| LeshanClient.Client.Open | LeshanRestAPI/__init__.py:57-70 | constructing a client fails exactly when the URL lacks 'clients'; otherwise a new client is returned |
| LeshanClient.Client.SearchInstances | LeshanRestAPI/__init__.py:245-264 | the per-instance loop appends the matching paths to the matches it was given, raises once two are held, and leaves them as they were when the pair is missing |
| LeshanClient.Client.SearchAll | LeshanRestAPI/__init__.py:196-199 | the nested loops over every object and instance end as the specification's scan of all pairs |
| LeshanClient.Client.SearchEveryObject | LeshanRestAPI/__init__.py:203-206 | the loop over objects with a fixed instance ends as the specification's scan of those pairs |
| LeshanClient.Client.SearchObject | LeshanRestAPI/__init__.py:229-231 | the loop over one object's instances continues the given matches as the specification's scan of those pairs |
| LeshanClient.Client.SearchDictionary | LeshanRestAPI/__init__.py:184-243 | the search returns what the specification Resolve gives for the query: the one path, not found, ambiguous, or the exception of the branch; it only reads page_objects, so a repeated query has the same outcome |
| LeshanClient.Client.Call | LeshanRestAPI/__init__.py:80-84 | a verb sends nothing when resolution fails, and otherwise sends its request for the resolved path and reports the reply's outcome |
| LeshanClient.Client.ReadResource | LeshanRestAPI/__init__.py:73-92 | read sends GET requestUrl + path and returns content.value, or the resolution, HTTP or missing-value error |
| LeshanClient.Client.WriteResource | LeshanRestAPI/__init__.py:94-109 | write sends PUT requestUrl + path with body {id: last segment of the path, value: text}, and returns None unless the resolution or the reply raised |
| LeshanClient.Client.ObserveResource | LeshanRestAPI/__init__.py:111-125 | observe sends POST requestUrl + path + '/observe', and returns None unless the resolution or the reply raised |
| LeshanClient.Client.DiscoverResource | LeshanRestAPI/__init__.py:127-141 | discover sends GET requestUrl + path + '/discover', and returns None unless the resolution or the reply raised |
| LeshanClient.Client.ExecuteResource | LeshanRestAPI/__init__.py:143-156 | execute sends POST requestUrl + path, and returns None unless the resolution or the reply raised |
| LeshanClient.Client.DeleteResource | LeshanRestAPI/__init__.py:158-171 | delete sends DELETE requestUrl + path, and returns None unless the resolution or the reply raised |
| LeshanClient.ThermometerValue | LeshanRestAPI/__init__.py:193-199 | 'Value' alone, in a topology where only 'temp' instance '0' holds it, resolves to '/3303/0/5700' |
| LeshanClient.ReadTemperature | LeshanRestAPI/__init__.py:73-92 | reading 'Value' over a transport that answers {"content": {"value": 21.5}} sends a GET and returns 21.5 |

## Left out

- Topology acquisition is not modelled: Selenium, the BeautifulSoup HTML parser, the XML model parser and the on-disk JSON cache (`__getSource`, `__getSourceFromXML`, `__getSourceFromHTML`, `__fetchHTML`, `__setBrowser`, `__cacheClient`, `__parseHTML`). They are browser, file and parser I/O. The topology is an input to the constructor, and only the key-lowercasing comprehension of `__getSourceFromHTML` is modelled.
- The `IOError` that `__getSourceFromHTML` raises for an empty scrape is part of that acquisition and is not modelled.
- Freshly scraped instance keys are ints, while lookups use `str(instance)`. Instance keys are modelled as strings, as they are after the JSON cache round-trip.
- HTTP mechanics are not modelled. The `requests` calls are one transport function. `json.loads` failures and non-object JSON values other than text are left out. The `refresh` and `models` constructor arguments only steer acquisition.
- The `Server` class (`getClients`, `cacheClients`) lists clients over the network and is not modelled. Only the client URL that `cacheClients` builds is modelled, in `LeshanClient.CachedClientEndpoint`.
- `assertread` is a one-line comparison wrapper around `read` and is not modelled.
- LRest.py, GetSource.py, LeshanControlMeasurement, runner.py and setup.py are not part of this model. They are an abandoned draft, duplicated scraping glue, timed and threaded measurement, and packaging.
- Text.IsIntLiteral: accepts an optional sign followed by ASCII digits. Python's int() also accepts surrounding whitespace, '_' separators and non-ASCII digits.
- Text.Lower: folds ASCII letters only. Python's str.lower() also folds other Unicode letters.
- The `matches` list is one Python list appended to in place and shared by all `__searchInstances` calls. The model passes it by value and takes the returned list back. That is the same result, since every caller reassigns `matches` from the return value.
- LeshanClient.Client.WriteResource: the written value is text. Python accepts any JSON-serialisable value.
- Types other than None, int and str for `object_` and `instance` are not modelled. For example, a float object would pass `int()`.
