# Ghibli cache: a Dafny model of the entity-graph builder and its refresh shell

`ghibli.py` serves the films of the Studio Ghibli API. It works in three steps:

1. It downloads five collections: films, people, locations, species and vehicles.
2. It turns them into five `id → entity` dicts.
3. It rebuilds them when they are stale.

Each entity keeps references to the others, and every reference is written on both sides. A species lists its films, and each of those films lists the species back.

This project models that builder and the sequential shell around it, then proves what the code promises.

- **`Urls`** (`urls.dfy`) models `get_uuid_from_url`: `url.split('/')[-1]`, with `Split` defined so that joining its pieces with `/` gives the input back.
- **`Records`** (`records.dfy`) models one decoded JSON object.
  - A `Record` is an id plus fields. Each field is a string or a list of strings.
  - `UrlList` is `kwargs.get(key, [])` as a `for` loop sees it. A string is iterated character by character, as Python does.
  - `SingleUrl` is the `if url:` test of a single reference. A non-empty list there makes `url.split` raise.
  - `IndexOf` is the dict comprehension `{r['id']: … for r in recs}`. The last record with a given id wins.
- **`Links`** (`links.dfy`) models the loops `for url in …: target = collection.get(uuid); if target: self.xs.append(target); target.ys.append(self)`.
  - `LinkAll` and `LinkOne` are the loops as methods.
  - `Resolve` and `BackLinks` are their specification.
- **`Graph`** (`graph.dfy`) holds the entities of one build as an arena.
  - There is one row sequence per kind, built from the record by `MakeFilm` … `MakeVehicle`.
  - Each link list becomes a column of row numbers, so a row number plays the part of Python object identity.
  - `Reciprocal` states that every forward column and its back column agree, counting multiplicity.
- **`Builder`** (`builder.dfy`) models the constructors and `__parse_raw_data`.
  - There is one loop per comprehension (`BuildFilms` … `BuildVehicles`).
  - The `Film` and `Species` constructors are written inline in `BuildFilms` and `BuildSpecies`; the species' film loop goes through `LinkGuarded`.
  - The `People`, `Location` and `Vehicle` constructors each have a method: `NewPerson`, `NewLocation` and `NewVehicle`.
  - `Build` runs them in the source's order: films, species, people, locations, vehicles.
  - Each loop is proved equal to a stage function (`FilmsStage` … `VehiclesStage`).
  - `Linked` is the graph of a build that completes. `Parsed` is the graph when a constructor raises part way.
  - `Processed` is the raw data a build actually consumed. A build that stops early is the completed build of that prefix, so everything proved about `Linked` holds of every build.
- **`Properties`** (`properties.dfy`) proves what the finished graph satisfies:
  - reciprocity with multiplicity for every relation;
  - dropped dangling references, for every kind of reference, on the whole graph;
  - optional links set at most once;
  - film lists made only of back links, in processing order;
  - every link target being a published entity.
- **`Scenarios`** (`scenarios.dfy`) runs small concrete collections through the builds, including the dangling-film case and a person whose species reference raises.
- **`Staleness`** (`staleness.dfy`) is the test `(now - _cache_date).seconds > 60`, with Python's `timedelta` normalisation written out.
- **`Cache`** (`cache.dfy`) models the `GhibliCache` object as a class.
  - `rawData`, `data` and `cacheDate` are its fields.
  - `heaps` keeps the graph of every build, and each published table points into one of them.
  - The methods are `GatherData`, `ParseRawData`, `UpdateData` and `CheckData`.
  - The class invariant `Valid` says that every kept graph is well formed, reciprocal and in range, and that every published table indexes rows of the graph it points into. Every method keeps it.
- **`Timer`** (`timer.dfy`) models the loop of `GhibliCacheTimer.run` over given wait outcomes.

Times are whole microseconds on one clock. The current time, the stamp taken after parsing, the downloaded collections and the wait outcomes are all parameters.

### Staleness reads only the seconds component

The cache is stale when `(now - _cache_date).seconds > 60` (`ghibli.py:251`). `timedelta.seconds` is the seconds component of the difference, not its total length. The days are ignored, so the component wraps around every day.

The model keeps that reading:
- `Staleness.DayOldDataIsFresh` shows that data a day and 30 seconds old counts as fresh.
- `Staleness.StalenessRepeatsDaily` shows that the answer repeats every day.
- `Staleness.FutureStampIsStale` shows that a stamp in the future makes the data stale.

### Other quirks the model keeps

- `Vehicle` reads its description, class and length from the keys `classification`, `eye_color` and `hair_color`.
- Its pilot comes from the single string under `people`.
- A URL ending in `/` yields the empty id.

A constructor that raises is modelled too. The entities built before it keep the links it already made, the kinds before it stay published, and the later kinds keep their previous tables.

## Model

| member | source | states |
|---|---|---|
| Urls.Split | ghibli.py:23 | `split` always returns at least one piece |
| Urls.SplitPieces | ghibli.py:23 | no piece contains `/`; there is a single piece exactly when the string has no `/`; the last piece is the text after the last `/` |
| Urls.JoinSplit | ghibli.py:23 | splitting at `/` loses nothing: joining the pieces with `/` gives the string back |
| Urls.GetUuidFromUrl | ghibli.py:22-24 | definition of `url.split('/')[-1]`; its properties are stated by Urls.UuidShape, Urls.UuidIsLastSegment and the three lemmas below them |
| Urls.UuidShape | ghibli.py:22-24 | the id has no `/`, is a suffix of the URL, and is either the whole URL or preceded by `/` |
| Urls.UuidIsLastSegment | ghibli.py:22-24 | any `/`-free suffix that is the whole URL or follows a `/` is the id, so the id is the last segment and nothing else |
| Urls.UuidOfPlainId | ghibli.py:22-24 | a string without `/` is its own id |
| Urls.UuidOfTrailingSlash | ghibli.py:22-24 | a URL ending in `/` has the empty id |
| Urls.UuidOfPrefixedPath | ghibli.py:22-24 | `prefix + "/" + id` yields `id` for any `/`-free id, whatever the prefix |
| Records.UrlList | ghibli.py:61 | definition of `for url in kwargs.get(key, [])`: a missing key gives no URLs, a list its items, a string its characters; what the loop then links is stated by Builder.LinkGuarded, Builder.NewPerson and Properties.ForwardCounted |
| Records.SingleUrl | ghibli.py:96-98 | definition of the `if url:` test; that a reference is followed iff it is a non-empty string, and raises on a non-empty list, is stated by Builder.LinkSingle, Builder.NewPerson, Properties.SpeciesSetOnce, Properties.PilotSetOnce and Scenarios.RaisingPersonStaysOnFilm |
| Records.IndexOfSpec | ghibli.py:280 | the dict's keys are exactly the ids present, and each maps to the last record with that id |
| Records.IndexOfInto | ghibli.py:280 | every published row number is a row of the collection |
| Records.IndexOfUnique | ghibli.py:280 | with unique ids every record is published under its own id |
| Records.IndexOfRow | ghibli.py:280 | with unique ids, record `i` is the value under its id |
| Records.IndexOfSnoc | ghibli.py:280 | one more record in the comprehension maps its id to its own row, replacing any earlier entry |
| Records.IndexOf | ghibli.py:280 | definition of the comprehension `{r['id']: … for r in recs}`; its properties are stated by Records.IndexOfSpec, Records.IndexOfUnique and Records.IndexOfShadowed |
| Records.IndexOfReplaced | ghibli.py:280 | replacing a record by another with the same id leaves the dict's keys and rows unchanged |
| Records.IndexOfShadowed | ghibli.py:280 | a record followed by another with the same id is not published |
| Links.Resolve | ghibli.py:61-66 | at most one link per URL, and every link target is a value of the collection |
| Links.ResolveConcat | ghibli.py:61-66 | resolving a list is resolving its parts in order |
| Links.ResolveDropsDangling | ghibli.py:63-64 | a URL whose id is not in the collection contributes nothing |
| Links.ResolveEmptyIndex | ghibli.py:60 | against an empty collection nothing is linked |
| Links.ResolveCount | ghibli.py:61-66 | target `t` is linked once per URL whose id maps to `t` |
| Links.BackLinksCount | ghibli.py:65-66 | row `j` is on `t`'s back list exactly as often as `t` is on `j`'s forward list |
| Links.BackLinksAscending | ghibli.py:280-293 | back lists hold the rows in the order the records were processed |
| Links.LinkAll | ghibli.py:61-66 | the loop's own list is the resolved targets, and each target's back list gains `self` once per link, nothing else changes |
| Links.LinkOne | ghibli.py:97-102 | the single reference resolves to at most one target, which gains `self` once |
| Graph.MakeFilm | ghibli.py:34-40 | definition of the film's scalar attributes; Properties.FilmListsAreBackLinks states that a film is built from its own fields only |
| Graph.MakeSpecies | ghibli.py:51-55 | definition of the species' scalar attributes; Builder.BuildSpecies states its rows |
| Graph.MakePerson | ghibli.py:76-81 | definition of the person's scalar attributes; Builder.NewPerson states its row |
| Graph.MakeLocation | ghibli.py:113-117 | definition of the location's scalar attributes; Builder.NewLocation states its row |
| Graph.MakeVehicle | ghibli.py:146-150 | definition of the vehicle's scalar attributes; Graph.VehicleReadsMisnamedKeys states which keys it reads |
| Graph.VehicleReadsMisnamedKeys | ghibli.py:146-150 | a vehicle's description, class and length come from `classification`, `eye_color` and `hair_color`; the keys named after them are ignored |
| Graph.MirroredByBackLinks | ghibli.py:65-66 | back lists built by appending `self` per forward link mirror the forward lists with multiplicity |
| Graph.MirroredMembership | ghibli.py:65-66 | under mirroring, `t` is among `j`'s links iff `j` is among `t`'s |
| Graph.MirroredSingle | ghibli.py:100-102 | under mirroring, an optional link set to `t` puts its owner on `t`'s list once, otherwise not at all |
| Builder.ReachSpec | ghibli.py:285-286 | the comprehension stops at the first record whose single reference raises; every record before it passes |
| Builder.ReachFrom | ghibli.py:285-286 | record `p` is always constructed, and the records after it only when it does not raise |
| Builder.LinkGuarded | ghibli.py:60-66 | the `if collection:` guard plus the URL loop link exactly the resolved targets |
| Builder.LinkSingle | ghibli.py:95-102 | raises iff the collection is non-empty and the value is a non-empty list; otherwise links the resolved target, if any, once |
| Builder.BuildFilms | ghibli.py:280 | one film per record with empty link lists, and the dict is the id index |
| Builder.BuildSpecies | ghibli.py:282-283 | the species rows and their film links are the species stage over the films dict |
| Builder.NewPerson | ghibli.py:72-105 | films linked as resolved, species as resolved, the back lists of both gain the person; raises exactly on a malformed species reference |
| Builder.BuildPeople | ghibli.py:285-286 | succeeds iff no record raises; otherwise the graph holds the people up to and including the raising one; the dict is published only on success |
| Builder.NewLocation | ghibli.py:109-137 | films and residents linked as resolved, and the back lists of films and people gain the location |
| Builder.BuildLocations | ghibli.py:288-289 | the location rows and links are the locations stage over the films and people dicts |
| Builder.NewVehicle | ghibli.py:142-171 | films and the pilot linked as resolved; raises exactly on a malformed `people` reference |
| Builder.BuildVehicles | ghibli.py:291-292 | succeeds iff no record raises; otherwise the graph holds the vehicles up to the raising one |
| Builder.Linked | ghibli.py:279-293 | definition of the graph of a completed build; Properties.LinkedReciprocal, Properties.LinkedInRange and the dangling lemmas below state its properties |
| Builder.Parsed | ghibli.py:279-293 | definition of the graph of any build, complete or not; Builder.ParsedIsLinked and Properties.ParsedReciprocal state its properties |
| Builder.Processed | ghibli.py:279-293 | the raw data a build consumes keeps the films and species whole; people and vehicles are cut at the first record that raises |
| Builder.ParsedIsLinked | ghibli.py:279-293 | a build that stops at a raising constructor leaves exactly the graph of a completed build over the records it processed |
| Builder.Build | ghibli.py:279-293 | the order films, species, people, locations, vehicles; how many kinds get published (2, 4 or 5) and exactly when; the graph equals the specified one, is well formed, and each published dict indexes its rows |
| Properties.MirroredAppended | ghibli.py:61-66 | back columns grown from empty lists mirror their forward column |
| Properties.LinkedReciprocal | ghibli.py:280-293 | every relation of a completed build is reciprocal with multiplicity |
| Properties.ForwardCounted | ghibli.py:61-66 | an entity links target `t` once per URL in its record that resolves to `t` |
| Properties.FilmLinksCounted | ghibli.py:57-160 | for species, people, locations and vehicles: entity `j` holds film `f` as often as `f` holds `j`, namely once per film URL resolving to `f` |
| Properties.ResidentsCounted | ghibli.py:129-137 | location `l` lists person `p` as often as `p` lists `l`, once per resolving URL |
| Properties.SpeciesSetOnce | ghibli.py:93-102 | a person's species is `s` iff its species URL resolves to `s`; the person is then on `s`'s people list once, otherwise not at all |
| Properties.PilotSetOnce | ghibli.py:162-171 | a vehicle's pilot is `p` iff its `people` URL resolves to `p`; the vehicle is then on `p`'s vehicles once, otherwise not at all |
| Properties.DanglingDropped | ghibli.py:63-64 | removing a URL that does not resolve leaves one entity's forward links unchanged; the lemmas below lift this to the whole graph, back links included |
| Properties.ParsedReciprocal | ghibli.py:279-293 | every build, including one stopped by a raising constructor, is reciprocal with multiplicity and all its links name existing rows |
| Properties.LinkedByColumns | ghibli.py:279-293 | the graph depends only on the rows, the id indexes and the resolved links of the raw data |
| Properties.SpeciesReplaced | ghibli.py:57-66 | a species record with the same id, attributes and resolved film links gives the same graph |
| Properties.PersonReplaced | ghibli.py:72-105 | a person record with the same id, attributes, resolved film links and species gives the same graph |
| Properties.LocationReplaced | ghibli.py:109-137 | a location record with the same attributes, resolved film links and residents gives the same graph |
| Properties.VehicleReplaced | ghibli.py:142-171 | a vehicle record with the same attributes, resolved film links and pilot gives the same graph |
| Properties.SpeciesFilmDangling | ghibli.py:63-64 | a species' film URL that names no film changes nothing in the graph, on either side of any relation |
| Properties.PersonFilmDangling | ghibli.py:88-89 | a person's film URL that names no film changes nothing in the graph |
| Properties.PersonSpeciesDangling | ghibli.py:99-100 | a species URL that names no species leaves the graph as if the person had none |
| Properties.LocationFilmDangling | ghibli.py:124-125 | a location's film URL that names no film changes nothing in the graph |
| Properties.LocationResidentDangling | ghibli.py:134-135 | a location's resident URL that names no person changes nothing in the graph |
| Properties.VehicleFilmDangling | ghibli.py:157-158 | a vehicle's film URL that names no film changes nothing in the graph |
| Properties.VehiclePilotDangling | ghibli.py:168-169 | a pilot URL that names no person leaves the graph as if the vehicle had none |
| Properties.FilmListsAreBackLinks | ghibli.py:41-44 | a film is built from its own fields only; its four lists are exactly the back links left by the later kinds |
| Properties.BackListsAscending | ghibli.py:280-293 | every back list holds its entries in processing order |
| Properties.ForwardReaches | ghibli.py:63-65 | every forward link is a value of the collection it was looked up in |
| Properties.SinglesReach | ghibli.py:99-101 | every optional link is a value of the collection it was looked up in |
| Properties.AppendedReaches | ghibli.py:280-293 | with unique ids, every back link names a published entity |
| Properties.LinksReachPublished | ghibli.py:279-293 | with unique ids in each kind, every link of every relation points to an entity of the published dict of its kind |
| Properties.ReachesWithin | ghibli.py:279-293 | links that reach a dict stay inside the rows it indexes |
| Properties.AppendedWithin | ghibli.py:279-293 | back links name rows of the kind that made them |
| Properties.LinkedInRange | ghibli.py:279-293 | every link of a completed build names an existing row of its target kind |
| Scenarios.FilmUrlId | ghibli.py:22-24 | an API film URL names its film by its last segment |
| Scenarios.OneLink | ghibli.py:61-66 | one resolving URL gives one forward link and one back link |
| Scenarios.OneDangling | ghibli.py:61-66 | one dangling URL gives no link on either side |
| Scenarios.SpeciesOfFilm | ghibli.py:57-66 | a species naming film `f1` ends on the film's species list, and the film on the species' film list |
| Scenarios.DanglingFilmOfPerson | ghibli.py:83-91 | a person naming the missing film `f404` has no films, and no film lists it |
| Scenarios.RaisingPersonStaysOnFilm | ghibli.py:285-286 | a person whose species is a list raises; the film still lists it, it has no species, and no location is built |
| Staleness.NeedsUpdate | ghibli.py:251 | definition of the staleness test; Staleness.StaleWithinDay, Staleness.StalenessRepeatsDaily, Staleness.DayOldDataIsFresh and Staleness.FutureStampIsStale state its meaning |
| Staleness.Difference | ghibli.py:251 | `now - stamp` as days, seconds in `[0, 86400)` and microseconds in `[0, 10^6)` that add up to the difference |
| Staleness.DifferenceUnique | ghibli.py:251 | that normal form is the only one, as for Python's `timedelta` |
| Staleness.StaleWithinDay | ghibli.py:251 | within a day of the stamp, the cache is stale exactly from 61 whole seconds on |
| Staleness.StalenessRepeatsDaily | ghibli.py:251 | adding whole days to `now` does not change the answer |
| Staleness.DayOldDataIsFresh | ghibli.py:251 | data one day and 30 seconds old counts as fresh |
| Staleness.FutureStampIsStale | ghibli.py:251 | a stamp one second in the future makes the cache stale |
| Cache.GatheredAll | ghibli.py:265-275 | five successful downloads fill every kind with its download |
| Cache.Publish | ghibli.py:281-293 | definition of the dicts written by a build; Cache.PublishIndexes, Cache.PublishKeepsUnbuilt and Cache.PublishAll state which kinds it publishes |
| Cache.PublishIndexes | ghibli.py:281-293 | writing each dict as its comprehension finishes, with the indexes the build returned, publishes exactly the kinds built, under their id indexes |
| Cache.ConsistentExtended | ghibli.py:279-293 | keeping a new build that is well formed, reciprocal and in range disturbs no published table and keeps the invariant |
| Cache.ConsistentPut | ghibli.py:281-293 | publishing one table whose index fits its build keeps the cache consistent |
| Cache.PublishKeepsUnbuilt | ghibli.py:285-293 | a kind that was not reached keeps its previous table |
| Cache.PublishAll | ghibli.py:279-293 | a completed build publishes all five kinds from the new graph |
| Cache.PublishConsistent | ghibli.py:279-293 | after publishing, every table still indexes rows of the graph it points into, and every kept graph is well formed, reciprocal and in range |
| Cache.PublishFresh | ghibli.py:279-293 | a completed build leaves every kind published from the new graph under the id index of its raw collection |
| Cache.FreshLinksPublished | ghibli.py:279-293 | in a fresh cache with unique ids, every link of the current graph points to an entity of a published dict |
| Cache.GhibliCache.constructor | ghibli.py:236-247 | a new cache holds nothing and has no date |
| Cache.GhibliCache.GatherData | ghibli.py:265-277 | downloads are stored in fetch order as they arrive; a failure keeps the earlier kinds replaced and the rest as before; nothing else changes |
| Cache.GhibliCache.ParseRawData | ghibli.py:279-293 | succeeds iff no constructor raises; adds the built graph, which is reciprocal and in range even when a constructor raised, publishes exactly the kinds built, and on success leaves the cache current |
| Cache.GhibliCache.UpdateData | ghibli.py:254-263 | gather, then parse, then stamp; the date changes only when both succeed; a failed gather leaves the published data alone; on success the cache is current for the downloads |
| Cache.GhibliCache.CheckData | ghibli.py:249-252 | updates iff the cache was never stamped or the seconds component of its age exceeds 60; otherwise nothing changes |
| Timer.Calls | ghibli.py:318-321 | definition of the number of calls the loop makes; Timer.CallsFromSpec and Timer.CallsUnique state what it counts, and Timer.Run is proved against it |
| Timer.CallsFromSpec | ghibli.py:318-321 | every call but the last returned and was followed by a timeout; the last raised, saw the flag, or had no more waits |
| Timer.CallsUnique | ghibli.py:318-321 | that description fixes the number of calls |
| Timer.StopBeforeFirstTimeout | ghibli.py:376-387 | a flag set before the first wait ends the run after the single call at start |
| Timer.OneCallPerTimeout | ghibli.py:318-321 | with no failures, `k` timeouts and then the flag give `k + 1` calls |
| Timer.Run | ghibli.py:318-321 | the loop makes exactly the calls the description above fixes |

## Left out

- HTTP fetching and JSON decoding (`ghibli.py:265-277`). The downloads are a parameter: a prefix of the five collections in fetch order, where a short prefix means the next download raised.
- JSON values other than strings and lists of strings are not modelled: numbers, `null`, nested objects, and records without a string `id`. A record's fields are a map from key to one of those two shapes.
- A record with a key that clashes with a constructor parameter (for example `films_collection`), which would make the call raise `TypeError`, is not modelled.
- The `RWLock` (`ghibli.py:178-229`) and the write lock around parsing, threads, and the HTTP handler and server are not modelled. The model is sequential, so the atomicity of publishing under the lock is not captured.
- `films()` (`ghibli.py:297-304`) is not modelled. It is a read accessor over the published films dict, not part of the building or refreshing of the cache.
- `print` logging is not modelled.
- `datetime.now()` and `Event.wait` are replaced by parameters (`now`, `stamp` and the `waits` outcomes). Real waiting time is not modelled.
- Python object identity is modelled only as row numbers inside one build. Entities are values in an arena, not shared mutable objects.
- Dict iteration order is not modelled. A published table is an id-to-row map, and its `.values()` order is not stated.
- The class-level dicts of `GhibliCache` (`ghibli.py:236-247`) are shared by every instance in Python. Here they are fields of one cache object.
- Timer.Run: the cache updates it triggers are abstracted into the set of call numbers that raise. It counts calls; it does not drive `Cache.GhibliCache.UpdateData`.
- Cache.GhibliCache.CheckData: when an update runs, its contract repeats the parts of `UpdateData`'s that matter to a caller. It does not restate which kinds a failed gather leaves as they were.
