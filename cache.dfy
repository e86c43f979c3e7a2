/** `GhibliCache`: the raw collections gathered from the remote API, the
    object dicts published from them, and the date of the last complete
    update. The class-level dicts of the source are the fields of one
    cache object; the five downloads are given as their decoded results,
    and the clock as the instants passed in. */
module Cache {
  import opened Records
  import opened Graph
  import opened Builder
  import opened Staleness
  import opened Properties

  /** The keys of `raw_data` and `data`. */
  datatype Kind = Films | People | Locations | Species | Vehicles

  /** The order in which `__gather_data_from_ghibli_server` downloads. */
  const FetchOrder: seq<Kind> := [Films, People, Locations, Kind.Species, Vehicles]

  /** A published dict: the id index of one kind into the rows of one build
      (`heap`, the position of that build's graph in the cache). */
  datatype Table = Table(heap: nat, index: map<string, nat>)

  function RowCount(g: Graph, k: Kind): nat
  {
    match k
    case Films => |g.films|
    case People => |g.people|
    case Locations => |g.locations|
    case Species => |g.species|
    case Vehicles => |g.vehicles|
  }

  ghost predicate Complete(raw: map<Kind, seq<Record>>)
  {
    forall k: Kind :: k in raw
  }

  function RawOf(raw: map<Kind, seq<Record>>): RawData
    requires Complete(raw)
  {
    RawData(raw[Films], raw[People], raw[Locations], raw[Kind.Species], raw[Vehicles])
  }

  /** The five downloads of one successful gather, in fetch order. */
  function Downloaded(responses: seq<seq<Record>>): RawData
    requires |responses| == |FetchOrder|
  {
    RawData(responses[0], responses[1], responses[2], responses[3], responses[4])
  }

  /** A gather that stored all five downloads leaves every kind present,
      holding that download. */
  lemma GatheredAll(raw: map<Kind, seq<Record>>, responses: seq<seq<Record>>)
    requires |responses| == |FetchOrder|
    requires forall i :: 0 <= i < |responses| ==> FetchOrder[i] in raw && raw[FetchOrder[i]] == responses[i]
    ensures Complete(raw) && RawOf(raw) == Downloaded(responses)
  {
    assert FetchOrder[0] == Films && FetchOrder[1] == People && FetchOrder[2] == Locations;
    assert FetchOrder[3] == Kind.Species && FetchOrder[4] == Vehicles;
    forall k: Kind ensures k in raw {
      match k
      case Films => assert FetchOrder[0] in raw;
      case People => assert FetchOrder[1] in raw;
      case Locations => assert FetchOrder[2] in raw;
      case Species => assert FetchOrder[3] in raw;
      case Vehicles => assert FetchOrder[4] in raw;
    }
  }

  /** `data` after `__parse_raw_data` built build number `gen` from `raw`:
      films and species always, people and locations unless a person's
      constructor raised, vehicles only when nothing raised. */
  function Publish(data: map<Kind, Table>, gen: nat, raw: RawData): map<Kind, Table>
  {
    var d := data[Films := Table(gen, IndexOf(raw.films))][Kind.Species := Table(gen, IndexOf(raw.species))];
    if PeopleRaise(raw) then d
    else
      var d' := d[People := Table(gen, IndexOf(raw.people))][Locations := Table(gen, IndexOf(raw.locations))];
      if Parses(raw) then d'[Vehicles := Table(gen, IndexOf(raw.vehicles))] else d'
  }

  /** The dict writes of `__parse_raw_data`, done with the indexes a build
      returned, publish exactly what `Publish` describes. */
  lemma PublishIndexes(data: map<Kind, Table>, gen: nat, raw: RawData, idx: Indexes, built: nat)
    requires built == 2 || built == 4 || built == 5
    requires built == 2 <==> PeopleRaise(raw)
    requires built == 5 <==> Parses(raw)
    requires idx.films == IndexOf(raw.films) && idx.species == IndexOf(raw.species)
    requires built >= 4 ==> idx.people == IndexOf(raw.people) && idx.locations == IndexOf(raw.locations)
    requires built == 5 ==> idx.vehicles == IndexOf(raw.vehicles)
    ensures var d := data[Films := Table(gen, idx.films)][Kind.Species := Table(gen, idx.species)];
      var d' := if built >= 4 then d[People := Table(gen, idx.people)][Locations := Table(gen, idx.locations)] else d;
      Publish(data, gen, raw) == if built == 5 then d'[Vehicles := Table(gen, idx.vehicles)] else d'
  {
  }

  /** A kind whose dict comprehension raised, or was never reached, keeps the
      dict published by an earlier update, possibly from an older build. */
  lemma PublishKeepsUnbuilt(data: map<Kind, Table>, gen: nat, raw: RawData, k: Kind)
    requires k == Vehicles || (PeopleRaise(raw) && (k == People || k == Locations))
    requires !Parses(raw)
    ensures k in Publish(data, gen, raw) <==> k in data
    ensures k in data ==> Publish(data, gen, raw)[k] == data[k]
  {
  }

  /** When nothing raises, every kind is published from the new build. */
  lemma PublishAll(data: map<Kind, Table>, gen: nat, raw: RawData)
    requires Parses(raw)
    ensures forall k: Kind :: k in Publish(data, gen, raw) && Publish(data, gen, raw)[k].heap == gen
  {
    assert !PeopleRaise(raw);
    forall k: Kind ensures k in Publish(data, gen, raw) && Publish(data, gen, raw)[k].heap == gen {
      match k
      case Films =>
      case People =>
      case Locations =>
      case Species =>
      case Vehicles =>
    }
  }

  /** Every graph is well formed, reciprocal and in range, and every
      published index names rows of the build it was published from. */
  ghost predicate Consistent(heaps: seq<Graph>, data: map<Kind, Table>)
  {
    && (forall i :: 0 <= i < |heaps| ==> Wf(heaps[i]) && Reciprocal(heaps[i]) && InRange(heaps[i]))
    && (forall k :: k in data ==>
          data[k].heap < |heaps| && IndexInto(data[k].index, RowCount(heaps[data[k].heap], k)))
  }

  /** Every kind is published from the newest build, which links the raw
      collections, and is indexed by id. */
  ghost predicate Fresh(rawData: map<Kind, seq<Record>>, heaps: seq<Graph>, data: map<Kind, Table>)
  {
    && Complete(rawData) && |heaps| > 0
    && heaps[|heaps| - 1] == Linked(RawOf(rawData))
    && forall k: Kind :: k in data && data[k] == Table(|heaps| - 1, IndexOf(rawData[k]))
  }

  /** Keeping a new well-formed, reciprocal, in-range build changes nothing
      published. */
  lemma ConsistentExtended(heaps: seq<Graph>, data: map<Kind, Table>, g: Graph)
    requires Consistent(heaps, data) && Wf(g) && Reciprocal(g) && InRange(g)
    ensures Consistent(heaps + [g], data)
  {
    var heaps' := heaps + [g];
    forall k | k in data
      ensures data[k].heap < |heaps'| && IndexInto(data[k].index, RowCount(heaps'[data[k].heap], k))
    {
      assert heaps'[data[k].heap] == heaps[data[k].heap];
    }
  }

  /** Publishing one table whose index fits its build keeps the cache consistent. */
  lemma ConsistentPut(heaps: seq<Graph>, data: map<Kind, Table>, k: Kind, t: Table)
    requires Consistent(heaps, data)
    requires t.heap < |heaps| && IndexInto(t.index, RowCount(heaps[t.heap], k))
    ensures Consistent(heaps, data[k := t])
  {
  }

  /** Publishing a build whose indexes fit it keeps the cache consistent. */
  lemma PublishConsistent(heaps: seq<Graph>, data: map<Kind, Table>, raw: RawData, g: Graph)
    requires Consistent(heaps, data) && Wf(g) && Reciprocal(g) && InRange(g)
    requires IndexInto(IndexOf(raw.films), |g.films|) && IndexInto(IndexOf(raw.species), |g.species|)
    requires !PeopleRaise(raw) ==>
      IndexInto(IndexOf(raw.people), |g.people|) && IndexInto(IndexOf(raw.locations), |g.locations|)
    requires Parses(raw) ==> IndexInto(IndexOf(raw.vehicles), |g.vehicles|)
    ensures Consistent(heaps + [g], Publish(data, |heaps|, raw))
  {
    var heaps', gen := heaps + [g], |heaps|;
    assert heaps'[gen] == g;
    ConsistentExtended(heaps, data, g);
    var d := data[Films := Table(gen, IndexOf(raw.films))];
    ConsistentPut(heaps', data, Films, Table(gen, IndexOf(raw.films)));
    ConsistentPut(heaps', d, Kind.Species, Table(gen, IndexOf(raw.species)));
    d := d[Kind.Species := Table(gen, IndexOf(raw.species))];
    if !PeopleRaise(raw) {
      ConsistentPut(heaps', d, People, Table(gen, IndexOf(raw.people)));
      d := d[People := Table(gen, IndexOf(raw.people))];
      ConsistentPut(heaps', d, Locations, Table(gen, IndexOf(raw.locations)));
      d := d[Locations := Table(gen, IndexOf(raw.locations))];
      if Parses(raw) {
        ConsistentPut(heaps', d, Vehicles, Table(gen, IndexOf(raw.vehicles)));
      }
    }
  }

  /** A build where nothing raised leaves the cache fresh. */
  lemma PublishFresh(rawData: map<Kind, seq<Record>>, heaps: seq<Graph>, data: map<Kind, Table>)
    requires Complete(rawData) && Parses(RawOf(rawData))
    ensures Fresh(rawData, heaps + [Linked(RawOf(rawData))], Publish(data, |heaps|, RawOf(rawData)))
  {
    var raw := RawOf(rawData);
    var data' := Publish(data, |heaps|, raw);
    assert !PeopleRaise(raw);
    forall k: Kind ensures k in data' && data'[k] == Table(|heaps|, IndexOf(rawData[k])) {
      match k
      case Films =>
      case People =>
      case Locations =>
      case Species =>
      case Vehicles =>
    }
  }

  /** After a complete update, with unique ids within each downloaded kind,
      every link of the newest build reaches an object of the published
      dict of its target kind. */
  lemma FreshLinksPublished(rawData: map<Kind, seq<Record>>, heaps: seq<Graph>, data: map<Kind, Table>)
    requires Fresh(rawData, heaps, data)
    requires forall k: Kind :: UniqueIds(rawData[k])
    ensures var g := heaps[|heaps| - 1];
      var fi, si, pi := data[Films].index, data[Kind.Species].index, data[People].index;
      var li, vi := data[Locations].index, data[Vehicles].index;
      && Reaches(g.filmCharacters, pi) && Reaches(g.filmSpecies, si)
      && Reaches(g.filmLocations, li) && Reaches(g.filmVehicles, vi)
      && Reaches(g.speciesFilms, fi) && Reaches(g.speciesPeople, pi)
      && Reaches(g.personFilms, fi) && Reaches(Lists(g.personSpecies), si)
      && Reaches(g.personLocations, li) && Reaches(g.personVehicles, vi)
      && Reaches(g.locationFilms, fi) && Reaches(g.locationResidents, pi)
      && Reaches(g.vehicleFilms, fi) && Reaches(Lists(g.vehiclePilot), pi)
  {
    assert UniqueIds(rawData[Films]) && UniqueIds(rawData[Kind.Species]) && UniqueIds(rawData[People]);
    assert UniqueIds(rawData[Locations]) && UniqueIds(rawData[Vehicles]);
    LinksReachPublished(RawOf(rawData));
  }

  class GhibliCache {
    var rawData: map<Kind, seq<Record>>
    var data: map<Kind, Table>
    /** The graphs of every build so far; published tables point into them. */
    var heaps: seq<Graph>
    var cacheDate: Option<int>

    ghost predicate Valid()
      reads this
    {
      Consistent(heaps, data)
    }

    /** The state after a complete update. */
    ghost predicate Current()
      reads this
    {
      Fresh(rawData, heaps, data)
    }

    constructor()
      ensures Valid()
      ensures rawData == map[] && data == map[] && heaps == [] && cacheDate == None
    {
      rawData, data, heaps, cacheDate := map[], map[], [], None;
    }

    /** `__gather_data_from_ghibli_server`: `responses` are the downloads that
        succeeded, in fetch order; fewer than five means the next one raised.
        Each success is stored at once, so a failure leaves the earlier
        kinds replaced and the later ones as they were. */
    method GatherData(responses: seq<seq<Record>>) returns (ok: bool)
      requires |responses| <= |FetchOrder|
      modifies this
      ensures ok <==> |responses| == |FetchOrder|
      ensures forall i :: 0 <= i < |responses| ==> FetchOrder[i] in rawData && rawData[FetchOrder[i]] == responses[i]
      ensures forall k :: k !in FetchOrder[..|responses|] ==>
        (k in rawData <==> k in old(rawData)) && (k in rawData ==> rawData[k] == old(rawData)[k])
      ensures data == old(data) && heaps == old(heaps) && cacheDate == old(cacheDate)
    {
      var i := 0;
      while i < |responses|
        invariant 0 <= i <= |responses|
        invariant forall j :: 0 <= j < i ==> FetchOrder[j] in rawData && rawData[FetchOrder[j]] == responses[j]
        invariant forall k :: k !in FetchOrder[..i] ==>
          (k in rawData <==> k in old(rawData)) && (k in rawData ==> rawData[k] == old(rawData)[k])
        invariant data == old(data) && heaps == old(heaps) && cacheDate == old(cacheDate)
      {
        assert FetchOrder[..i + 1] == FetchOrder[..i] + [FetchOrder[i]];
        rawData := rawData[FetchOrder[i] := responses[i]];
        i := i + 1;
      }
      ok := |responses| == |FetchOrder|;
    }

    /** `__parse_raw_data`: builds the graph and publishes each kind's dict as
        soon as it is complete; `ok` is false when a constructor raised, and
        only the kinds before it are then published. */
    method ParseRawData() returns (ok: bool)
      requires Valid() && Complete(rawData)
      modifies this
      ensures rawData == old(rawData) && cacheDate == old(cacheDate)
      ensures Valid()
      ensures ok <==> Parses(RawOf(rawData))
      ensures heaps == old(heaps) + [Parsed(RawOf(rawData))]
      ensures data == Publish(old(data), |old(heaps)|, RawOf(rawData))
      ensures ok ==> Current()
    {
      var raw := RawOf(rawData);
      var g, idx, built := Build(raw);
      var gen := |heaps|;
      ParsedReciprocal(raw);
      PublishConsistent(heaps, data, raw, g);
      if built == 5 {
        PublishFresh(rawData, heaps, data);
      }
      PublishIndexes(data, gen, raw, idx, built);
      var d := data[Films := Table(gen, idx.films)][Kind.Species := Table(gen, idx.species)];
      if built >= 4 {
        d := d[People := Table(gen, idx.people)][Locations := Table(gen, idx.locations)];
      }
      if built == 5 {
        d := d[Vehicles := Table(gen, idx.vehicles)];
      }
      heaps, data := heaps + [g], d;
      ok := built == 5;
    }

    /** `update_data`: gather, then parse, then stamp the cache with the
        instant `stamp` read after parsing. A failure in either step
        propagates and leaves the date as it was. */
    method UpdateData(responses: seq<seq<Record>>, stamp: int) returns (ok: bool)
      requires Valid() && |responses| <= |FetchOrder|
      modifies this
      ensures Valid()
      ensures ok <==> |responses| == |FetchOrder| && Parses(Downloaded(responses))
      ensures ok ==> Current() && RawOf(rawData) == Downloaded(responses) && cacheDate == Some(stamp)
      ensures !ok ==> cacheDate == old(cacheDate)
      ensures forall i :: 0 <= i < |responses| ==> FetchOrder[i] in rawData && rawData[FetchOrder[i]] == responses[i]
      ensures forall k :: k !in FetchOrder[..|responses|] ==>
        (k in rawData <==> k in old(rawData)) && (k in rawData ==> rawData[k] == old(rawData)[k])
      ensures |responses| < |FetchOrder| ==> data == old(data) && heaps == old(heaps)
      ensures |responses| == |FetchOrder| ==>
        heaps == old(heaps) + [Parsed(Downloaded(responses))] &&
        data == Publish(old(data), |old(heaps)|, Downloaded(responses))
    {
      ok := GatherData(responses);
      assert Valid();
      if !ok {
        return;
      }
      GatheredAll(rawData, responses);
      ghost var gathered := rawData;
      ghost var before := (heaps, data);
      ok := ParseRawData();
      assert rawData == gathered && RawOf(rawData) == Downloaded(responses);
      assert heaps == before.0 + [Parsed(Downloaded(responses))];
      assert data == Publish(before.1, |before.0|, Downloaded(responses));
      if !ok {
        return;
      }
      cacheDate := Some(stamp);
    }

    /** `__check_data` at instant `now`: updates exactly when the cache was
        never stamped or the seconds component of its age exceeds 60. */
    method CheckData(now: int, responses: seq<seq<Record>>, stamp: int) returns (updated: bool, ok: bool)
      requires Valid() && |responses| <= |FetchOrder|
      modifies this
      ensures Valid()
      ensures updated == NeedsUpdate(old(cacheDate), now)
      ensures !updated ==> ok && rawData == old(rawData) && data == old(data) && heaps == old(heaps) &&
                           cacheDate == old(cacheDate)
      ensures updated ==> (ok <==> |responses| == |FetchOrder| && Parses(Downloaded(responses)))
      ensures updated && ok ==> Current() && cacheDate == Some(stamp)
      ensures updated ==> forall i :: 0 <= i < |responses| ==> FetchOrder[i] in rawData && rawData[FetchOrder[i]] == responses[i]
      ensures updated && |responses| < |FetchOrder| ==> data == old(data) && heaps == old(heaps)
      ensures updated && |responses| == |FetchOrder| ==>
        heaps == old(heaps) + [Parsed(Downloaded(responses))] &&
        data == Publish(old(data), |old(heaps)|, Downloaded(responses))
      ensures !ok ==> cacheDate == old(cacheDate)
    {
      updated := NeedsUpdate(cacheDate, now);
      ok := true;
      if updated {
        ok := UpdateData(responses, stamp);
      }
    }
  }
}
