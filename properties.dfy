/** What `__parse_raw_data` guarantees about the graph it builds: links are
    recorded on both sides with multiplicity, unresolvable references add
    nothing, single links are mirrored exactly once, back-link lists are in
    processing order, and with unique ids every link reaches a published
    object. */
module Properties {
  import opened Urls
  import opened Records
  import opened Links
  import opened Graph
  import opened Builder

  /** A fresh back-link column filled by `fwd` mirrors it. */
  lemma MirroredAppended(fwd: seq<seq<nat>>, n: nat)
    ensures Mirrored(fwd, Appended(Empties(n), fwd))
  {
    var back := Appended(Empties(n), fwd);
    forall t | 0 <= t < |back| ensures back[t] == BackLinks(fwd, t) {
      assert Empties(n)[t] == [];
    }
    MirroredByBackLinks(fwd, back);
  }

  /** Every relation of the built graph is recorded on both sides, with
      multiplicity: film and species, film and person, species and person,
      film and location, location and resident, film and vehicle, vehicle
      and pilot. */
  lemma LinkedReciprocal(raw: RawData)
    ensures Reciprocal(Linked(raw))
  {
    var g := Linked(raw);
    var nf, ns, np := |raw.films|, |raw.species|, |raw.people|;
    MirroredAppended(g.speciesFilms, nf);
    MirroredAppended(g.personFilms, nf);
    MirroredAppended(Lists(g.personSpecies), ns);
    MirroredAppended(g.locationFilms, nf);
    MirroredAppended(g.locationResidents, np);
    MirroredAppended(g.vehicleFilms, nf);
    MirroredAppended(Lists(g.vehiclePilot), np);
  }

  /** The multiplicity of a forward link is the number of the record's URLs
      under `key` whose id resolves to the target. */
  lemma ForwardCounted(recs: seq<Record>, key: string, index: map<string, nat>, j: nat, t: nat)
    requires j < |recs|
    ensures Count(Forward(recs, key, index)[j], t) == |Hits(UrlList(recs[j], key), index, t)|
  {
    ResolveCount(UrlList(recs[j], key), index, t);
  }

  /** Film reciprocity for each kind: species, person, location or vehicle
      `j` holds film `f` as often as `f` holds `j`, namely once per film URL of
      its record that resolves to `f`. */
  lemma FilmLinksCounted(raw: RawData, f: nat, j: nat)
    requires f < |raw.films|
    ensures var g := Linked(raw); var fi := IndexOf(raw.films);
      j < |raw.species| ==>
        Count(g.speciesFilms[j], f) == Count(g.filmSpecies[f], j) == |Hits(UrlList(raw.species[j], "films"), fi, f)|
    ensures var g := Linked(raw); var fi := IndexOf(raw.films);
      j < |raw.people| ==>
        Count(g.personFilms[j], f) == Count(g.filmCharacters[f], j) == |Hits(UrlList(raw.people[j], "films"), fi, f)|
    ensures var g := Linked(raw); var fi := IndexOf(raw.films);
      j < |raw.locations| ==>
        Count(g.locationFilms[j], f) == Count(g.filmLocations[f], j) == |Hits(UrlList(raw.locations[j], "films"), fi, f)|
    ensures var g := Linked(raw); var fi := IndexOf(raw.films);
      j < |raw.vehicles| ==>
        Count(g.vehicleFilms[j], f) == Count(g.filmVehicles[f], j) == |Hits(UrlList(raw.vehicles[j], "films"), fi, f)|
  {
    var fi := IndexOf(raw.films);
    LinkedReciprocal(raw);
    if j < |raw.species| {
      ForwardCounted(raw.species, "films", fi, j, f);
    }
    if j < |raw.people| {
      ForwardCounted(raw.people, "films", fi, j, f);
    }
    if j < |raw.locations| {
      ForwardCounted(raw.locations, "films", fi, j, f);
    }
    if j < |raw.vehicles| {
      ForwardCounted(raw.vehicles, "films", fi, j, f);
    }
  }

  /** Residents are symmetric: person `p` is a resident of location `l` as
      often as `l` is among `p`'s locations, once per resolving URL. */
  lemma ResidentsCounted(raw: RawData, l: nat, p: nat)
    requires l < |raw.locations| && p < |raw.people|
    ensures var g := Linked(raw);
      Count(g.locationResidents[l], p) == Count(g.personLocations[p], l)
        == |Hits(UrlList(raw.locations[l], "people"), IndexOf(raw.people), p)|
  {
    LinkedReciprocal(raw);
    ForwardCounted(raw.locations, "people", IndexOf(raw.people), l, p);
  }

  /** A person's species is set iff its `species` URL resolves (and the
      species collection is non-empty); the person is then on that species'
      `people` list exactly once and on no other species' list. */
  lemma SpeciesSetOnce(raw: RawData, p: nat, s: nat)
    requires p < |raw.people| && s < |raw.species|
    ensures var g := Linked(raw); var si := IndexOf(raw.species); var ref := SingleUrl(raw.people[p], "species");
      g.personSpecies[p] == Some(s) <==>
        si != map[] && ref.Ref? && GetUuidFromUrl(ref.url) in si && si[GetUuidFromUrl(ref.url)] == s
    ensures var g := Linked(raw);
      Count(g.speciesPeople[s], p) == if g.personSpecies[p] == Some(s) then 1 else 0
  {
    var g := Linked(raw);
    LinkedReciprocal(raw);
    MirroredSingle(g.personSpecies, g.speciesPeople, p, s);
  }

  /** The same for a vehicle's pilot, read from the key `people`. */
  lemma PilotSetOnce(raw: RawData, v: nat, p: nat)
    requires v < |raw.vehicles| && p < |raw.people|
    ensures var g := Linked(raw); var pi := IndexOf(raw.people); var ref := SingleUrl(raw.vehicles[v], "people");
      g.vehiclePilot[v] == Some(p) <==>
        pi != map[] && ref.Ref? && GetUuidFromUrl(ref.url) in pi && pi[GetUuidFromUrl(ref.url)] == p
    ensures var g := Linked(raw);
      Count(g.personVehicles[p], v) == if g.vehiclePilot[v] == Some(p) then 1 else 0
  {
    var g := Linked(raw);
    LinkedReciprocal(raw);
    MirroredSingle(g.vehiclePilot, g.personVehicles, v, p);
  }

  /** A reference that does not resolve adds no link on either side: the
      record's links are those of the same record without that URL. */
  lemma DanglingDropped(recs: seq<Record>, key: string, index: map<string, nat>, j: nat,
                        before: seq<string>, u: string, after: seq<string>)
    requires j < |recs| && key in recs[j].fields && recs[j].fields[key] == Urls(before + [u] + after)
    requires GetUuidFromUrl(u) !in index
    ensures var r := recs[j].(fields := recs[j].fields[key := Urls(before + after)]);
      Forward(recs, key, index) == Forward(recs[j := r], key, index)
  {
    ResolveDropsDangling(before, u, after, index);
    var r := recs[j].(fields := recs[j].fields[key := Urls(before + after)]);
    var a := Forward(recs, key, index);
    var b := Forward(recs[j := r], key, index);
    forall k | 0 <= k < |a| ensures a[k] == b[k] {
      if k == j {
        assert UrlList(r, key) == before + after;
      }
    }
  }

  /** A film's link lists hold nothing of its own record: each is exactly
      the back links left by the later builds. */
  lemma FilmListsAreBackLinks(raw: RawData, f: nat)
    requires f < |raw.films|
    ensures var g := Linked(raw);
      && g.films[f] == MakeFilm(raw.films[f])
      && g.filmSpecies[f] == BackLinks(g.speciesFilms, f)
      && g.filmCharacters[f] == BackLinks(g.personFilms, f)
      && g.filmLocations[f] == BackLinks(g.locationFilms, f)
      && g.filmVehicles[f] == BackLinks(g.vehicleFilms, f)
  {
    assert Empties(|raw.films|)[f] == [];
  }

  /** Every back-link list is in processing order. */
  lemma BackListsAscending(raw: RawData)
    ensures var g := Linked(raw);
      && (forall f :: 0 <= f < |g.films| ==>
            Ascending(g.filmSpecies[f]) && Ascending(g.filmCharacters[f]) &&
            Ascending(g.filmLocations[f]) && Ascending(g.filmVehicles[f]))
      && (forall s :: 0 <= s < |g.species| ==> Ascending(g.speciesPeople[s]))
      && (forall p :: 0 <= p < |g.people| ==> Ascending(g.personLocations[p]) && Ascending(g.personVehicles[p]))
  {
    var g := Linked(raw);
    forall f | 0 <= f < |g.films|
      ensures Ascending(g.filmSpecies[f]) && Ascending(g.filmCharacters[f])
      ensures Ascending(g.filmLocations[f]) && Ascending(g.filmVehicles[f])
    {
      FilmListsAreBackLinks(raw, f);
      BackLinksAscending(g.speciesFilms, f);
      BackLinksAscending(g.personFilms, f);
      BackLinksAscending(g.locationFilms, f);
      BackLinksAscending(g.vehicleFilms, f);
    }
    forall s | 0 <= s < |g.species| ensures Ascending(g.speciesPeople[s]) {
      assert Empties(|raw.species|)[s] == [];
      BackLinksAscending(Lists(g.personSpecies), s);
    }
    forall p | 0 <= p < |g.people| ensures Ascending(g.personLocations[p]) && Ascending(g.personVehicles[p]) {
      assert Empties(|raw.people|)[p] == [];
      BackLinksAscending(g.locationResidents, p);
      BackLinksAscending(Lists(g.vehiclePilot), p);
    }
  }

  /** Every link in `lists` is a value of `index`. */
  ghost predicate Reaches(lists: seq<seq<nat>>, index: map<string, nat>)
  {
    forall j, x :: 0 <= j < |lists| && x in lists[j] ==> x in index.Values
  }

  lemma ForwardReaches(recs: seq<Record>, key: string, index: map<string, nat>)
    ensures Reaches(Forward(recs, key, index), index)
  {
  }

  lemma SinglesReach(recs: seq<Record>, key: string, index: map<string, nat>)
    ensures Reaches(Lists(Singles(recs, key, index)), index)
  {
    var lists := Lists(Singles(recs, key, index));
    forall j, x | 0 <= j < |lists| && x in lists[j] ensures x in index.Values {
      var o := SingleTarget(recs[j], key, index);
      assert lists[j] == AsList(o);
    }
  }

  /** Back links name rows of the referring kind; with unique ids those rows
      are all published. */
  lemma AppendedReaches(fwd: seq<seq<nat>>, n: nat, recs: seq<Record>)
    requires |fwd| == |recs| && UniqueIds(recs)
    ensures Reaches(Appended(Empties(n), fwd), IndexOf(recs))
  {
    IndexOfUnique(recs);
    var back := Appended(Empties(n), fwd);
    forall t, x | 0 <= t < |back| && x in back[t] ensures x in IndexOf(recs).Values {
      assert Empties(n)[t] == [];
    }
  }

  /** The build order makes every forward link resolve against an index
      that is already published, so with unique ids within each kind every
      link of the graph, forward or back, reaches a published object. */
  lemma LinksReachPublished(raw: RawData)
    requires UniqueIds(raw.films) && UniqueIds(raw.species) && UniqueIds(raw.people)
    requires UniqueIds(raw.locations) && UniqueIds(raw.vehicles)
    ensures var g := Linked(raw);
      var fi, si, pi := IndexOf(raw.films), IndexOf(raw.species), IndexOf(raw.people);
      var li, vi := IndexOf(raw.locations), IndexOf(raw.vehicles);
      && Reaches(g.filmCharacters, pi) && Reaches(g.filmSpecies, si)
      && Reaches(g.filmLocations, li) && Reaches(g.filmVehicles, vi)
      && Reaches(g.speciesFilms, fi) && Reaches(g.speciesPeople, pi)
      && Reaches(g.personFilms, fi) && Reaches(Lists(g.personSpecies), si)
      && Reaches(g.personLocations, li) && Reaches(g.personVehicles, vi)
      && Reaches(g.locationFilms, fi) && Reaches(g.locationResidents, pi)
      && Reaches(g.vehicleFilms, fi) && Reaches(Lists(g.vehiclePilot), pi)
  {
    var g := Linked(raw);
    var fi, si, pi := IndexOf(raw.films), IndexOf(raw.species), IndexOf(raw.people);
    ForwardReaches(raw.species, "films", fi);
    ForwardReaches(raw.people, "films", fi);
    ForwardReaches(raw.locations, "films", fi);
    ForwardReaches(raw.locations, "people", pi);
    ForwardReaches(raw.vehicles, "films", fi);
    SinglesReach(raw.people, "species", si);
    SinglesReach(raw.vehicles, "people", pi);
    AppendedReaches(g.personFilms, |raw.films|, raw.people);
    AppendedReaches(g.speciesFilms, |raw.films|, raw.species);
    AppendedReaches(g.locationFilms, |raw.films|, raw.locations);
    AppendedReaches(g.vehicleFilms, |raw.films|, raw.vehicles);
    AppendedReaches(Lists(g.personSpecies), |raw.species|, raw.people);
    AppendedReaches(g.locationResidents, |raw.people|, raw.locations);
    AppendedReaches(Lists(g.vehiclePilot), |raw.people|, raw.vehicles);
  }

  /** Links that reach an index into `rows` rows name rows below `rows`. */
  lemma ReachesWithin(lists: seq<seq<nat>>, index: map<string, nat>, rows: nat)
    requires Reaches(lists, index) && IndexInto(index, rows)
    ensures Within(lists, rows)
  {
    forall j, x | 0 <= j < |lists| && x in lists[j] ensures x < rows {
      assert x in index.Values;
      var id :| id in index && index[id] == x;
    }
  }

  lemma AppendedWithin(fwd: seq<seq<nat>>, n: nat)
    ensures Within(Appended(Empties(n), fwd), |fwd|)
  {
    var back := Appended(Empties(n), fwd);
    forall t, x | 0 <= t < |back| && x in back[t] ensures x < |fwd| {
      assert Empties(n)[t] == [];
    }
  }

  /** Whatever the ids, every link of the built graph names an existing row
      of its target kind. */
  lemma LinkedInRange(raw: RawData)
    ensures InRange(Linked(raw))
  {
    var g := Linked(raw);
    var fi, si, pi := IndexOf(raw.films), IndexOf(raw.species), IndexOf(raw.people);
    IndexOfInto(raw.films);
    IndexOfInto(raw.species);
    IndexOfInto(raw.people);
    ForwardReaches(raw.species, "films", fi);
    ForwardReaches(raw.people, "films", fi);
    ForwardReaches(raw.locations, "films", fi);
    ForwardReaches(raw.locations, "people", pi);
    ForwardReaches(raw.vehicles, "films", fi);
    SinglesReach(raw.people, "species", si);
    SinglesReach(raw.vehicles, "people", pi);
    ReachesWithin(g.speciesFilms, fi, |g.films|);
    ReachesWithin(g.personFilms, fi, |g.films|);
    ReachesWithin(g.locationFilms, fi, |g.films|);
    ReachesWithin(g.vehicleFilms, fi, |g.films|);
    ReachesWithin(g.locationResidents, pi, |g.people|);
    ReachesWithin(Lists(g.personSpecies), si, |g.species|);
    ReachesWithin(Lists(g.vehiclePilot), pi, |g.people|);
    AppendedWithin(g.personFilms, |raw.films|);
    AppendedWithin(g.speciesFilms, |raw.films|);
    AppendedWithin(g.locationFilms, |raw.films|);
    AppendedWithin(g.vehicleFilms, |raw.films|);
    AppendedWithin(Lists(g.personSpecies), |raw.species|);
    AppendedWithin(g.locationResidents, |raw.people|);
    AppendedWithin(Lists(g.vehiclePilot), |raw.people|);
  }

  /** Every graph `__parse_raw_data` leaves, including one where a
      constructor raised part way, has all its relations recorded on both
      sides and every link naming an existing row. */
  lemma ParsedReciprocal(raw: RawData)
    ensures Reciprocal(Parsed(raw)) && InRange(Parsed(raw))
  {
    ParsedIsLinked(raw);
    LinkedReciprocal(Processed(raw));
    LinkedInRange(Processed(raw));
  }

  // ---------------------------------------------------------------------------
  // Unresolvable references, graph-wide

  /** Record `r` without the URL `u` of its list under `key`. */
  function Dropped(r: Record, key: string, before: seq<string>, after: seq<string>): Record
  {
    r.(fields := r.fields[key := Urls(before + after)])
  }

  /** Under `key`, record `r` lists URL `u` between `before` and `after`, and
      `u` names no entry of `index`. */
  predicate DanglesIn(r: Record, key: string, before: seq<string>, u: string, after: seq<string>,
                      index: map<string, nat>)
  {
    key in r.fields && r.fields[key] == Urls(before + [u] + after) && GetUuidFromUrl(u) !in index
  }

  lemma DroppedResolves(r: Record, key: string, before: seq<string>, u: string, after: seq<string>,
                        index: map<string, nat>)
    requires DanglesIn(r, key, before, u, after, index)
    ensures Resolve(UrlList(Dropped(r, key, before, after), key), index) == Resolve(UrlList(r, key), index)
  {
    ResolveDropsDangling(before, u, after, index);
  }

  lemma ForwardReplaced(recs: seq<Record>, j: nat, r: Record, key: string, index: map<string, nat>)
    requires j < |recs| && Resolve(UrlList(r, key), index) == Resolve(UrlList(recs[j], key), index)
    ensures Forward(recs[j := r], key, index) == Forward(recs, key, index)
  {
    var a, b := Forward(recs[j := r], key, index), Forward(recs, key, index);
    forall k | 0 <= k < |a| ensures a[k] == b[k] {
    }
  }

  lemma SinglesReplaced(recs: seq<Record>, j: nat, r: Record, key: string, index: map<string, nat>)
    requires j < |recs| && SingleTarget(r, key, index) == SingleTarget(recs[j], key, index)
    ensures Singles(recs[j := r], key, index) == Singles(recs, key, index)
  {
    var a, b := Singles(recs[j := r], key, index), Singles(recs, key, index);
    forall k | 0 <= k < |a| ensures a[k] == b[k] {
    }
  }

  lemma RowsReplaced<T>(recs: seq<Record>, j: nat, r: Record, make: Record -> T)
    requires j < |recs| && make(r) == make(recs[j])
    ensures Rows(recs[j := r], make) == Rows(recs, make)
  {
    var a, b := Rows(recs[j := r], make), Rows(recs, make);
    forall k | 0 <= k < |a| ensures a[k] == b[k] {
    }
  }

  /** `a` and `b` give the same rows, the same indexes and the same resolved
      links; the link builds see nothing else of the raw data. */
  ghost predicate SameColumns(a: RawData, b: RawData)
  {
    var fi, si, pi := IndexOf(a.films), IndexOf(a.species), IndexOf(a.people);
    && fi == IndexOf(b.films) && si == IndexOf(b.species) && pi == IndexOf(b.people)
    && |a.films| == |b.films| && |a.species| == |b.species| && |a.people| == |b.people|
    && Rows(a.films, MakeFilm) == Rows(b.films, MakeFilm)
    && Rows(a.species, MakeSpecies) == Rows(b.species, MakeSpecies)
    && Rows(a.people, MakePerson) == Rows(b.people, MakePerson)
    && Rows(a.locations, MakeLocation) == Rows(b.locations, MakeLocation)
    && Rows(a.vehicles, MakeVehicle) == Rows(b.vehicles, MakeVehicle)
    && Forward(a.species, "films", fi) == Forward(b.species, "films", fi)
    && Forward(a.people, "films", fi) == Forward(b.people, "films", fi)
    && Forward(a.locations, "films", fi) == Forward(b.locations, "films", fi)
    && Forward(a.vehicles, "films", fi) == Forward(b.vehicles, "films", fi)
    && Forward(a.locations, "people", pi) == Forward(b.locations, "people", pi)
    && Singles(a.people, "species", si) == Singles(b.people, "species", si)
    && Singles(a.vehicles, "people", pi) == Singles(b.vehicles, "people", pi)
  }

  /** Raw data with the same columns link into the same graph. */
  lemma LinkedByColumns(a: RawData, b: RawData)
    requires SameColumns(a, b)
    ensures Linked(a) == Linked(b)
  {
    LinkedColumns(a);
    LinkedColumns(b);
  }

  /** Replacing a species by a record with the same id, row and film links
      leaves the graph as it was. */
  lemma SpeciesReplaced(raw: RawData, j: nat, r: Record)
    requires j < |raw.species| && r.id == raw.species[j].id && MakeSpecies(r) == MakeSpecies(raw.species[j])
    requires Resolve(UrlList(r, "films"), IndexOf(raw.films)) == Resolve(UrlList(raw.species[j], "films"), IndexOf(raw.films))
    ensures Linked(raw.(species := raw.species[j := r])) == Linked(raw)
  {
    IndexOfReplaced(raw.species, j, r);
    ForwardReplaced(raw.species, j, r, "films", IndexOf(raw.films));
    RowsReplaced(raw.species, j, r, MakeSpecies);
    LinkedByColumns(raw.(species := raw.species[j := r]), raw);
  }

  /** Replacing a person by a record with the same id, row, film links and
      species leaves the graph as it was. */
  lemma PersonReplaced(raw: RawData, j: nat, r: Record)
    requires j < |raw.people| && r.id == raw.people[j].id && MakePerson(r) == MakePerson(raw.people[j])
    requires Resolve(UrlList(r, "films"), IndexOf(raw.films)) == Resolve(UrlList(raw.people[j], "films"), IndexOf(raw.films))
    requires SingleTarget(r, "species", IndexOf(raw.species)) == SingleTarget(raw.people[j], "species", IndexOf(raw.species))
    ensures Linked(raw.(people := raw.people[j := r])) == Linked(raw)
  {
    IndexOfReplaced(raw.people, j, r);
    ForwardReplaced(raw.people, j, r, "films", IndexOf(raw.films));
    SinglesReplaced(raw.people, j, r, "species", IndexOf(raw.species));
    RowsReplaced(raw.people, j, r, MakePerson);
    LinkedByColumns(raw.(people := raw.people[j := r]), raw);
  }

  /** Replacing a location by a record with the same row, film links and
      residents leaves the graph as it was. */
  lemma LocationReplaced(raw: RawData, j: nat, r: Record)
    requires j < |raw.locations| && MakeLocation(r) == MakeLocation(raw.locations[j])
    requires Resolve(UrlList(r, "films"), IndexOf(raw.films)) == Resolve(UrlList(raw.locations[j], "films"), IndexOf(raw.films))
    requires Resolve(UrlList(r, "people"), IndexOf(raw.people)) == Resolve(UrlList(raw.locations[j], "people"), IndexOf(raw.people))
    ensures Linked(raw.(locations := raw.locations[j := r])) == Linked(raw)
  {
    ForwardReplaced(raw.locations, j, r, "films", IndexOf(raw.films));
    ForwardReplaced(raw.locations, j, r, "people", IndexOf(raw.people));
    RowsReplaced(raw.locations, j, r, MakeLocation);
    LinkedByColumns(raw.(locations := raw.locations[j := r]), raw);
  }

  /** Replacing a vehicle by a record with the same row, film links and pilot
      leaves the graph as it was. */
  lemma VehicleReplaced(raw: RawData, j: nat, r: Record)
    requires j < |raw.vehicles| && MakeVehicle(r) == MakeVehicle(raw.vehicles[j])
    requires Resolve(UrlList(r, "films"), IndexOf(raw.films)) == Resolve(UrlList(raw.vehicles[j], "films"), IndexOf(raw.films))
    requires SingleTarget(r, "people", IndexOf(raw.people)) == SingleTarget(raw.vehicles[j], "people", IndexOf(raw.people))
    ensures Linked(raw.(vehicles := raw.vehicles[j := r])) == Linked(raw)
  {
    ForwardReplaced(raw.vehicles, j, r, "films", IndexOf(raw.films));
    SinglesReplaced(raw.vehicles, j, r, "people", IndexOf(raw.people));
    RowsReplaced(raw.vehicles, j, r, MakeVehicle);
    LinkedByColumns(raw.(vehicles := raw.vehicles[j := r]), raw);
  }

  /** A species' film URL that names no film changes nothing in the graph,
      on either side (ghibli.py:63-64). */
  lemma SpeciesFilmDangling(raw: RawData, j: nat, before: seq<string>, u: string, after: seq<string>)
    requires j < |raw.species| && DanglesIn(raw.species[j], "films", before, u, after, IndexOf(raw.films))
    ensures Linked(raw.(species := raw.species[j := Dropped(raw.species[j], "films", before, after)])) == Linked(raw)
  {
    DroppedResolves(raw.species[j], "films", before, u, after, IndexOf(raw.films));
    SpeciesReplaced(raw, j, Dropped(raw.species[j], "films", before, after));
  }

  /** A person's film URL that names no film changes nothing in the graph
      (ghibli.py:88-89). */
  lemma PersonFilmDangling(raw: RawData, j: nat, before: seq<string>, u: string, after: seq<string>)
    requires j < |raw.people| && DanglesIn(raw.people[j], "films", before, u, after, IndexOf(raw.films))
    ensures Linked(raw.(people := raw.people[j := Dropped(raw.people[j], "films", before, after)])) == Linked(raw)
  {
    var p, r := raw.people[j], Dropped(raw.people[j], "films", before, after);
    DroppedResolves(p, "films", before, u, after, IndexOf(raw.films));
    assert Get(r, "species") == Get(p, "species");
    PersonReplaced(raw, j, r);
  }

  /** A location's film URL that names no film changes nothing in the graph
      (ghibli.py:124-125). */
  lemma LocationFilmDangling(raw: RawData, j: nat, before: seq<string>, u: string, after: seq<string>)
    requires j < |raw.locations| && DanglesIn(raw.locations[j], "films", before, u, after, IndexOf(raw.films))
    ensures Linked(raw.(locations := raw.locations[j := Dropped(raw.locations[j], "films", before, after)])) == Linked(raw)
  {
    DroppedResolves(raw.locations[j], "films", before, u, after, IndexOf(raw.films));
    LocationReplaced(raw, j, Dropped(raw.locations[j], "films", before, after));
  }

  /** A location's resident URL that names no person changes nothing in the
      graph (ghibli.py:134-135). */
  lemma LocationResidentDangling(raw: RawData, j: nat, before: seq<string>, u: string, after: seq<string>)
    requires j < |raw.locations| && DanglesIn(raw.locations[j], "people", before, u, after, IndexOf(raw.people))
    ensures Linked(raw.(locations := raw.locations[j := Dropped(raw.locations[j], "people", before, after)])) == Linked(raw)
  {
    DroppedResolves(raw.locations[j], "people", before, u, after, IndexOf(raw.people));
    LocationReplaced(raw, j, Dropped(raw.locations[j], "people", before, after));
  }

  /** A vehicle's film URL that names no film changes nothing in the graph
      (ghibli.py:157-158). */
  lemma VehicleFilmDangling(raw: RawData, j: nat, before: seq<string>, u: string, after: seq<string>)
    requires j < |raw.vehicles| && DanglesIn(raw.vehicles[j], "films", before, u, after, IndexOf(raw.films))
    ensures Linked(raw.(vehicles := raw.vehicles[j := Dropped(raw.vehicles[j], "films", before, after)])) == Linked(raw)
  {
    var v, r := raw.vehicles[j], Dropped(raw.vehicles[j], "films", before, after);
    DroppedResolves(v, "films", before, u, after, IndexOf(raw.films));
    assert Get(r, "people") == Get(v, "people");
    VehicleReplaced(raw, j, r);
  }

  /** Record `r` without its value under `key`. */
  function Unset(r: Record, key: string): Record
  {
    r.(fields := r.fields - {key})
  }

  /** A person's species URL that names no species leaves the person exactly
      as if it had none, and the graph unchanged (ghibli.py:99-100). */
  lemma PersonSpeciesDangling(raw: RawData, j: nat)
    requires j < |raw.people| && "species" in raw.people[j].fields && raw.people[j].fields["species"].Text?
    requires GetUuidFromUrl(raw.people[j].fields["species"].s) !in IndexOf(raw.species)
    ensures Linked(raw.(people := raw.people[j := Unset(raw.people[j], "species")])) == Linked(raw)
  {
    PersonReplaced(raw, j, Unset(raw.people[j], "species"));
  }

  /** A vehicle's pilot URL that names no person leaves the vehicle without a
      pilot, exactly as if it had none, and the graph unchanged
      (ghibli.py:168-169). */
  lemma VehiclePilotDangling(raw: RawData, j: nat)
    requires j < |raw.vehicles| && "people" in raw.vehicles[j].fields && raw.vehicles[j].fields["people"].Text?
    requires GetUuidFromUrl(raw.vehicles[j].fields["people"].s) !in IndexOf(raw.people)
    ensures Linked(raw.(vehicles := raw.vehicles[j := Unset(raw.vehicles[j], "people")])) == Linked(raw)
  {
    VehicleReplaced(raw, j, Unset(raw.vehicles[j], "people"));
  }
}
