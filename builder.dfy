/** `GhibliCache.__parse_raw_data` and the five model constructors: the
    kinds are built in the fixed order films, species, people, locations,
    vehicles, each resolving its references only against the indexes built
    before it. */
module Builder {
  import opened Records
  import opened Links
  import opened Graph

  /** The five decoded collections (`raw_data`). */
  datatype RawData = RawData(films: seq<Record>, people: seq<Record>, locations: seq<Record>,
                             species: seq<Record>, vehicles: seq<Record>)

  /** The five published id indexes (`data`), as row numbers. */
  datatype Indexes = Indexes(films: map<string, nat>, species: map<string, nat>, people: map<string, nat>,
                             locations: map<string, nat>, vehicles: map<string, nat>)

  // ---------------------------------------------------------------------------
  // The expected graph

  function Rows<T>(recs: seq<Record>, make: Record -> T): (rows: seq<T>)
    ensures |rows| == |recs|
  {
    seq(|recs|, i requires 0 <= i < |recs| => make(recs[i]))
  }

  function Empties(n: nat): (lists: seq<seq<nat>>)
    ensures |lists| == n
  {
    seq(n, _ => [])
  }

  /** The forward lists of a kind: each record's URLs under `key`, resolved. */
  function Forward(recs: seq<Record>, key: string, index: map<string, nat>): (lists: seq<seq<nat>>)
    ensures |lists| == |recs|
  {
    seq(|recs|, j requires 0 <= j < |recs| => Resolve(UrlList(recs[j], key), index))
  }

  lemma ForwardSnoc(recs: seq<Record>, j: nat, key: string, index: map<string, nat>)
    requires j < |recs|
    ensures Forward(recs[..j + 1], key, index) == Forward(recs[..j], key, index) + [Resolve(UrlList(recs[j], key), index)]
  {
    var a := Forward(recs[..j + 1], key, index);
    var b := Forward(recs[..j], key, index) + [Resolve(UrlList(recs[j], key), index)];
    assert |a| == |b|;
    forall k | 0 <= k < |a| ensures a[k] == b[k] {
      assert recs[..j + 1][k] == recs[k];
    }
  }

  /** The single optional link of a record (`species`, `pilot`): only read
      when the collection is non-empty and the value is a non-empty URL. */
  function SingleTarget(r: Record, key: string, index: map<string, nat>): Option<nat>
  {
    if index == map[] then None
    else match SingleUrl(r, key)
      case Ref(u) => ResolveOne(u, index)
      case _ => None
  }

  /** Whether reading that single link raises (a non-empty list in place of a URL). */
  predicate RefFails(r: Record, key: string, index: map<string, nat>)
  {
    index != map[] && SingleUrl(r, key).Malformed?
  }

  function Singles(recs: seq<Record>, key: string, index: map<string, nat>): (opts: seq<Option<nat>>)
    ensures |opts| == |recs|
  {
    seq(|recs|, j requires 0 <= j < |recs| => SingleTarget(recs[j], key, index))
  }

  lemma SinglesSnoc(recs: seq<Record>, j: nat, key: string, index: map<string, nat>)
    requires j < |recs|
    ensures Singles(recs[..j + 1], key, index) == Singles(recs[..j], key, index) + [SingleTarget(recs[j], key, index)]
  {
    var a := Singles(recs[..j + 1], key, index);
    var b := Singles(recs[..j], key, index) + [SingleTarget(recs[j], key, index)];
    assert |a| == |b|;
    forall k | 0 <= k < |a| ensures a[k] == b[k] {
      assert recs[..j + 1][k] == recs[k];
    }
  }

  /** Back-link columns for `n` targets after appending the sources `fwd`. */
  function Appended(back: seq<seq<nat>>, fwd: seq<seq<nat>>): (r: seq<seq<nat>>)
    ensures |r| == |back|
  {
    seq(|back|, t requires 0 <= t < |back| => back[t] + BackLinks(fwd, t))
  }

  /** How many constructors of a kind run when the records are built in
      order: up to and including the first that raises, or all of them. */
  function Reach(recs: seq<Record>, key: string, index: map<string, nat>): (n: nat)
    ensures n <= |recs|
  {
    if |recs| == 0 then 0
    else if RefFails(recs[0], key, index) then 1
    else 1 + Reach(recs[1..], key, index)
  }

  /** `Reach` stops at the first raising record, and reaches the end when none raises. */
  lemma {:induction false} ReachSpec(recs: seq<Record>, key: string, index: map<string, nat>)
    ensures var n := Reach(recs, key, index);
      (forall k :: 0 <= k < n - 1 ==> !RefFails(recs[k], key, index)) &&
      ((forall k :: 0 <= k < |recs| ==> !RefFails(recs[k], key, index)) ==> n == |recs|) &&
      ((exists k :: 0 <= k < |recs| && RefFails(recs[k], key, index)) ==> 0 < n && RefFails(recs[n - 1], key, index))
  {
    if |recs| > 0 && !RefFails(recs[0], key, index) {
      var rest := recs[1..];
      ReachSpec(rest, key, index);
      assert forall k :: 0 <= k < |rest| ==> rest[k] == recs[k + 1];
      if k :| 0 <= k < |recs| && RefFails(recs[k], key, index) {
        assert RefFails(rest[k - 1], key, index);
      }
    }
  }

  /** `Reach` from record `p` on: that record runs, and the rest run only
      when it does not raise. */
  lemma ReachFrom(recs: seq<Record>, key: string, index: map<string, nat>, p: nat)
    requires p < |recs|
    ensures Reach(recs[p..], key, index) ==
      if RefFails(recs[p], key, index) then 1 else 1 + Reach(recs[p + 1..], key, index)
  {
    assert recs[p..][1..] == recs[p + 1..];
  }

  /** Whether every constructor runs without raising. */
  predicate Parses(raw: RawData)
  {
    && (forall p :: 0 <= p < |raw.people| ==> !RefFails(raw.people[p], "species", IndexOf(raw.species)))
    && (forall v :: 0 <= v < |raw.vehicles| ==> !RefFails(raw.vehicles[v], "people", IndexOf(raw.people)))
  }

  /** The graph once the films are built: rows only, every link list empty. */
  function FilmsStage(recs: seq<Record>): Graph
  {
    var n := |recs|;
    EmptyGraph().(films := Rows(recs, MakeFilm), filmCharacters := Empties(n), filmSpecies := Empties(n),
                  filmLocations := Empties(n), filmVehicles := Empties(n))
  }

  /** Adds the species: their film lists, and each film's species list extended. */
  function SpeciesStage(g: Graph, fi: map<string, nat>, recs: seq<Record>): Graph
  {
    var sf := Forward(recs, "films", fi);
    g.(species := Rows(recs, MakeSpecies), speciesFilms := sf, speciesPeople := Empties(|recs|),
       filmSpecies := Appended(g.filmSpecies, sf))
  }

  /** Adds the people: their films and species, mirrored on films and species. */
  function PeopleStage(g: Graph, fi: map<string, nat>, si: map<string, nat>, recs: seq<Record>): Graph
  {
    var pf := Forward(recs, "films", fi);
    var ps := Singles(recs, "species", si);
    g.(people := Rows(recs, MakePerson), personFilms := pf, personSpecies := ps,
       personLocations := Empties(|recs|), personVehicles := Empties(|recs|),
       filmCharacters := Appended(g.filmCharacters, pf), speciesPeople := Appended(g.speciesPeople, Lists(ps)))
  }

  /** Adds the locations: their films and residents, mirrored on films and people. */
  function LocationsStage(g: Graph, fi: map<string, nat>, pi: map<string, nat>, recs: seq<Record>): Graph
  {
    var lf := Forward(recs, "films", fi);
    var lr := Forward(recs, "people", pi);
    g.(locations := Rows(recs, MakeLocation), locationFilms := lf, locationResidents := lr,
       filmLocations := Appended(g.filmLocations, lf), personLocations := Appended(g.personLocations, lr))
  }

  /** Adds the vehicles: their films and pilot, mirrored on films and people. */
  function VehiclesStage(g: Graph, fi: map<string, nat>, pi: map<string, nat>, recs: seq<Record>): Graph
  {
    var vf := Forward(recs, "films", fi);
    var vp := Singles(recs, "people", pi);
    g.(vehicles := Rows(recs, MakeVehicle), vehicleFilms := vf, vehiclePilot := vp,
       filmVehicles := Appended(g.filmVehicles, vf), personVehicles := Appended(g.personVehicles, Lists(vp)))
  }

  /** The graph `__parse_raw_data` builds when no constructor raises: rows in
      record order, forward lists resolved against the earlier kinds'
      indexes, and every back-link list filled in the order the referring
      records are processed. */
  function Linked(raw: RawData): Graph
  {
    var fi := IndexOf(raw.films);
    var si := IndexOf(raw.species);
    var pi := IndexOf(raw.people);
    var g := PeopleStage(SpeciesStage(FilmsStage(raw.films), fi, raw.species), fi, si, raw.people);
    VehiclesStage(LocationsStage(g, fi, pi, raw.locations), fi, pi, raw.vehicles)
  }

  /** `Linked` column by column. */
  lemma LinkedColumns(raw: RawData)
    ensures var g := Linked(raw);
      var fi, si, pi := IndexOf(raw.films), IndexOf(raw.species), IndexOf(raw.people);
      var nf, ns, np := |raw.films|, |raw.species|, |raw.people|;
      && g.films == Rows(raw.films, MakeFilm) && g.species == Rows(raw.species, MakeSpecies)
      && g.people == Rows(raw.people, MakePerson) && g.locations == Rows(raw.locations, MakeLocation)
      && g.vehicles == Rows(raw.vehicles, MakeVehicle)
      && g.speciesFilms == Forward(raw.species, "films", fi) && g.personFilms == Forward(raw.people, "films", fi)
      && g.locationFilms == Forward(raw.locations, "films", fi) && g.vehicleFilms == Forward(raw.vehicles, "films", fi)
      && g.personSpecies == Singles(raw.people, "species", si) && g.vehiclePilot == Singles(raw.vehicles, "people", pi)
      && g.locationResidents == Forward(raw.locations, "people", pi)
      && g.filmSpecies == Appended(Empties(nf), g.speciesFilms) && g.filmCharacters == Appended(Empties(nf), g.personFilms)
      && g.filmLocations == Appended(Empties(nf), g.locationFilms) && g.filmVehicles == Appended(Empties(nf), g.vehicleFilms)
      && g.speciesPeople == Appended(Empties(ns), Lists(g.personSpecies))
      && g.personLocations == Appended(Empties(np), g.locationResidents)
      && g.personVehicles == Appended(Empties(np), Lists(g.vehiclePilot))
  {
  }

  /** Whether some person's `species` value makes its constructor raise. */
  predicate PeopleRaise(raw: RawData)
  {
    exists p :: 0 <= p < |raw.people| && RefFails(raw.people[p], "species", IndexOf(raw.species))
  }

  /** The graph `__parse_raw_data` leaves behind, raising or not: the builds
      stop at the first constructor that raises, which keeps the links it
      made before raising. */
  function Parsed(raw: RawData): Graph
  {
    var fi := IndexOf(raw.films);
    var si := IndexOf(raw.species);
    var pi := IndexOf(raw.people);
    var g := SpeciesStage(FilmsStage(raw.films), fi, raw.species);
    var g' := PeopleStage(g, fi, si, raw.people[..Reach(raw.people, "species", si)]);
    if PeopleRaise(raw) then g'
    else VehiclesStage(LocationsStage(g', fi, pi, raw.locations), fi, pi,
                       raw.vehicles[..Reach(raw.vehicles, "people", pi)])
  }

  /** The records whose constructors ran: all of them when nothing raises;
      otherwise the people up to the raising one and no locations or vehicles
      when a person raised, or the vehicles up to the raising one. */
  function Processed(raw: RawData): (done: RawData)
    ensures done.films == raw.films && done.species == raw.species
  {
    var si, pi := IndexOf(raw.species), IndexOf(raw.people);
    if PeopleRaise(raw) then
      raw.(people := raw.people[..Reach(raw.people, "species", si)], locations := [], vehicles := [])
    else raw.(vehicles := raw.vehicles[..Reach(raw.vehicles, "people", pi)])
  }

  /** A build that raised leaves exactly the graph a complete build of the
      records it processed would have: nothing half-linked besides the links
      the raising constructor made before it raised. */
  lemma ParsedIsLinked(raw: RawData)
    ensures Parsed(raw) == Linked(Processed(raw))
  {
    var si := IndexOf(raw.species);
    ReachSpec(raw.people, "species", si);
    if PeopleRaise(raw) {
      var g := Parsed(raw);
      AppendedNothing(g.filmLocations);
      AppendedNothing(g.personLocations);
      AppendedNothing(g.filmVehicles);
      AppendedNothing(g.personVehicles);
    } else {
      assert raw.people[..Reach(raw.people, "species", si)] == raw.people;
    }
  }

  // ---------------------------------------------------------------------------
  // The builds, one per kind

  lemma RowsSnoc<T>(recs: seq<Record>, j: nat, make: Record -> T)
    requires j < |recs|
    ensures Rows(recs[..j + 1], make) == Rows(recs[..j], make) + [make(recs[j])]
  {
    var a := Rows(recs[..j + 1], make);
    var b := Rows(recs[..j], make) + [make(recs[j])];
    assert |a| == |b|;
    forall k | 0 <= k < |a| ensures a[k] == b[k] {
      assert recs[..j + 1][k] == recs[k];
    }
  }

  lemma AppendedNothing(back0: seq<seq<nat>>)
    ensures Appended(back0, []) == back0
  {
    assert forall t :: 0 <= t < |back0| ==> Appended(back0, [])[t] == back0[t];
  }

  /** One more source appended: its row number joins each target's list once
      per link to that target. */
  lemma AppendedSnoc(back0: seq<seq<nat>>, fwd: seq<seq<nat>>, forward: seq<nat>, back': seq<seq<nat>>)
    requires |back'| == |back0|
    requires forall t :: 0 <= t < |back'| ==> back'[t] == Appended(back0, fwd)[t] + Repeat(|fwd|, Count(forward, t))
    ensures back' == Appended(back0, fwd + [forward])
  {
    forall t | 0 <= t < |back'|
      ensures back'[t] == Appended(back0, fwd + [forward])[t]
    {
      BackLinksSnoc(fwd, forward, t);
    }
  }

  /** `Lists` of one more optional link. */
  lemma ListsSnoc(opts: seq<Option<nat>>, o: Option<nat>)
    ensures Lists(opts + [o]) == Lists(opts) + [AsList(o)]
  {
  }

  /** `for url in kwargs.get(key, [])` guarded by `if collection:`. */
  method LinkGuarded(urls: seq<string>, index: map<string, nat>, back: seq<seq<nat>>, self: nat)
    returns (forward: seq<nat>, back': seq<seq<nat>>)
    requires IndexInto(index, |back|)
    ensures forward == Resolve(urls, index)
    ensures |back'| == |back|
    ensures forall t :: 0 <= t < |back| ==> back'[t] == back[t] + Repeat(self, Count(forward, t))
  {
    if index != map[] {
      forward, back' := LinkAll(urls, index, back, self);
    } else {
      ResolveEmptyIndex(urls);
      forward, back' := [], back;
    }
  }

  /** The single optional link of a constructor (`species`, `pilot`), guarded by
      `if collection:` and `if url:`; `raised` tells that `url.split` raised. */
  method LinkSingle(r: Record, key: string, index: map<string, nat>, back: seq<seq<nat>>, self: nat)
    returns (raised: bool, target: Option<nat>, back': seq<seq<nat>>)
    requires IndexInto(index, |back|)
    ensures raised == RefFails(r, key, index)
    ensures target == SingleTarget(r, key, index)
    ensures |back'| == |back|
    ensures forall t :: 0 <= t < |back| ==> back'[t] == back[t] + Repeat(self, Count(AsList(target), t))
  {
    raised, target, back' := false, None, back;
    if index != map[] {
      match SingleUrl(r, key)
      case NoRef =>
      case Ref(url) =>
        target, back' := LinkOne(url, index, back, self);
      case Malformed =>
        raised := true;
    }
  }

  /** `{film['id']: Film(**film) for film in raw_data['films']}`. */
  method BuildFilms(recs: seq<Record>) returns (g: Graph, index: map<string, nat>)
    ensures g == FilmsStage(recs)
    ensures index == IndexOf(recs)
  {
    var rows: seq<Film> := [];
    var empties: seq<seq<nat>> := [];
    index := map[];
    var i := 0;
    while i < |recs|
      invariant 0 <= i <= |recs|
      invariant rows == Rows(recs[..i], MakeFilm)
      invariant empties == Empties(i)
      invariant index == IndexOf(recs[..i])
    {
      assert recs[..i + 1][..i] == recs[..i];
      RowsSnoc(recs, i, MakeFilm);
      rows := rows + [MakeFilm(recs[i])];
      empties := empties + [[]];
      index := index[recs[i].id := i];
      i := i + 1;
    }
    assert recs[..i] == recs;
    g := EmptyGraph().(films := rows, filmCharacters := empties, filmSpecies := empties,
                       filmLocations := empties, filmVehicles := empties);
  }

  /** `{spec['id']: Species(films, **spec) for spec in raw_data['species']}`. */
  method BuildSpecies(g: Graph, filmIndex: map<string, nat>, recs: seq<Record>)
    returns (g': Graph, index: map<string, nat>)
    requires Wf(g) && IndexInto(filmIndex, |g.films|)
    ensures g' == SpeciesStage(g, filmIndex, recs)
    ensures index == IndexOf(recs)
  {
    var rows: seq<Species> := [];
    var fwd: seq<seq<nat>> := [];
    var people: seq<seq<nat>> := [];
    var back := g.filmSpecies;
    AppendedNothing(g.filmSpecies);
    index := map[];
    var j := 0;
    while j < |recs|
      invariant 0 <= j <= |recs|
      invariant rows == Rows(recs[..j], MakeSpecies)
      invariant fwd == Forward(recs[..j], "films", filmIndex)
      invariant people == Empties(j)
      invariant back == Appended(g.filmSpecies, fwd)
      invariant index == IndexOf(recs[..j])
    {
      assert recs[..j + 1][..j] == recs[..j];
      RowsSnoc(recs, j, MakeSpecies);
      ForwardSnoc(recs, j, "films", filmIndex);
      var forward, back' := LinkGuarded(UrlList(recs[j], "films"), filmIndex, back, j);
      AppendedSnoc(g.filmSpecies, fwd, forward, back');
      rows, fwd, people, back := rows + [MakeSpecies(recs[j])], fwd + [forward], people + [[]], back';
      index := index[recs[j].id := j];
      j := j + 1;
    }
    assert recs[..j] == recs;
    g' := g.(species := rows, speciesFilms := fwd, speciesPeople := people, filmSpecies := back);
  }

  /** `People.__init__` for the record `r` becoming row `self`: its films
      loop, then its optional species. `raised` tells that reading the
      species reference raised, after the film links were already made. */
  method NewPerson(r: Record, self: nat, filmIndex: map<string, nat>, speciesIndex: map<string, nat>,
                   characters: seq<seq<nat>>, members: seq<seq<nat>>)
    returns (raised: bool, forward: seq<nat>, species: Option<nat>,
             characters': seq<seq<nat>>, members': seq<seq<nat>>)
    requires IndexInto(filmIndex, |characters|) && IndexInto(speciesIndex, |members|)
    ensures raised == RefFails(r, "species", speciesIndex)
    ensures forward == Resolve(UrlList(r, "films"), filmIndex)
    ensures species == SingleTarget(r, "species", speciesIndex)
    ensures |characters'| == |characters| && |members'| == |members|
    ensures forall t :: 0 <= t < |characters| ==> characters'[t] == characters[t] + Repeat(self, Count(forward, t))
    ensures forall t :: 0 <= t < |members| ==> members'[t] == members[t] + Repeat(self, Count(AsList(species), t))
  {
    forward, characters' := LinkGuarded(UrlList(r, "films"), filmIndex, characters, self);
    raised, species, members' := LinkSingle(r, "species", speciesIndex, members, self);
  }

  /** The graph with person `r` added as its next row, with its film and
      species links and the film and species back lists it left. */
  function WithPerson(cur: Graph, r: Record, films: seq<nat>, species: Option<nat>,
                      characters: seq<seq<nat>>, members: seq<seq<nat>>): Graph
  {
    cur.(people := cur.people + [MakePerson(r)], personFilms := cur.personFilms + [films],
         personSpecies := cur.personSpecies + [species], personLocations := cur.personLocations + [[]],
         personVehicles := cur.personVehicles + [[]], filmCharacters := characters, speciesPeople := members)
  }

  /** The people stage grows by one record at a time. */
  lemma PeopleStep(g: Graph, fi: map<string, nat>, si: map<string, nat>, recs: seq<Record>, p: nat,
                   forward: seq<nat>, target: Option<nat>, characters: seq<seq<nat>>, members: seq<seq<nat>>)
    requires p < |recs|
    requires forward == Resolve(UrlList(recs[p], "films"), fi)
    requires target == SingleTarget(recs[p], "species", si)
    requires var cur := PeopleStage(g, fi, si, recs[..p]);
      && |characters| == |cur.filmCharacters| && |members| == |cur.speciesPeople|
      && (forall t :: 0 <= t < |characters| ==> characters[t] == cur.filmCharacters[t] + Repeat(p, Count(forward, t)))
      && (forall t :: 0 <= t < |members| ==> members[t] == cur.speciesPeople[t] + Repeat(p, Count(AsList(target), t)))
    ensures PeopleStage(g, fi, si, recs[..p + 1]) ==
      WithPerson(PeopleStage(g, fi, si, recs[..p]), recs[p], forward, target, characters, members)
  {
    var fwd := Forward(recs[..p], "films", fi);
    var single := Singles(recs[..p], "species", si);
    assert |fwd| == p && |Lists(single)| == p;
    RowsSnoc(recs, p, MakePerson);
    ForwardSnoc(recs, p, "films", fi);
    SinglesSnoc(recs, p, "species", si);
    AppendedSnoc(g.filmCharacters, fwd, forward, characters);
    ListsSnoc(single, target);
    AppendedSnoc(g.speciesPeople, Lists(single), AsList(target), members);
    assert Empties(p + 1) == Empties(p) + [[]];
  }

  /** `{p['id']: People(films, species, **p) for p in raw_data['people']}`.
      When a constructor raises, `ok` is false and the comprehension stops:
      the graph then holds the people built so far, the raising one included
      with the film links it already made. */
  method BuildPeople(g: Graph, filmIndex: map<string, nat>, speciesIndex: map<string, nat>, recs: seq<Record>)
    returns (g': Graph, index: map<string, nat>, ok: bool)
    requires Wf(g) && IndexInto(filmIndex, |g.films|) && IndexInto(speciesIndex, |g.species|)
    ensures ok <==> forall p :: 0 <= p < |recs| ==> !RefFails(recs[p], "species", speciesIndex)
    ensures g' == PeopleStage(g, filmIndex, speciesIndex, recs[..Reach(recs, "species", speciesIndex)])
    ensures ok ==> index == IndexOf(recs)
  {
    AppendedNothing(g.filmCharacters);
    AppendedNothing(g.speciesPeople);
    g' := g.(people := [], personFilms := [], personSpecies := [], personLocations := [],
             personVehicles := [], filmCharacters := g.filmCharacters, speciesPeople := g.speciesPeople);
    assert recs[..0] == [];
    index := map[];
    ok := true;
    var p := 0;
    while ok && p < |recs|
      invariant 0 <= p <= |recs|
      invariant g' == PeopleStage(g, filmIndex, speciesIndex, recs[..p])
      invariant |g'.filmCharacters| == |g.filmCharacters| && |g'.speciesPeople| == |g.speciesPeople|
      invariant ok ==> index == IndexOf(recs[..p])
      invariant ok ==> forall k :: 0 <= k < p ==> !RefFails(recs[k], "species", speciesIndex)
      invariant ok ==> Reach(recs, "species", speciesIndex) == p + Reach(recs[p..], "species", speciesIndex)
      invariant !ok ==> 0 < p && RefFails(recs[p - 1], "species", speciesIndex)
      invariant !ok ==> Reach(recs, "species", speciesIndex) == p
    {
      var raised, forward, target, characters, members :=
        NewPerson(recs[p], p, filmIndex, speciesIndex, g'.filmCharacters, g'.speciesPeople);
      PeopleStep(g, filmIndex, speciesIndex, recs, p, forward, target, characters, members);
      g' := WithPerson(g', recs[p], forward, target, characters, members);
      IndexOfSnoc(recs, p);
      ReachFrom(recs, "species", speciesIndex, p);
      if raised {
        ok := false;
      } else {
        index := index[recs[p].id := p];
      }
      p := p + 1;
    }
    if ok {
      assert recs[..p] == recs;
    }
  }

  /** `Location.__init__` for the record `r` becoming row `self`: its films
      loop, then its residents loop over the key `people`. */
  method NewLocation(r: Record, self: nat, filmIndex: map<string, nat>, peopleIndex: map<string, nat>,
                     filmLocations: seq<seq<nat>>, personLocations: seq<seq<nat>>)
    returns (films: seq<nat>, residents: seq<nat>, filmLocations': seq<seq<nat>>, personLocations': seq<seq<nat>>)
    requires IndexInto(filmIndex, |filmLocations|) && IndexInto(peopleIndex, |personLocations|)
    ensures films == Resolve(UrlList(r, "films"), filmIndex)
    ensures residents == Resolve(UrlList(r, "people"), peopleIndex)
    ensures |filmLocations'| == |filmLocations| && |personLocations'| == |personLocations|
    ensures forall t :: 0 <= t < |filmLocations| ==> filmLocations'[t] == filmLocations[t] + Repeat(self, Count(films, t))
    ensures forall t :: 0 <= t < |personLocations| ==>
      personLocations'[t] == personLocations[t] + Repeat(self, Count(residents, t))
  {
    films, filmLocations' := LinkGuarded(UrlList(r, "films"), filmIndex, filmLocations, self);
    residents, personLocations' := LinkGuarded(UrlList(r, "people"), peopleIndex, personLocations, self);
  }

  /** The graph with location `r` added as its next row, with its film and
      resident links and the film and person back lists it left. */
  function WithLocation(cur: Graph, r: Record, films: seq<nat>, residents: seq<nat>,
                        filmLocations: seq<seq<nat>>, personLocations: seq<seq<nat>>): Graph
  {
    cur.(locations := cur.locations + [MakeLocation(r)], locationFilms := cur.locationFilms + [films],
         locationResidents := cur.locationResidents + [residents],
         filmLocations := filmLocations, personLocations := personLocations)
  }

  /** The locations stage grows by one record at a time. */
  lemma LocationsStep(g: Graph, fi: map<string, nat>, pi: map<string, nat>, recs: seq<Record>, l: nat,
                      films: seq<nat>, residents: seq<nat>, filmLocations: seq<seq<nat>>, personLocations: seq<seq<nat>>)
    requires l < |recs|
    requires films == Resolve(UrlList(recs[l], "films"), fi)
    requires residents == Resolve(UrlList(recs[l], "people"), pi)
    requires var cur := LocationsStage(g, fi, pi, recs[..l]);
      && |filmLocations| == |cur.filmLocations| && |personLocations| == |cur.personLocations|
      && (forall t :: 0 <= t < |filmLocations| ==> filmLocations[t] == cur.filmLocations[t] + Repeat(l, Count(films, t)))
      && (forall t :: 0 <= t < |personLocations| ==>
            personLocations[t] == cur.personLocations[t] + Repeat(l, Count(residents, t)))
    ensures LocationsStage(g, fi, pi, recs[..l + 1]) ==
      WithLocation(LocationsStage(g, fi, pi, recs[..l]), recs[l], films, residents, filmLocations, personLocations)
  {
    var lf := Forward(recs[..l], "films", fi);
    var lr := Forward(recs[..l], "people", pi);
    assert |lf| == l && |lr| == l;
    RowsSnoc(recs, l, MakeLocation);
    ForwardSnoc(recs, l, "films", fi);
    ForwardSnoc(recs, l, "people", pi);
    AppendedSnoc(g.filmLocations, lf, films, filmLocations);
    AppendedSnoc(g.personLocations, lr, residents, personLocations);
  }

  /** `{loc['id']: Location(films, people, **loc) for loc in raw_data['locations']}`. */
  method BuildLocations(g: Graph, filmIndex: map<string, nat>, peopleIndex: map<string, nat>, recs: seq<Record>)
    returns (g': Graph, index: map<string, nat>)
    requires Wf(g) && IndexInto(filmIndex, |g.films|) && IndexInto(peopleIndex, |g.people|)
    ensures g' == LocationsStage(g, filmIndex, peopleIndex, recs)
    ensures index == IndexOf(recs)
  {
    AppendedNothing(g.filmLocations);
    AppendedNothing(g.personLocations);
    g' := g.(locations := [], locationFilms := [], locationResidents := []);
    assert recs[..0] == [];
    index := map[];
    var l := 0;
    while l < |recs|
      invariant 0 <= l <= |recs|
      invariant g' == LocationsStage(g, filmIndex, peopleIndex, recs[..l])
      invariant |g'.filmLocations| == |g.filmLocations| && |g'.personLocations| == |g.personLocations|
      invariant index == IndexOf(recs[..l])
    {
      var films, residents, filmLocations, personLocations :=
        NewLocation(recs[l], l, filmIndex, peopleIndex, g'.filmLocations, g'.personLocations);
      LocationsStep(g, filmIndex, peopleIndex, recs, l, films, residents, filmLocations, personLocations);
      g' := WithLocation(g', recs[l], films, residents, filmLocations, personLocations);
      assert recs[..l + 1][..l] == recs[..l];
      index := index[recs[l].id := l];
      l := l + 1;
    }
    assert recs[..l] == recs;
  }

  /** `Vehicle.__init__` for the record `r` becoming row `self`: its films
      loop, then its optional pilot, read from the key `people`. */
  method NewVehicle(r: Record, self: nat, filmIndex: map<string, nat>, peopleIndex: map<string, nat>,
                    filmVehicles: seq<seq<nat>>, personVehicles: seq<seq<nat>>)
    returns (raised: bool, films: seq<nat>, pilot: Option<nat>,
             filmVehicles': seq<seq<nat>>, personVehicles': seq<seq<nat>>)
    requires IndexInto(filmIndex, |filmVehicles|) && IndexInto(peopleIndex, |personVehicles|)
    ensures raised == RefFails(r, "people", peopleIndex)
    ensures films == Resolve(UrlList(r, "films"), filmIndex)
    ensures pilot == SingleTarget(r, "people", peopleIndex)
    ensures |filmVehicles'| == |filmVehicles| && |personVehicles'| == |personVehicles|
    ensures forall t :: 0 <= t < |filmVehicles| ==> filmVehicles'[t] == filmVehicles[t] + Repeat(self, Count(films, t))
    ensures forall t :: 0 <= t < |personVehicles| ==>
      personVehicles'[t] == personVehicles[t] + Repeat(self, Count(AsList(pilot), t))
  {
    films, filmVehicles' := LinkGuarded(UrlList(r, "films"), filmIndex, filmVehicles, self);
    raised, pilot, personVehicles' := LinkSingle(r, "people", peopleIndex, personVehicles, self);
  }

  /** The graph with vehicle `r` added as its next row, with its film and
      pilot links and the film and person back lists it left. */
  function WithVehicle(cur: Graph, r: Record, films: seq<nat>, pilot: Option<nat>,
                       filmVehicles: seq<seq<nat>>, personVehicles: seq<seq<nat>>): Graph
  {
    cur.(vehicles := cur.vehicles + [MakeVehicle(r)], vehicleFilms := cur.vehicleFilms + [films],
         vehiclePilot := cur.vehiclePilot + [pilot], filmVehicles := filmVehicles, personVehicles := personVehicles)
  }

  /** The vehicles stage grows by one record at a time. */
  lemma VehiclesStep(g: Graph, fi: map<string, nat>, pi: map<string, nat>, recs: seq<Record>, v: nat,
                     films: seq<nat>, pilot: Option<nat>, filmVehicles: seq<seq<nat>>, personVehicles: seq<seq<nat>>)
    requires v < |recs|
    requires films == Resolve(UrlList(recs[v], "films"), fi)
    requires pilot == SingleTarget(recs[v], "people", pi)
    requires var cur := VehiclesStage(g, fi, pi, recs[..v]);
      && |filmVehicles| == |cur.filmVehicles| && |personVehicles| == |cur.personVehicles|
      && (forall t :: 0 <= t < |filmVehicles| ==> filmVehicles[t] == cur.filmVehicles[t] + Repeat(v, Count(films, t)))
      && (forall t :: 0 <= t < |personVehicles| ==>
            personVehicles[t] == cur.personVehicles[t] + Repeat(v, Count(AsList(pilot), t)))
    ensures VehiclesStage(g, fi, pi, recs[..v + 1]) ==
      WithVehicle(VehiclesStage(g, fi, pi, recs[..v]), recs[v], films, pilot, filmVehicles, personVehicles)
  {
    var vf := Forward(recs[..v], "films", fi);
    var vp := Singles(recs[..v], "people", pi);
    assert |vf| == v && |Lists(vp)| == v;
    RowsSnoc(recs, v, MakeVehicle);
    ForwardSnoc(recs, v, "films", fi);
    SinglesSnoc(recs, v, "people", pi);
    AppendedSnoc(g.filmVehicles, vf, films, filmVehicles);
    ListsSnoc(vp, pilot);
    AppendedSnoc(g.personVehicles, Lists(vp), AsList(pilot), personVehicles);
  }

  /** `{vehi['id']: Vehicle(films, people, **vehi) for vehi in raw_data['vehicles']}`,
      stopping like `BuildPeople` at the first constructor that raises. */
  method BuildVehicles(g: Graph, filmIndex: map<string, nat>, peopleIndex: map<string, nat>, recs: seq<Record>)
    returns (g': Graph, index: map<string, nat>, ok: bool)
    requires Wf(g) && IndexInto(filmIndex, |g.films|) && IndexInto(peopleIndex, |g.people|)
    ensures ok <==> forall v :: 0 <= v < |recs| ==> !RefFails(recs[v], "people", peopleIndex)
    ensures g' == VehiclesStage(g, filmIndex, peopleIndex, recs[..Reach(recs, "people", peopleIndex)])
    ensures ok ==> index == IndexOf(recs)
  {
    AppendedNothing(g.filmVehicles);
    AppendedNothing(g.personVehicles);
    g' := g.(vehicles := [], vehicleFilms := [], vehiclePilot := []);
    assert recs[..0] == [];
    index := map[];
    ok := true;
    var v := 0;
    while ok && v < |recs|
      invariant 0 <= v <= |recs|
      invariant g' == VehiclesStage(g, filmIndex, peopleIndex, recs[..v])
      invariant |g'.filmVehicles| == |g.filmVehicles| && |g'.personVehicles| == |g.personVehicles|
      invariant ok ==> index == IndexOf(recs[..v])
      invariant ok ==> forall k :: 0 <= k < v ==> !RefFails(recs[k], "people", peopleIndex)
      invariant ok ==> Reach(recs, "people", peopleIndex) == v + Reach(recs[v..], "people", peopleIndex)
      invariant !ok ==> 0 < v && RefFails(recs[v - 1], "people", peopleIndex)
      invariant !ok ==> Reach(recs, "people", peopleIndex) == v
    {
      var raised, films, pilot, filmVehicles, personVehicles :=
        NewVehicle(recs[v], v, filmIndex, peopleIndex, g'.filmVehicles, g'.personVehicles);
      VehiclesStep(g, filmIndex, peopleIndex, recs, v, films, pilot, filmVehicles, personVehicles);
      g' := WithVehicle(g', recs[v], films, pilot, filmVehicles, personVehicles);
      IndexOfSnoc(recs, v);
      ReachFrom(recs, "people", peopleIndex, v);
      if raised {
        ok := false;
      } else {
        index := index[recs[v].id := v];
      }
      v := v + 1;
    }
    if ok {
      assert recs[..v] == recs;
    }
  }

  /** `__parse_raw_data` without publication: the kinds are built in order,
      and `built` counts the dicts that were complete when it returned or
      raised (2: films and species; 4: all but the vehicles; 5: all). */
  method Build(raw: RawData) returns (g: Graph, idx: Indexes, built: nat)
    ensures built == 2 || built == 4 || built == 5
    ensures built == 2 <==> PeopleRaise(raw)
    ensures built == 5 <==> Parses(raw)
    ensures g == Parsed(raw)
    ensures built == 5 ==> g == Linked(raw)
    ensures Wf(g)
    ensures idx.films == IndexOf(raw.films) && idx.species == IndexOf(raw.species)
    ensures built >= 4 ==> idx.people == IndexOf(raw.people) && idx.locations == IndexOf(raw.locations)
    ensures built == 5 ==> idx.vehicles == IndexOf(raw.vehicles)
    ensures IndexInto(idx.films, |g.films|) && IndexInto(idx.species, |g.species|)
    ensures built >= 4 ==> IndexInto(idx.people, |g.people|) && IndexInto(idx.locations, |g.locations|)
    ensures built == 5 ==> IndexInto(idx.vehicles, |g.vehicles|)
  {
    var fi := IndexOf(raw.films);
    var si := IndexOf(raw.species);
    var pi := IndexOf(raw.people);
    IndexOfInto(raw.films);
    IndexOfInto(raw.species);
    IndexOfInto(raw.people);
    IndexOfInto(raw.locations);
    IndexOfInto(raw.vehicles);
    ReachSpec(raw.people, "species", si);
    ReachSpec(raw.vehicles, "people", pi);
    assert raw.people[..|raw.people|] == raw.people && raw.vehicles[..|raw.vehicles|] == raw.vehicles;
    var films, speciesIndex, peopleIndex, locationsIndex, vehiclesIndex, ok;
    g, films := BuildFilms(raw.films);
    g, speciesIndex := BuildSpecies(g, films, raw.species);
    g, peopleIndex, ok := BuildPeople(g, films, speciesIndex, raw.people);
    if !ok {
      idx, built := Indexes(films, speciesIndex, map[], map[], map[]), 2;
      return;
    }
    g, locationsIndex := BuildLocations(g, films, peopleIndex, raw.locations);
    g, vehiclesIndex, ok := BuildVehicles(g, films, peopleIndex, raw.vehicles);
    idx := Indexes(films, speciesIndex, peopleIndex, locationsIndex, if ok then vehiclesIndex else map[]);
    built := if ok then 5 else 4;
  }
}
