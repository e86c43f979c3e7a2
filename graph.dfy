/** The entity graph of one build, arena style: one row sequence per kind
    (row `i` is the object built from the `i`-th raw record of that kind)
    and one column per link list, holding row numbers of the targets. */
module Graph {
  import opened Records
  import opened Links

  /** `Film(**record)`: scalar attributes only; the film's link lists start
      empty and are filled by the later builds. */
  datatype Film = Film(id: string, title: Option<Field>, director: Option<Field>,
                       producer: Option<Field>, releaseDate: Option<Field>, rtScore: Option<Field>)

  datatype Species = Species(id: string, name: Option<Field>, classification: Option<Field>,
                             eyeColor: Option<Field>, hairColor: Option<Field>)

  datatype Person = Person(id: string, name: Option<Field>, gender: Option<Field>, age: Option<Field>,
                           eyeColor: Option<Field>, hairColor: Option<Field>)

  datatype Location = Location(id: string, name: Option<Field>, climate: Option<Field>,
                               terrain: Option<Field>, surfaceWater: Option<Field>)

  /** A vehicle's `description`, `vehicle_class` and length (spelt `lenght`
      in the source) are copied from the keys `classification`, `eye_color`
      and `hair_color`. */
  datatype Vehicle = Vehicle(id: string, name: Option<Field>, description: Option<Field>,
                             vehicleClass: Option<Field>, length: Option<Field>)

  function MakeFilm(r: Record): Film
  {
    Film(r.id, Get(r, "title"), Get(r, "director"), Get(r, "producer"), Get(r, "release_date"), Get(r, "rt_score"))
  }

  function MakeSpecies(r: Record): Species
  {
    Species(r.id, Get(r, "name"), Get(r, "classification"), Get(r, "eye_color"), Get(r, "hair_color"))
  }

  function MakePerson(r: Record): Person
  {
    Person(r.id, Get(r, "name"), Get(r, "gender"), Get(r, "age"), Get(r, "eye_color"), Get(r, "hair_color"))
  }

  function MakeLocation(r: Record): Location
  {
    Location(r.id, Get(r, "name"), Get(r, "climate"), Get(r, "terrain"), Get(r, "surface_water"))
  }

  function MakeVehicle(r: Record): Vehicle
  {
    Vehicle(r.id, Get(r, "name"), Get(r, "classification"), Get(r, "eye_color"), Get(r, "hair_color"))
  }

  /** The attributes of a vehicle are read from keys named after other kinds'
      attributes, never from `description`, `vehicle_class` or `length`. */
  lemma VehicleReadsMisnamedKeys(r: Record, desc: Field, kind: Field, len: Field)
    requires r.fields == map["classification" := desc, "eye_color" := kind, "hair_color" := len]
    ensures MakeVehicle(r).description == Some(desc)
    ensures MakeVehicle(r).vehicleClass == Some(kind)
    ensures MakeVehicle(r).length == Some(len)
    ensures MakeVehicle(r.(fields := map["description" := desc, "vehicle_class" := kind, "length" := len]))
            == Vehicle(r.id, None, None, None, None)
  {
  }

  datatype Graph = Graph(
    films: seq<Film>, filmCharacters: seq<seq<nat>>, filmSpecies: seq<seq<nat>>,
    filmLocations: seq<seq<nat>>, filmVehicles: seq<seq<nat>>,
    species: seq<Species>, speciesFilms: seq<seq<nat>>, speciesPeople: seq<seq<nat>>,
    people: seq<Person>, personFilms: seq<seq<nat>>, personSpecies: seq<Option<nat>>,
    personLocations: seq<seq<nat>>, personVehicles: seq<seq<nat>>,
    locations: seq<Location>, locationFilms: seq<seq<nat>>, locationResidents: seq<seq<nat>>,
    vehicles: seq<Vehicle>, vehicleFilms: seq<seq<nat>>, vehiclePilot: seq<Option<nat>>)

  function EmptyGraph(): Graph
  {
    Graph([], [], [], [], [], [], [], [], [], [], [], [], [], [], [], [], [], [], [])
  }

  /** Every row of a kind has each of that kind's link lists. */
  ghost predicate Wf(g: Graph)
  {
    && |g.filmCharacters| == |g.filmSpecies| == |g.filmLocations| == |g.filmVehicles| == |g.films|
    && |g.speciesFilms| == |g.speciesPeople| == |g.species|
    && |g.personFilms| == |g.personSpecies| == |g.personLocations| == |g.personVehicles| == |g.people|
    && |g.locationFilms| == |g.locationResidents| == |g.locations|
    && |g.vehicleFilms| == |g.vehiclePilot| == |g.vehicles|
  }

  /** Optional single links seen as lists of zero or one target. */
  function Lists(opts: seq<Option<nat>>): (lists: seq<seq<nat>>)
    ensures |lists| == |opts|
  {
    seq(|opts|, i requires 0 <= i < |opts| => AsList(opts[i]))
  }

  /** Every link in `lists` names a row below `rows`. */
  ghost predicate Within(lists: seq<seq<nat>>, rows: nat)
  {
    forall j, x :: 0 <= j < |lists| && x in lists[j] ==> x < rows
  }

  ghost predicate InRange(g: Graph)
  {
    && Within(g.filmCharacters, |g.people|) && Within(g.filmSpecies, |g.species|)
    && Within(g.filmLocations, |g.locations|) && Within(g.filmVehicles, |g.vehicles|)
    && Within(g.speciesFilms, |g.films|) && Within(g.speciesPeople, |g.people|)
    && Within(g.personFilms, |g.films|) && Within(Lists(g.personSpecies), |g.species|)
    && Within(g.personLocations, |g.locations|) && Within(g.personVehicles, |g.vehicles|)
    && Within(g.locationFilms, |g.films|) && Within(g.locationResidents, |g.people|)
    && Within(g.vehicleFilms, |g.films|) && Within(Lists(g.vehiclePilot), |g.people|)
  }

  /** `fwd` and `back` describe the same links from the two ends: source `j`
      lists target `t` exactly as often as `t` lists `j`. */
  ghost predicate Mirrored(fwd: seq<seq<nat>>, back: seq<seq<nat>>)
  {
    forall j, t :: 0 <= j < |fwd| && 0 <= t < |back| ==> Count(fwd[j], t) == Count(back[t], j)
  }

  /** Every relation of the graph is recorded on both sides, with multiplicity. */
  ghost predicate Reciprocal(g: Graph)
  {
    && Mirrored(g.speciesFilms, g.filmSpecies)
    && Mirrored(g.personFilms, g.filmCharacters)
    && Mirrored(Lists(g.personSpecies), g.speciesPeople)
    && Mirrored(g.locationFilms, g.filmLocations)
    && Mirrored(g.locationResidents, g.personLocations)
    && Mirrored(g.vehicleFilms, g.filmVehicles)
    && Mirrored(Lists(g.vehiclePilot), g.personVehicles)
  }

  /** Back-link columns made by `BackLinks` mirror the forward lists. */
  lemma MirroredByBackLinks(fwd: seq<seq<nat>>, back: seq<seq<nat>>)
    requires forall t :: 0 <= t < |back| ==> back[t] == BackLinks(fwd, t)
    ensures Mirrored(fwd, back)
  {
    forall j, t | 0 <= j < |fwd| && 0 <= t < |back|
      ensures Count(fwd[j], t) == Count(back[t], j)
    {
      BackLinksCount(fwd, t, j);
    }
  }

  /** Mirrored lists agree on membership: `j` lists `t` iff `t` lists `j`. */
  lemma MirroredMembership(fwd: seq<seq<nat>>, back: seq<seq<nat>>, j: nat, t: nat)
    requires Mirrored(fwd, back) && j < |fwd| && t < |back|
    ensures t in fwd[j] <==> j in back[t]
  {
    CountPositive(fwd[j], t);
    CountPositive(back[t], j);
  }

  /** A person's species (or a vehicle's pilot) is mirrored by exactly one
      entry on that target's list, and by none on any other target's. */
  lemma MirroredSingle(opts: seq<Option<nat>>, back: seq<seq<nat>>, j: nat, t: nat)
    requires Mirrored(Lists(opts), back) && j < |opts| && t < |back|
    ensures Count(back[t], j) == if opts[j] == Some(t) then 1 else 0
  {
    assert Lists(opts)[j] == AsList(opts[j]);
    if opts[j].Some? {
      CountSnoc([], opts[j].value, t);
    }
  }
}
