/** Small concrete collections run through the builds. */
module Scenarios {
  import opened Urls
  import opened Records
  import opened Links
  import opened Graph
  import opened Builder


  /** A film URL of the remote API names its film by its last segment. */
  lemma FilmUrlId(id: string)
    requires '/' !in id
    ensures GetUuidFromUrl("https://ghibliapi.herokuapp.com/films" + "/" + id) == id
  {
    UuidOfPrefixedPath("https://ghibliapi.herokuapp.com/films", id);
  }

  lemma IndexOfOne(r: Record)
    ensures IndexOf([r]) == map[r.id := 0]
  {
    assert [r][..0] == [];
  }

  /** One URL resolving to row `t` gives one forward list `[t]`, and `t`'s
      back-link list `[0]` in a column of `n` targets. */
  lemma OneLink(r: Record, key: string, index: map<string, nat>, url: string, t: nat, n: nat)
    requires t < n && UrlList(r, key) == [url] && GetUuidFromUrl(url) in index && index[GetUuidFromUrl(url)] == t
    ensures Forward([r], key, index) == [[t]]
    ensures Appended(Empties(n), [[t]]) == seq(n, i => if i == t then [0] else [])
  {
    assert [url][..0] == [];
    assert Resolve([url], index) == [t];
    var back := Appended(Empties(n), [[t]]);
    forall i | 0 <= i < n ensures back[i] == if i == t then [0] else [] {
      assert [[t]][..0] == [];
      assert BackLinks([[t]], i) == Repeat(0, Count([t], i));
      CountSnoc([], t, i);
    }
  }

  /** One URL that resolves to nothing gives one empty forward list, and an
      untouched column. */
  lemma OneDangling(r: Record, key: string, index: map<string, nat>, url: string, n: nat)
    requires UrlList(r, key) == [url] && GetUuidFromUrl(url) !in index
    ensures Forward([r], key, index) == [[]]
    ensures Appended(Empties(n), [[]]) == Empties(n)
  {
    assert [url][..0] == [];
    assert Resolve([url], index) == [];
    var back := Appended(Empties(n), [[]]);
    assert |back| == n;
    forall i | 0 <= i < n ensures back[i] == [] {
      var lists: seq<seq<nat>> := [[]];
      assert lists[..0] == [];
      assert BackLinks(lists, i) == Repeat(0, Count([], i));
    }
  }

  /** A species whose one film URL names film `f1` is on that film's
      species list, and the film on the species' film list. */
  lemma SpeciesOfFilm(film: Record, species: Record, url: string)
    requires film.id == "f1" && UrlList(species, "films") == [url] && GetUuidFromUrl(url) == "f1"
    ensures var g := Linked(RawData([film], [], [], [species], []));
      g.films == [MakeFilm(film)] && g.filmSpecies == [[0]] && g.speciesFilms == [[0]]
  {
    var raw := RawData([film], [], [], [species], []);
    LinkedColumns(raw);
    IndexOfOne(film);
    OneLink(species, "films", IndexOf(raw.films), url, 0, 1);
    assert Rows([film], MakeFilm) == [MakeFilm(film)];
  }

  /** A person whose one film URL names the missing film `f404` ends with no
      films, and no film lists the person. */
  lemma DanglingFilmOfPerson(film: Record, person: Record, url: string)
    requires film.id == "f1" && UrlList(person, "films") == [url] && GetUuidFromUrl(url) == "f404"
    ensures var g := Linked(RawData([film], [person], [], [], []));
      g.personFilms == [[]] && g.filmCharacters == [[]]
  {
    var raw := RawData([film], [person], [], [], []);
    LinkedColumns(raw);
    IndexOfOne(film);
    OneDangling(person, "films", IndexOf(raw.films), url, 1);
  }

  /** A person whose `species` holds a non-empty list raises once a species
      exists: the film link it made before raising stays on the film, though
      the person is never published and the later kinds are not built. */
  lemma RaisingPersonStaysOnFilm(film: Record, species: Record, person: Record, url: string)
    requires film.id == "f1" && UrlList(person, "films") == [url] && GetUuidFromUrl(url) == "f1"
    requires SingleUrl(person, "species").Malformed?
    ensures var raw := RawData([film], [person], [], [species], []);
      PeopleRaise(raw) && Parsed(raw).filmCharacters == [[0]] && Parsed(raw).people == [MakePerson(person)] &&
      Parsed(raw).personSpecies == [None] && Parsed(raw).locations == []
  {
    var raw := RawData([film], [person], [], [species], []);
    IndexOfOne(film);
    IndexOfOne(species);
    var fi := IndexOf(raw.films);
    var si := IndexOf(raw.species);
    assert species.id in si;
    assert RefFails(person, "species", si);
    assert Reach(raw.people, "species", si) == 1;
    assert raw.people[..1] == [person];
    OneLink(person, "films", fi, url, 0, 1);
    assert Singles([person], "species", si) == [None];
    assert Rows([person], MakePerson) == [MakePerson(person)];
  }
}
