/** Raw records as decoded from the remote collections, and the id index
    that `__parse_raw_data` builds for each kind with a dict comprehension. */
module Records {

  datatype Option<T> = None | Some(value: T)

  /** A decoded JSON value as the model needs it: a string, or a list of
      strings (the reference lists). */
  datatype Field = Text(s: string) | Urls(items: seq<string>)

  /** One raw record: its `id` and the rest of its keys. */
  datatype Record = Record(id: string, fields: map<string, Field>)

  /** `kwargs.get(key)`: the value under `key`, or `None`. */
  function Get(r: Record, key: string): Option<Field>
  {
    if key in r.fields then Some(r.fields[key]) else None
  }

  /** The reference URLs visited by `for url in kwargs.get(key, [])`: none
      when the key is missing, the list itself, or, for a string, its
      characters one at a time (iterating a Python `str`). */
  function UrlList(r: Record, key: string): seq<string>
  {
    match Get(r, key)
    case None => []
    case Some(Urls(items)) => items
    case Some(Text(s)) => seq(|s|, i requires 0 <= i < |s| => [s[i]])
  }

  /** What `url = kwargs.get(key); if url: get_uuid_from_url(url)` sees for a
      single reference: nothing to resolve (missing key, empty string or empty
      list), a URL, or a non-empty list, on which `url.split` raises. */
  datatype SingleRef = NoRef | Ref(url: string) | Malformed

  function SingleUrl(r: Record, key: string): SingleRef
  {
    match Get(r, key)
    case None => NoRef
    case Some(Text(s)) => if s == "" then NoRef else Ref(s)
    case Some(Urls(items)) => if items == [] then NoRef else Malformed
  }

  /** `{rec['id']: ... for rec in recs}` keyed to row numbers: row `i` is the
      object built from `recs[i]`, and a later record with the same id
      replaces the earlier one in the dict. */
  function IndexOf(recs: seq<Record>): (index: map<string, nat>)
  {
    if |recs| == 0 then map[]
    else IndexOf(recs[..|recs| - 1])[recs[|recs| - 1].id := |recs| - 1]
  }

  /** Replacing a record by one with the same id leaves the index as it was. */
  lemma {:induction false} IndexOfReplaced(recs: seq<Record>, j: nat, r: Record)
    requires j < |recs| && r.id == recs[j].id
    ensures IndexOf(recs[j := r]) == IndexOf(recs)
  {
    var n := |recs| - 1;
    var recs' := recs[j := r];
    assert recs'[n].id == recs[n].id;
    if j == n {
      assert recs'[..n] == recs[..n];
    } else {
      assert recs'[..n] == recs[..n][j := r];
      IndexOfReplaced(recs[..n], j, r);
    }
  }

  /** One more record puts its id on its row. */
  lemma IndexOfSnoc(recs: seq<Record>, p: nat)
    requires p < |recs|
    ensures IndexOf(recs[..p + 1]) == IndexOf(recs[..p])[recs[p].id := p]
  {
    assert recs[..p + 1][..p] == recs[..p];
  }

  /** The index holds exactly the ids of the records, each mapped to the
      last record carrying it. */
  lemma {:induction false} IndexOfSpec(recs: seq<Record>)
    ensures forall id :: id in IndexOf(recs) <==> exists i :: 0 <= i < |recs| && recs[i].id == id
    ensures forall id :: id in IndexOf(recs) ==>
      IndexOf(recs)[id] < |recs| && recs[IndexOf(recs)[id]].id == id &&
      forall i :: IndexOf(recs)[id] < i < |recs| ==> recs[i].id != id
  {
    if |recs| > 0 {
      var n := |recs| - 1;
      var prefix := recs[..n];
      IndexOfSpec(prefix);
      assert IndexOf(recs) == IndexOf(prefix)[recs[n].id := n];
      forall id
        ensures id in IndexOf(recs) <==> exists i :: 0 <= i < |recs| && recs[i].id == id
      {
        if id != recs[n].id && exists i :: 0 <= i < |recs| && recs[i].id == id {
          var i :| 0 <= i < |recs| && recs[i].id == id;
          assert prefix[i].id == id;
        }
      }
      forall id | id in IndexOf(recs) && id != recs[n].id
        ensures IndexOf(recs)[id] < |recs| && recs[IndexOf(recs)[id]].id == id &&
                forall i :: IndexOf(recs)[id] < i < |recs| ==> recs[i].id != id
      {
        var k := IndexOf(prefix)[id];
        assert prefix[k] == recs[k];
        forall i | k < i < |recs|
          ensures recs[i].id != id
        {
          if i < n { assert prefix[i] == recs[i]; }
        }
      }
    }
  }

  /** Every value of the index is a row number. */
  lemma IndexOfInto(recs: seq<Record>)
    ensures IndexInto(IndexOf(recs), |recs|)
  {
    IndexOfSpec(recs);
  }

  /** Every index entry is a row number. */
  ghost predicate IndexInto(index: map<string, nat>, rows: nat)
  {
    forall id :: id in index ==> index[id] < rows
  }

  ghost predicate UniqueIds(recs: seq<Record>)
  {
    forall i, j :: 0 <= i < j < |recs| ==> recs[i].id != recs[j].id
  }

  /** With unique ids the dict keeps every object: each row is the value
      under its own id, so the published values are exactly the rows. */
  lemma IndexOfUnique(recs: seq<Record>)
    requires UniqueIds(recs)
    ensures forall i :: 0 <= i < |recs| ==> recs[i].id in IndexOf(recs) && IndexOf(recs)[recs[i].id] == i
    ensures forall i :: 0 <= i < |recs| ==> i in IndexOf(recs).Values
  {
    forall i | 0 <= i < |recs|
      ensures recs[i].id in IndexOf(recs) && IndexOf(recs)[recs[i].id] == i
      ensures i in IndexOf(recs).Values
    {
      IndexOfRow(recs, i);
    }
  }

  lemma IndexOfRow(recs: seq<Record>, i: nat)
    requires UniqueIds(recs) && i < |recs|
    ensures recs[i].id in IndexOf(recs) && IndexOf(recs)[recs[i].id] == i
  {
    IndexOfSpec(recs);
    var index := IndexOf(recs);
    var id := recs[i].id;
    assert id in index;
    var k := index[id];
    assert recs[k].id == id;
  }

  /** Without unique ids, a shadowed record's row is not a published value. */
  lemma IndexOfShadowed(recs: seq<Record>, i: nat, j: nat)
    requires i < j < |recs| && recs[i].id == recs[j].id
    ensures i !in IndexOf(recs).Values
  {
    IndexOfSpec(recs);
  }
}
