/** Reference resolution and reciprocal links, the loop that every model
    constructor repeats: resolve each URL's id in an index, and on a hit
    append the target to the entity's own list and the entity to the
    target's back-link list. Links are row numbers of the targets. */
module Links {
  import opened Urls
  import opened Records

  /** How many times `x` occurs in `s`. */
  function Count(s: seq<nat>, x: nat): nat
  {
    if |s| == 0 then 0 else Count(s[..|s| - 1], x) + (if s[|s| - 1] == x then 1 else 0)
  }

  /** `n` copies of `x`. */
  function Repeat(x: nat, n: nat): (r: seq<nat>)
    ensures |r| == n && forall i :: 0 <= i < n ==> r[i] == x
  {
    seq(n, _ => x)
  }

  lemma CountSnoc(s: seq<nat>, x: nat, y: nat)
    ensures Count(s + [x], y) == Count(s, y) + (if x == y then 1 else 0)
  {
    assert (s + [x])[..|s|] == s;
  }

  lemma {:induction false} CountConcat(a: seq<nat>, b: seq<nat>, y: nat)
    ensures Count(a + b, y) == Count(a, y) + Count(b, y)
  {
    if |b| > 0 {
      var n := |b| - 1;
      CountConcat(a, b[..n], y);
      assert a + b == (a + b[..n]) + [b[n]];
      assert b == b[..n] + [b[n]];
      CountSnoc(a + b[..n], b[n], y);
      CountSnoc(b[..n], b[n], y);
    } else {
      assert a + b == a;
    }
  }

  lemma {:induction false} CountRepeat(x: nat, n: nat, y: nat)
    ensures Count(Repeat(x, n), y) == if x == y then n else 0
  {
    if n > 0 {
      CountRepeat(x, n - 1, y);
      assert Repeat(x, n) == Repeat(x, n - 1) + [x];
      CountSnoc(Repeat(x, n - 1), x, y);
    }
  }

  /** A value occurs in `s` exactly when it is counted there. */
  lemma {:induction false} CountPositive(s: seq<nat>, x: nat)
    ensures Count(s, x) > 0 <==> x in s
  {
    if |s| > 0 {
      var n := |s| - 1;
      CountPositive(s[..n], x);
      assert s == s[..n] + [s[n]];
    }
  }

  /** The hit, if any, of one URL inside a loop: zero or one target. */
  function Lookup(url: string, index: map<string, nat>): (hit: seq<nat>)
  {
    AsList(ResolveOne(url, index))
  }

  /** The targets a list of URLs resolves to, in order, dangling ones skipped. */
  function Resolve(urls: seq<string>, index: map<string, nat>): (targets: seq<nat>)
    ensures |targets| <= |urls|
    ensures forall t :: t in targets ==> t in index.Values
  {
    if |urls| == 0 then []
    else Resolve(urls[..|urls| - 1], index) + Lookup(urls[|urls| - 1], index)
  }

  /** The target of one URL, if it resolves:
      `collection.get(get_uuid_from_url(url))`. */
  function ResolveOne(url: string, index: map<string, nat>): (target: Option<nat>)
  {
    var id := GetUuidFromUrl(url);
    if id in index then Some(index[id]) else None
  }

  /** An optional single link viewed as a list of zero or one target. */
  function AsList(o: Option<nat>): seq<nat>
  {
    if o.Some? then [o.value] else []
  }

  /** Resolution distributes over concatenation of URL lists. */
  lemma {:induction false} ResolveConcat(a: seq<string>, b: seq<string>, index: map<string, nat>)
    ensures Resolve(a + b, index) == Resolve(a, index) + Resolve(b, index)
  {
    if |b| > 0 {
      var n := |b| - 1;
      var ab := a + b;
      ResolveConcat(a, b[..n], index);
      assert ab[..|ab| - 1] == a + b[..n];
      assert ab[|ab| - 1] == b[n];
      var last := Lookup(b[n], index);
      assert Resolve(ab, index) == Resolve(a + b[..n], index) + last;
      assert Resolve(b, index) == Resolve(b[..n], index) + last;
    } else {
      assert a + b == a;
    }
  }

  /** A dangling URL anywhere in the list adds nothing and removes nothing. */
  lemma ResolveDropsDangling(a: seq<string>, u: string, b: seq<string>, index: map<string, nat>)
    requires GetUuidFromUrl(u) !in index
    ensures Resolve(a + [u] + b, index) == Resolve(a + b, index)
  {
    var ra, rb := Resolve(a, index), Resolve(b, index);
    assert [u][..0] == [];
    assert Resolve([u], index) == [];
    ResolveConcat(a, [u], index);
    assert Resolve(a + [u], index) == ra;
    ResolveConcat(a + [u], b, index);
    ResolveConcat(a, b, index);
  }

  /** Against an empty index nothing resolves. */
  lemma {:induction false} ResolveEmptyIndex(urls: seq<string>)
    ensures Resolve(urls, map[]) == []
  {
    if |urls| > 0 {
      ResolveEmptyIndex(urls[..|urls| - 1]);
    }
  }

  /** The positions of the URLs whose id resolves to `t`. */
  ghost function Hits(urls: seq<string>, index: map<string, nat>, t: nat): set<nat>
  {
    set i: nat | i < |urls| && GetUuidFromUrl(urls[i]) in index && index[GetUuidFromUrl(urls[i])] == t
  }

  /** Multiplicity: `t` occurs in the resolved list once per URL hitting it. */
  lemma {:induction false} ResolveCount(urls: seq<string>, index: map<string, nat>, t: nat)
    ensures Count(Resolve(urls, index), t) == |Hits(urls, index, t)|
  {
    if |urls| == 0 {
      assert Hits(urls, index, t) == {};
    } else {
      var n := |urls| - 1;
      var front := urls[..n];
      ResolveCount(front, index, t);
      var last := Lookup(urls[n], index);
      assert Resolve(urls, index) == Resolve(front, index) + last;
      CountConcat(Resolve(front, index), last, t);
      var id := GetUuidFromUrl(urls[n]);
      var hit := id in index && index[id] == t;
      assert Count(last, t) == if hit then 1 else 0 by {
        if id in index {
          CountSnoc([], index[id], t);
        }
      }
      HitsSnoc(urls, index, t);
    }
  }

  lemma HitsSnoc(urls: seq<string>, index: map<string, nat>, t: nat)
    requires |urls| > 0
    ensures var n := |urls| - 1; var id := GetUuidFromUrl(urls[n]);
      |Hits(urls, index, t)| == |Hits(urls[..n], index, t)| + (if id in index && index[id] == t then 1 else 0)
  {
    var n := |urls| - 1;
    var id := GetUuidFromUrl(urls[n]);
    var before := Hits(urls[..n], index, t);
    var extra: set<nat> := if id in index && index[id] == t then {n} else {};
    forall i: nat
      ensures i in Hits(urls, index, t) <==> i in before + extra
    {
      if i < n {
        assert urls[..n][i] == urls[i];
      }
    }
    assert Hits(urls, index, t) == before + extra;
    assert n !in before;
  }

  /** The back-link list a target accumulates when the entities whose
      resolved forward lists are `lists` are built in order: entity `j`
      is appended once per occurrence of `t` in `lists[j]`. */
  function BackLinks(lists: seq<seq<nat>>, t: nat): (r: seq<nat>)
    ensures forall x :: x in r ==> x < |lists|
  {
    if |lists| == 0 then []
    else
      var n := |lists| - 1;
      BackLinks(lists[..n], t) + Repeat(n, Count(lists[n], t))
  }

  lemma BackLinksSnoc(lists: seq<seq<nat>>, x: seq<nat>, t: nat)
    ensures BackLinks(lists + [x], t) == BackLinks(lists, t) + Repeat(|lists|, Count(x, t))
  {
    assert (lists + [x])[..|lists|] == lists;
  }

  /** Reciprocity with multiplicity: entity `j` is on target `t`'s back-link
      list exactly as often as `t` is on `j`'s forward list. */
  lemma {:induction false} BackLinksCount(lists: seq<seq<nat>>, t: nat, j: nat)
    ensures Count(BackLinks(lists, t), j) == if j < |lists| then Count(lists[j], t) else 0
  {
    if |lists| > 0 {
      var n := |lists| - 1;
      BackLinksCount(lists[..n], t, j);
      CountConcat(BackLinks(lists[..n], t), Repeat(n, Count(lists[n], t)), j);
      CountRepeat(n, Count(lists[n], t), j);
    }
  }

  /** `s` never decreases along its positions. */
  ghost predicate Ascending(s: seq<nat>)
  {
    forall i, j :: 0 <= i < j < |s| ==> s[i] <= s[j]
  }

  /** Back-link lists are in processing order: sources built earlier come first. */
  lemma {:induction false} BackLinksAscending(lists: seq<seq<nat>>, t: nat)
    ensures Ascending(BackLinks(lists, t))
  {
    if |lists| > 0 {
      var n := |lists| - 1;
      BackLinksAscending(lists[..n], t);
      var front := BackLinks(lists[..n], t);
      var r := BackLinks(lists, t);
      assert r == front + Repeat(n, Count(lists[n], t));
      forall i, j | 0 <= i < j < |r| ensures r[i] <= r[j] {
        if j >= |front| {
          if i < |front| {
            assert front[i] in front;
          }
        }
      }
    }
  }

  /** One constructor's `for url in urls` loop: `forward` is the entity's own
      list, `back` the targets' back-link lists, `self` the entity's row. */
  method LinkAll(urls: seq<string>, index: map<string, nat>, back: seq<seq<nat>>, self: nat)
    returns (forward: seq<nat>, back': seq<seq<nat>>)
    requires IndexInto(index, |back|)
    ensures forward == Resolve(urls, index)
    ensures |back'| == |back|
    ensures forall t :: 0 <= t < |back| ==> back'[t] == back[t] + Repeat(self, Count(forward, t))
  {
    forward, back' := [], back;
    var i := 0;
    while i < |urls|
      invariant 0 <= i <= |urls|
      invariant forward == Resolve(urls[..i], index)
      invariant |back'| == |back|
      invariant forall t :: 0 <= t < |back| ==> back'[t] == back[t] + Repeat(self, Count(forward, t))
    {
      assert urls[..i + 1][..i] == urls[..i];
      var uuid := GetUuidFromUrl(urls[i]);
      if uuid in index {
        var target := index[uuid];
        forall t | 0 <= t < |back|
          ensures Count(forward + [target], t) == Count(forward, t) + (if target == t then 1 else 0)
        {
          CountSnoc(forward, target, t);
        }
        forward := forward + [target];
        back' := back'[target := back'[target] + [self]];
      }
      i := i + 1;
    }
    assert urls[..i] == urls;
  }

  /** A constructor's single optional link (`species`, `pilot`): set to the
      target when the URL resolves, which then gets `self` appended once. */
  method LinkOne(url: string, index: map<string, nat>, back: seq<seq<nat>>, self: nat)
    returns (target: Option<nat>, back': seq<seq<nat>>)
    requires IndexInto(index, |back|)
    ensures target == ResolveOne(url, index)
    ensures |back'| == |back|
    ensures forall t :: 0 <= t < |back| ==> back'[t] == back[t] + Repeat(self, Count(AsList(target), t))
  {
    var uuid := GetUuidFromUrl(url);
    target, back' := None, back;
    if uuid in index {
      var t0 := index[uuid];
      target := Some(t0);
      back' := back[t0 := back[t0] + [self]];
      forall t | 0 <= t < |back|
        ensures Count(AsList(target), t) == if t == t0 then 1 else 0
      {
        CountSnoc([], t0, t);
      }
    }
  }
}
