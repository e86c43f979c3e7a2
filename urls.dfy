/** Identifier extraction from reference URLs (`get_uuid_from_url`). */
module Urls {

  /** Python's `s.split('/')`: the pieces between slashes, in order; there is
      always at least one piece. */
  function Split(s: string): (parts: seq<string>)
    ensures |parts| >= 1
  {
    if |s| == 0 then [""]
    else
      var rest := Split(s[1..]);
      if s[0] == '/' then [""] + rest
      else [[s[0]] + rest[0]] + rest[1..]
  }

  /** A piece never holds a slash; there is one piece exactly when `s` has no
      slash; and the last piece is the part of `s` after its last slash (all
      of `s` when it has none). */
  lemma {:induction false} SplitPieces(s: string)
    ensures var parts := Split(s);
      && (forall i :: 0 <= i < |parts| ==> '/' !in parts[i])
      && ((|parts| == 1) == ('/' !in s))
      && var last := parts[|parts| - 1];
        |last| <= |s| && last == s[|s| - |last|..] &&
        (|last| == |s| || s[|s| - |last| - 1] == '/')
  {
    if |s| > 0 {
      var tail := s[1..];
      var rest := Split(tail);
      SplitPieces(tail);
      var last := rest[|rest| - 1];
      assert tail[|tail| - |last|..] == s[|s| - |last|..];
      assert |last| < |tail| ==> tail[|tail| - |last| - 1] == s[|s| - |last| - 1];
      assert '/' in s <==> s[0] == '/' || '/' in tail by {
        assert s == [s[0]] + tail;
      }
      if s[0] != '/' && |rest| == 1 {
        assert last == tail;
        assert s == [s[0]] + tail;
      }
    }
  }

  /** `'/'.join(parts)`, the inverse of `Split`. */
  function Join(parts: seq<string>): string
    requires |parts| >= 1
  {
    if |parts| == 1 then parts[0] else parts[0] + "/" + Join(parts[1..])
  }

  /** Gluing a character onto the first piece glues it onto the joined string. */
  lemma JoinGlue(c: char, rest: seq<string>)
    requires |rest| >= 1
    ensures Join([[c] + rest[0]] + rest[1..]) == [c] + Join(rest)
  {
    var head := [c] + rest[0];
    var parts := [head] + rest[1..];
    if |rest| == 1 {
      assert parts == [head];
    } else {
      var tail := Join(rest[1..]);
      JoinTwoOrMore(head, rest[1..]);
      JoinTwoOrMore(rest[0], rest[1..]);
      assert [rest[0]] + rest[1..] == rest;
      GlueAssoc(c, rest[0], tail);
    }
  }

  lemma GlueAssoc(c: char, a: string, b: string)
    ensures ([c] + a) + "/" + b == [c] + (a + "/" + b)
  {
  }

  lemma JoinTwoOrMore(head: string, more: seq<string>)
    requires |more| >= 1
    ensures Join([head] + more) == head + "/" + Join(more)
  {
    assert ([head] + more)[1..] == more;
  }

  /** Splitting loses nothing: joining the pieces back gives the input. */
  lemma {:induction false} JoinSplit(s: string)
    ensures Join(Split(s)) == s
  {
    if |s| > 0 {
      var rest := Split(s[1..]);
      JoinSplit(s[1..]);
      if s[0] == '/' {
        assert Split(s) == [""] + rest;
        assert ([""] + rest)[1..] == rest;
        assert Join(Split(s)) == "" + "/" + Join(rest);
      } else {
        assert Split(s) == [[s[0]] + rest[0]] + rest[1..];
        JoinGlue(s[0], rest);
      }
      assert s == [s[0]] + s[1..];
    }
  }

  /** `get_uuid_from_url`: the last piece of `url.split('/')`. */
  function GetUuidFromUrl(url: string): string
  {
    var parts := Split(url);
    parts[|parts| - 1]
  }

  /** The identifier is the slash-free suffix of the URL that starts it or
      follows its last slash. */
  lemma UuidShape(url: string)
    ensures var uuid := GetUuidFromUrl(url);
      '/' !in uuid &&
      |uuid| <= |url| && uuid == url[|url| - |uuid|..] &&
      (|uuid| == |url| || url[|url| - |uuid| - 1] == '/')
  {
    SplitPieces(url);
  }

  /** The three facts above pin the identifier down: any slash-free suffix
      that starts the string or follows a slash is the identifier. */
  lemma UuidIsLastSegment(url: string, u: string)
    requires '/' !in u
    requires |u| <= |url| && u == url[|url| - |u|..]
    requires |u| == |url| || url[|url| - |u| - 1] == '/'
    ensures u == GetUuidFromUrl(url)
  {
    UuidShape(url);
  }

  /** A string without a slash is its own identifier. */
  lemma UuidOfPlainId(url: string)
    requires '/' !in url
    ensures GetUuidFromUrl(url) == url
  {
    UuidShape(url);
  }

  /** A URL ending in a slash yields the empty identifier. */
  lemma UuidOfTrailingSlash(url: string)
    requires |url| > 0 && url[|url| - 1] == '/'
    ensures GetUuidFromUrl(url) == ""
  {
    UuidShape(url);
  }

  /** Prefixing a path leaves the identifier unchanged. */
  lemma UuidOfPrefixedPath(prefix: string, id: string)
    requires '/' !in id
    ensures GetUuidFromUrl(prefix + "/" + id) == id
  {
    var url := prefix + "/" + id;
    assert url[|url| - |id|..] == id;
    assert url[|url| - |id| - 1] == '/';
    UuidIsLastSegment(url, id);
  }
}
