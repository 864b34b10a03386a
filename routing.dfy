/** The routing decision of `handleRequest`, its hash-route pattern, and the
    case-sensitive substring test that then picks the hash version. */
module Routing {
  import opened Wrappers
  import opened Casing
  import opened RequestOptions

  /** The four outcomes of routing, checked in this order. */
  datatype Route = ApiV4 | HashRoute(ns: string, name: string) | FormRoute | NotFound

  const V4Path := "/api/v4"
  const FormPath := "/"

  /** `q` is `/api/v3/` or `/api/v5/` up to the case of its ASCII letters. */
  predicate IsHashPrefix(q: string) {
    ToLowerCase(q) == "/api/v3/" || ToLowerCase(q) == "/api/v5/"
  }

  /** The meaning of the pattern `^/api/v(?:3|5)/(?<ns>[^/]+)/(?<name>[^/]+)$`
      with the `i` flag: a case-insensitive prefix followed by two non-empty
      segments without slashes, captured as `ns` and `name`. */
  predicate HashPathSpec(path: string, ns: string, name: string) {
    && |path| >= 8
    && IsHashPrefix(path[..8])
    && path[8..] == ns + "/" + name
    && ns != "" && name != ""
    && '/' !in ns && '/' !in name
  }

  /** The position of the first `c` in `s`. */
  function IndexOf(s: string, c: char): (r: Option<nat>)
    ensures r.Some? ==> r.value < |s| && s[r.value] == c && c !in s[..r.value]
    ensures r.None? ==> c !in s
  {
    if s == [] then None
    else if s[0] == c then Some(0)
    else
      var r := IndexOf(s[1..], c);
      if r.Some? then
        assert s[..r.value + 1] == [s[0]] + s[1..][..r.value];
        Some(r.value + 1)
      else
        assert s == [s[0]] + s[1..];
        None
  }

  /** The regular expression's prefix `/api/v(?:3|5)/`, matched character by
      character, ASCII letters in either case. */
  predicate MatchesHashPrefix(path: string)
    requires |path| >= 8
  {
    && path[0] == '/'
    && LowerChar(path[1]) == 'a' && LowerChar(path[2]) == 'p' && LowerChar(path[3]) == 'i'
    && path[4] == '/'
    && LowerChar(path[5]) == 'v'
    && (path[6] == '3' || path[6] == '5')
    && path[7] == '/'
  }

  lemma HashPrefixAgrees(path: string)
    requires |path| >= 8
    ensures MatchesHashPrefix(path) <==> IsHashPrefix(path[..8])
  {
    var low := ToLowerCase(path[..8]);
    if MatchesHashPrefix(path) {
      if path[6] == '3' {
        assert low == "/api/v3/";
      } else {
        assert low == "/api/v5/";
      }
    }
    if IsHashPrefix(path[..8]) {
      assert low[0] == '/' && low[4] == '/' && low[7] == '/';
      assert low[6] == '3' || low[6] == '5';
    }
  }

  /** `url.pathname.match(hashUUIDPattern)` with its two named groups. */
  function MatchHashPath(path: string): (r: Option<(string, string)>)
  {
    if |path| < 8 || !MatchesHashPrefix(path) then None
    else
      var rest := path[8..];
      match IndexOf(rest, '/')
      case None => None
      case Some(k) =>
        var ns, name := rest[..k], rest[k + 1..];
        if ns == "" || name == "" || '/' in name then None else Some((ns, name))
  }

  /** The matcher finds exactly the captures the pattern describes. */
  lemma MatchHashPathCorrect(path: string, ns: string, name: string)
    ensures MatchHashPath(path) == Some((ns, name)) <==> HashPathSpec(path, ns, name)
  {
    if |path| >= 8 {
      HashPrefixAgrees(path);
    }
    if MatchHashPath(path) == Some((ns, name)) {
      var rest := path[8..];
      var k := IndexOf(rest, '/').value;
      assert rest == rest[..k] + "/" + rest[k + 1..];
    }
    if HashPathSpec(path, ns, name) {
      var rest := path[8..];
      assert rest[|ns|] == '/';
      var k := IndexOf(rest, '/');
      assert k == Some(|ns|);
      assert rest[..|ns|] == ns;
      assert rest[|ns| + 1..] == name;
    }
  }

  /** The routing decision of `handleRequest`: exactly one outcome, checked in
      order (the v4 path, then the hash pattern, then the form page). */
  function Classify(path: string): (r: Route)
    ensures r == ApiV4 <==> path == V4Path
    ensures r.HashRoute? ==> HashPathSpec(path, r.ns, r.name)
    ensures forall ns, name :: HashPathSpec(path, ns, name) ==> r == HashRoute(ns, name)
    ensures r == FormRoute <==> path == FormPath
    ensures r == NotFound <==>
      path != V4Path && path != FormPath && forall ns, name :: !HashPathSpec(path, ns, name)
  {
    if path == V4Path then ApiV4
    else
      match MatchHashPath(path)
      case Some((ns, name)) =>
        MatchHashPathCorrect(path, ns, name);
        assert forall ns', name' :: HashPathSpec(path, ns', name') ==> ns' == ns && name' == name by {
          forall ns', name' | HashPathSpec(path, ns', name') ensures ns' == ns && name' == name {
            MatchHashPathCorrect(path, ns', name');
          }
        }
        HashRoute(ns, name)
      case None =>
        assert forall ns', name' :: !HashPathSpec(path, ns', name') by {
          forall ns', name' ensures !HashPathSpec(path, ns', name') {
            MatchHashPathCorrect(path, ns', name');
          }
        }
        if path == FormPath then FormRoute else NotFound
  }

  /** `t` occurs in `s` starting at index `i`. */
  predicate OccursAt(s: string, t: string, i: int) {
    0 <= i && i + |t| <= |s| && s[i..i + |t|] == t
  }

  /** `String.prototype.includes`: case-sensitive substring search. */
  function Contains(s: string, t: string): (r: bool)
    ensures r <==> exists i :: OccursAt(s, t, i)
    decreases |s|
  {
    if |s| < |t| then false
    else if s[..|t|] == t then
      assert OccursAt(s, t, 0);
      true
    else
      var r := Contains(s[1..], t);
      assert forall i :: OccursAt(s, t, i + 1) <==> OccursAt(s[1..], t, i) by {
        forall i ensures OccursAt(s, t, i + 1) <==> OccursAt(s[1..], t, i) {
          if 0 <= i && i + 1 + |t| <= |s| {
            var a, b := s[i + 1..i + 1 + |t|], s[1..][i..i + |t|];
            forall k | 0 <= k < |a| ensures a[k] == b[k] {
            }
            assert a == b;
          }
        }
      }
      assert r ==> exists i :: OccursAt(s, t, i) by {
        if r {
          var j :| OccursAt(s[1..], t, j);
          assert OccursAt(s, t, j + 1);
        }
      }
      assert (exists i :: OccursAt(s, t, i)) ==> r by {
        if exists i :: OccursAt(s, t, i) {
          var j :| OccursAt(s, t, j);
          assert j != 0;
          assert OccursAt(s[1..], t, j - 1);
        }
      }
      r
  }

  /** The version a hash route hashes with: the first of `/v3/` and `/v5/`
      that occurs in the path, case-sensitively, or none. */
  function HashVersion(path: string): (r: Option<Version>)
  {
    if Contains(path, "/v3/") then Some(V3)
    else if Contains(path, "/v5/") then Some(V5)
    else None
  }

  /** In a path the hash pattern matches, a `/w/` marker with a two-character
      `w` can only be the version segment or the namespace segment. */
  lemma MarkerPositions(path: string, ns: string, name: string, w: string, i: int)
    requires HashPathSpec(path, ns, name)
    requires |w| == 2 && '/' !in w
    requires OccursAt(path, "/" + w + "/", i)
    ensures (i == 4 && path[5..7] == w) || (i == 7 && ns == w)
  {
    HashPrefixAgrees(path);
    var t := "/" + w + "/";
    assert path[i] == t[0] == '/' && path[i + 3] == t[3] == '/';
    assert path[i..i + 4] == t;
    assert path[i + 1] == t[1] == w[0] && path[i + 2] == t[2] == w[1];
    assert path[i + 1..i + 3] == w;
    var n := |ns|;
    assert path[8..][..n] == ns && path[8..][n + 1..] == name;
    assert path[8..8 + n] == ns;
    assert path[9 + n..] == name;
    // Slashes stand only at 0, 4, 7 and 8 + |ns|.
    forall j | 0 <= j < |path| && path[j] == '/'
      ensures j == 0 || j == 4 || j == 7 || j == 8 + n
    {
    }
    if i == 7 {
      assert path[8..10] == ns;
    }
  }

  /** The quirk of the two tests: when the version segment is written `V3` or
      `V5`, the route matches but neither marker occurs (unless the namespace
      itself is `v3` or `v5`), so no hash version is chosen. */
  lemma UpperCaseVersionChoosesNothing(path: string, ns: string, name: string)
    requires HashPathSpec(path, ns, name)
    requires path[5] == 'V'
    requires ns != "v3" && ns != "v5"
    ensures Classify(path) == HashRoute(ns, name)
    ensures HashVersion(path) == None
  {
    if Contains(path, "/v3/") {
      var i :| OccursAt(path, "/v3/", i);
      MarkerPositions(path, ns, name, "v3", i);
    }
    if Contains(path, "/v5/") {
      var i :| OccursAt(path, "/v5/", i);
      MarkerPositions(path, ns, name, "v5", i);
    }
  }

  /** A lower-case `v3` version segment selects v3. */
  lemma LowerCaseV3ChoosesV3(path: string, ns: string, name: string)
    requires HashPathSpec(path, ns, name)
    requires path[5..7] == "v3"
    ensures HashVersion(path) == Some(V3)
  {
    HashPrefixAgrees(path);
    assert OccursAt(path, "/v3/", 4);
  }

  /** A lower-case `v5` version segment selects v5, unless the namespace
      segment is the string `v3`, which wins. */
  lemma LowerCaseV5ChoosesV5(path: string, ns: string, name: string)
    requires HashPathSpec(path, ns, name)
    requires path[5..7] == "v5"
    ensures HashVersion(path) == (if ns == "v3" then Some(V3) else Some(V5))
  {
    HashPrefixAgrees(path);
    assert OccursAt(path, "/v5/", 4);
    if ns == "v3" {
      assert path[8..10] == ns;
      assert OccursAt(path, "/v3/", 7);
    } else if Contains(path, "/v3/") {
      var i :| OccursAt(path, "/v3/", i);
      MarkerPositions(path, ns, name, "v3", i);
    }
  }
}
