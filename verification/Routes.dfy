/** Route patterns with `:name` parameters: matching a path, and the registry's first match. */
module Routes {
  import opened Base

  datatype Route = Route(method_: string, path: string)

  // ---------------------------------------------------------------- splitting at '/'

  predicate SlashFree(s: string) {
    forall i :: 0 <= i < |s| ==> s[i] != '/'
  }

  function Split(s: string): (parts: seq<string>)
    ensures |parts| > 0
    ensures forall i :: 0 <= i < |parts| ==> SlashFree(parts[i])
  {
    if s == "" then [""]
    else
      var rest := Split(s[1..]);
      if s[0] == '/' then [""] + rest else [[s[0]] + rest[0]] + rest[1..]
  }

  function Join(parts: seq<string>): string
    requires |parts| > 0
  {
    if |parts| == 1 then parts[0] else parts[0] + ("/" + Join(parts[1..]))
  }

  lemma {:induction false} JoinInvertsSplit(s: string)
    ensures Join(Split(s)) == s
  {
    if s == "" {
    } else {
      JoinInvertsSplit(s[1..]);
      var rest := Split(s[1..]);
      if s[0] == '/' {
        assert ([""] + rest)[1..] == rest;
      } else {
        assert ([[s[0]] + rest[0]] + rest[1..])[1..] == rest[1..];
      }
    }
  }

  lemma {:induction false} SplitWhole(s: string)
    requires SlashFree(s)
    ensures Split(s) == [s]
  {
    if s == "" {
    } else {
      SplitWhole(s[1..]);
      assert [s[0]] + s[1..] == s;
    }
  }

  lemma {:induction false} SplitAtSlash(a: string, b: string)
    requires SlashFree(a)
    ensures Split(a + ("/" + b)) == [a] + Split(b)
  {
    var s := a + ("/" + b);
    if a == "" {
      assert s[1..] == b;
    } else {
      assert s[1..] == a[1..] + ("/" + b);
      SplitAtSlash(a[1..], b);
      assert [s[0]] + a[1..] == a;
    }
  }

  lemma {:induction false} SplitInvertsJoin(parts: seq<string>)
    requires |parts| > 0 && forall i :: 0 <= i < |parts| ==> SlashFree(parts[i])
    ensures Split(Join(parts)) == parts
  {
    if |parts| == 1 {
      SplitWhole(parts[0]);
    } else {
      SplitInvertsJoin(parts[1..]);
      SplitAtSlash(parts[0], Join(parts[1..]));
    }
  }

  /** A slash inside any part makes the joined path split into more parts than it was joined from. */
  lemma {:induction false} ExtraSlash(parts: seq<string>)
    requires |parts| > 0
    ensures |Split(Join(parts))| >= |parts|
    ensures |Split(Join(parts))| == |parts| <==> forall i :: 0 <= i < |parts| ==> SlashFree(parts[i])
  {
    SlashesCounted(Join(parts));
    JoinSlashes(parts);
  }

  function Slashes(s: string): nat {
    if s == "" then 0 else (if s[0] == '/' then 1 else 0) + Slashes(s[1..])
  }

  function TotalSlashes(parts: seq<string>): nat {
    if parts == [] then 0 else Slashes(parts[0]) + TotalSlashes(parts[1..])
  }

  lemma {:induction false} SlashesCounted(s: string)
    ensures |Split(s)| == 1 + Slashes(s)
  {
    if s == "" {
    } else {
      SlashesCounted(s[1..]);
    }
  }

  lemma {:induction false} SlashesConcat(a: string, b: string)
    ensures Slashes(a + b) == Slashes(a) + Slashes(b)
  {
    if a == "" {
      assert a + b == b;
    } else {
      assert (a + b)[1..] == a[1..] + b;
      SlashesConcat(a[1..], b);
    }
  }

  lemma {:induction false} NoSlashes(s: string)
    ensures Slashes(s) == 0 <==> SlashFree(s)
  {
    if s == "" {
    } else {
      NoSlashes(s[1..]);
      assert forall i :: 1 <= i < |s| ==> s[i] == s[1..][i - 1];
    }
  }

  lemma {:induction false} JoinSlashes(parts: seq<string>)
    requires |parts| > 0
    ensures Slashes(Join(parts)) == |parts| - 1 + TotalSlashes(parts)
    ensures TotalSlashes(parts) == 0 <==> forall i :: 0 <= i < |parts| ==> SlashFree(parts[i])
  {
    NoSlashes(parts[0]);
    if |parts| == 1 {
    } else {
      JoinSlashes(parts[1..]);
      SlashesConcat(parts[0], "/" + Join(parts[1..]));
      SlashesConcat("/", Join(parts[1..]));
      assert Slashes("/") == 1;
      assert forall i :: 1 <= i < |parts| ==> parts[i] == parts[1..][i - 1];
    }
  }

  // ---------------------------------------------------------------- matching

  predicate IsParam(p: string) {
    p != "" && p[0] == ':'
  }

  function Name(p: string): string
    requires IsParam(p)
  {
    p[1..]
  }

  /** The parameters found in the first `n` parts; a later part with the same name wins. */
  function MatchParts(patterns: seq<string>, actuals: seq<string>, n: nat): Option<map<string, string>>
    requires n <= |patterns| && n <= |actuals|
  {
    if n == 0 then Some(map[])
    else
      match MatchParts(patterns, actuals, n - 1)
      case None => None
      case Some(params) =>
        if IsParam(patterns[n - 1]) then Some(params[Name(patterns[n - 1]) := actuals[n - 1]])
        else if patterns[n - 1] == actuals[n - 1] then Some(params)
        else None
  }

  function MatchRoute(r: Route, method_: string, path: string): Option<map<string, string>> {
    if method_ != r.method_ then None
    else
      var patterns, actuals := Split(r.path), Split(path);
      if |patterns| != |actuals| then None else MatchParts(patterns, actuals, |patterns|)
  }

  method Matches(r: Route, method_: string, path: string) returns (params: Option<map<string, string>>)
    ensures params == MatchRoute(r, method_, path)
  {
    if method_ != r.method_ {
      return None;
    }
    var patterns, actuals := Split(r.path), Split(path);
    if |patterns| != |actuals| {
      return None;
    }
    var found: map<string, string> := map[];
    for i := 0 to |patterns|
      invariant MatchParts(patterns, actuals, i) == Some(found)
    {
      if IsParam(patterns[i]) {
        found := found[Name(patterns[i]) := actuals[i]];
      } else if patterns[i] != actuals[i] {
        NoLaterMatch(patterns, actuals, i + 1, |patterns|);
        return None;
      }
    }
    params := Some(found);
  }

  lemma {:induction false} NoLaterMatch(patterns: seq<string>, actuals: seq<string>, i: nat, n: nat)
    requires i <= n <= |patterns| && n <= |actuals| && MatchParts(patterns, actuals, i).None?
    ensures MatchParts(patterns, actuals, n).None?
  {
    if i < n {
      NoLaterMatch(patterns, actuals, i, n - 1);
    }
  }

  /** `v` was matched by a parameter named `k` among the first `n` parts. */
  ghost predicate Captured(patterns: seq<string>, actuals: seq<string>, n: nat, k: string, v: string)
    requires n <= |patterns| && n <= |actuals|
  {
    exists i :: 0 <= i < n && IsParam(patterns[i]) && Name(patterns[i]) == k && v == actuals[i]
  }

  /** There is a match exactly when every fixed part is equal; it has the parameters of the pattern, with captured values. */
  lemma {:induction false} MatchMeans(patterns: seq<string>, actuals: seq<string>, n: nat)
    requires n <= |patterns| && n <= |actuals|
    ensures MatchParts(patterns, actuals, n).Some? <==>
            forall i :: 0 <= i < n && !IsParam(patterns[i]) ==> patterns[i] == actuals[i]
    ensures MatchParts(patterns, actuals, n).Some? ==>
              var params := MatchParts(patterns, actuals, n).value;
              && (forall i :: 0 <= i < n && IsParam(patterns[i]) ==> Name(patterns[i]) in params)
              && (forall k :: k in params ==> Captured(patterns, actuals, n, k, params[k]))
  {
    if n == 0 {
    } else {
      MatchMeans(patterns, actuals, n - 1);
    }
  }

  /**
   * A route matches a request if and only if the method is the same, the paths have as many parts, and every
   * fixed part is equal. A parameter has the value of the last part with its name, and there are no others.
   */
  lemma MatchExactly(r: Route, method_: string, path: string)
    ensures MatchRoute(r, method_, path).Some? <==>
            && method_ == r.method_ && |Split(r.path)| == |Split(path)|
            && forall i :: 0 <= i < |Split(path)| && !IsParam(Split(r.path)[i]) ==> Split(r.path)[i] == Split(path)[i]
    ensures MatchRoute(r, method_, path).Some? ==>
              var params := MatchRoute(r, method_, path).value;
              && (forall k :: k in params ==> Captured(Split(r.path), Split(path), |Split(path)|, k, params[k]))
              && forall i :: 0 <= i < |Split(path)| && LastOfName(Split(r.path), i) ==>
                               var k := Name(Split(r.path)[i]); k in params && params[k] == Split(path)[i]
  {
    var patterns, actuals := Split(r.path), Split(path);
    if |patterns| == |actuals| {
      MatchMeans(patterns, actuals, |patterns|);
      if MatchRoute(r, method_, path).Some? {
        forall i | 0 <= i < |actuals| && LastOfName(patterns, i)
          ensures Name(patterns[i]) in MatchRoute(r, method_, path).value
          ensures MatchRoute(r, method_, path).value[Name(patterns[i])] == actuals[i]
        {
          LastValueWins(patterns, actuals, |patterns|, i);
        }
      }
    }
  }

  /** Part `i` is a parameter, and no later part has its name. */
  predicate LastOfName(patterns: seq<string>, i: nat)
    requires i < |patterns|
  {
    IsParam(patterns[i]) && forall j :: i < j < |patterns| && IsParam(patterns[j]) ==> Name(patterns[j]) != Name(patterns[i])
  }

  lemma {:induction false} LastValueWins(patterns: seq<string>, actuals: seq<string>, n: nat, i: nat)
    requires i < n <= |patterns| == |actuals| && LastOfName(patterns, i) && MatchParts(patterns, actuals, n).Some?
    ensures Name(patterns[i]) in MatchParts(patterns, actuals, n).value
    ensures MatchParts(patterns, actuals, n).value[Name(patterns[i])] == actuals[i]
  {
    if i == n - 1 {
    } else {
      LastValueWins(patterns, actuals, n - 1, i);
    }
  }

  // ---------------------------------------------------------------- substitution

  predicate Covers(params: map<string, string>, patterns: seq<string>) {
    forall i :: 0 <= i < |patterns| && IsParam(patterns[i]) ==> Name(patterns[i]) in params
  }

  function Substitute(patterns: seq<string>, params: map<string, string>): (parts: seq<string>)
    requires Covers(params, patterns)
  {
    seq(|patterns|, i requires 0 <= i < |patterns| => if IsParam(patterns[i]) then params[Name(patterns[i])] else patterns[i])
  }

  predicate SameName(p: string, q: string) {
    IsParam(p) && IsParam(q) && Name(p) == Name(q)
  }

  /** Wherever the pattern repeats a parameter name, the path repeats the value. */
  ghost predicate RepeatsAgree(patterns: seq<string>, actuals: seq<string>)
    requires |patterns| == |actuals|
  {
    forall i, j :: 0 <= i < j < |patterns| && SameName(patterns[i], patterns[j]) ==> actuals[i] == actuals[j]
  }

  /**
   * Matching inverts substitution: when a path matches, putting the parameters back into the pattern
   * rebuilds the path if and only if repeated parameter names met equal parts (with distinct names, always).
   */
  lemma MatchRebuilds(r: Route, path: string)
    requires MatchRoute(r, r.method_, path).Some?
    ensures var params := MatchRoute(r, r.method_, path).value;
            && |Split(r.path)| == |Split(path)| && Covers(params, Split(r.path))
            && (Join(Substitute(Split(r.path), params)) == path <==> RepeatsAgree(Split(r.path), Split(path)))
  {
    var patterns, actuals := Split(r.path), Split(path);
    var params := MatchRoute(r, r.method_, path).value;
    MatchMeans(patterns, actuals, |patterns|);
    JoinInvertsSplit(path);
    SubstituteGivesParts(patterns, actuals, params);
    if Join(Substitute(patterns, params)) == path {
      SplitInvertsJoin(actuals);
      ValuesSlashFree(patterns, actuals, params);
      SplitInvertsJoin(Substitute(patterns, params));
    }
  }

  ghost predicate LastValues(patterns: seq<string>, actuals: seq<string>, params: map<string, string>)
    requires |patterns| == |actuals|
  {
    && Covers(params, patterns)
    && (forall i :: 0 <= i < |patterns| && !IsParam(patterns[i]) ==> patterns[i] == actuals[i])
    && (forall k :: k in params ==> Captured(patterns, actuals, |patterns|, k, params[k]))
  }

  lemma ValuesSlashFree(patterns: seq<string>, actuals: seq<string>, params: map<string, string>)
    requires |patterns| == |actuals| && LastValues(patterns, actuals, params)
    requires forall i :: 0 <= i < |actuals| ==> SlashFree(actuals[i])
    ensures forall i :: 0 <= i < |patterns| ==> SlashFree(Substitute(patterns, params)[i])
  {
    forall i | 0 <= i < |patterns| ensures SlashFree(Substitute(patterns, params)[i]) {
      if IsParam(patterns[i]) {
        assert Captured(patterns, actuals, |patterns|, Name(patterns[i]), params[Name(patterns[i])]);
      } else {
        assert patterns[i] == actuals[i];
      }
    }
  }

  lemma SubstituteGivesParts(patterns: seq<string>, actuals: seq<string>, params: map<string, string>)
    requires |patterns| == |actuals| && LastValues(patterns, actuals, params)
    ensures Substitute(patterns, params) == actuals <==> RepeatsAgree(patterns, actuals)
  {
    var parts := Substitute(patterns, params);
    if RepeatsAgree(patterns, actuals) {
      forall i | 0 <= i < |patterns| ensures parts[i] == actuals[i] {
        if IsParam(patterns[i]) {
          var k := Name(patterns[i]);
          assert Captured(patterns, actuals, |patterns|, k, params[k]);
          var j :| 0 <= j < |patterns| && IsParam(patterns[j]) && Name(patterns[j]) == k && params[k] == actuals[j];
        }
      }
    } else {
      var i, j :| 0 <= i < j < |patterns| && SameName(patterns[i], patterns[j]) && actuals[i] != actuals[j];
      assert parts[i] == parts[j];
    }
  }

  /** The values substituted into the pattern. */
  function Used(patterns: seq<string>, params: map<string, string>): map<string, string> {
    map k | k in params && (exists i :: 0 <= i < |patterns| && IsParam(patterns[i]) && Name(patterns[i]) == k) :: params[k]
  }

  /**
   * Substitution inverts matching: a path made by substituting values matches, with exactly those
   * values, if and only if the substituted parts are free of slashes.
   */
  lemma SubstitutedMatches(r: Route, params: map<string, string>)
    requires Covers(params, Split(r.path))
    ensures var parts := Substitute(Split(r.path), params);
            MatchRoute(r, r.method_, Join(parts)) ==
            if forall i :: 0 <= i < |parts| ==> SlashFree(parts[i]) then Some(Used(Split(r.path), params)) else None
  {
    var patterns := Split(r.path);
    var parts := Substitute(patterns, params);
    ExtraSlash(parts);
    if forall i :: 0 <= i < |parts| ==> SlashFree(parts[i]) {
      SplitInvertsJoin(parts);
      MatchMeans(patterns, parts, |patterns|);
      var found := MatchParts(patterns, parts, |patterns|).value;
      SameValues(patterns, parts, params, found);
    }
  }

  lemma SameValues(patterns: seq<string>, parts: seq<string>, params: map<string, string>, found: map<string, string>)
    requires Covers(params, patterns) && parts == Substitute(patterns, params) && LastValues(patterns, parts, found)
    ensures found == Used(patterns, params)
  {
    var used := Used(patterns, params);
    forall k | k in found ensures k in used && found[k] == used[k] {
      assert Captured(patterns, parts, |patterns|, k, found[k]);
      var i :| 0 <= i < |patterns| && IsParam(patterns[i]) && Name(patterns[i]) == k && found[k] == parts[i];
    }
    forall k | k in used ensures k in found {
      var i :| 0 <= i < |patterns| && IsParam(patterns[i]) && Name(patterns[i]) == k;
      assert Name(patterns[i]) in found;
    }
  }

  // ---------------------------------------------------------------- the registry

  type Found = Option<(Route, map<string, string>)>

  function Find(routes: seq<Route>, i: nat, method_: string, path: string): Found
    requires i <= |routes|
    decreases |routes| - i
  {
    if i == |routes| then None
    else
      match MatchRoute(routes[i], method_, path)
      case Some(params) => Some((routes[i], params))
      case None => Find(routes, i + 1, method_, path)
  }

  class RouteRegistry {
    var routes: seq<Route>

    constructor ()
      ensures routes == []
    {
      routes := [];
    }

    method Register(route: Route)
      modifies this
      ensures routes == old(routes) + [route]
    {
      routes := routes + [route];
    }

    method RegisterAll(more: seq<Route>)
      modifies this
      ensures routes == old(routes) + more
    {
      routes := routes + more;
    }

    method FindRoute(method_: string, path: string) returns (found: Found)
      ensures found == Find(routes, 0, method_, path)
    {
      for i := 0 to |routes|
        invariant Find(routes, i, method_, path) == Find(routes, 0, method_, path)
      {
        var params := Matches(routes[i], method_, path);
        if params.Some? {
          return Some((routes[i], params.value));
        }
      }
      found := None;
    }
  }

  /** The answer is the first route that matches; none exactly when no route matches. */
  lemma {:induction false} FindIsFirst(routes: seq<Route>, i: nat, method_: string, path: string)
    requires i <= |routes|
    ensures match Find(routes, i, method_, path)
            case None => forall k :: i <= k < |routes| ==> MatchRoute(routes[k], method_, path).None?
            case Some((r, params)) =>
              exists k :: i <= k < |routes| && routes[k] == r && MatchRoute(r, method_, path) == Some(params) &&
                          forall j :: i <= j < k ==> MatchRoute(routes[j], method_, path).None?
    decreases |routes| - i
  {
    if i < |routes| && MatchRoute(routes[i], method_, path).None? {
      FindIsFirst(routes, i + 1, method_, path);
    }
  }

  /** Routes registered later never change an answer already given. */
  lemma {:induction false} LaterRoutesIrrelevant(routes: seq<Route>, more: seq<Route>, i: nat, method_: string,
        path: string)
    requires i <= |routes| && Find(routes, i, method_, path).Some?
    ensures Find(routes + more, i, method_, path) == Find(routes, i, method_, path)
    decreases |routes| - i
  {
    if MatchRoute(routes[i], method_, path).None? {
      LaterRoutesIrrelevant(routes, more, i + 1, method_, path);
    }
  }
}
