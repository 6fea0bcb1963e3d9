/** runtime/openapi/openapi.go: the order of routes, and paths in the form of a document. */
module Routes {
  import opened Text
  import opened Order

  datatype Route = Route(method_: string, path: string)

  // ----- sorting ------------------------------------------------------------------------------------

  /** The order of Build: by path, then by method. */
  predicate RouteBefore(x: Route, y: Route) {
    if x.path == y.path then Before(x.method_, y.method_) else Before(x.path, y.path)
  }

  predicate NotAfter(x: Route, y: Route) {
    x == y || RouteBefore(x, y)
  }

  lemma RoutesOrdered(x: Route, y: Route, z: Route)
    ensures NotAfter(x, y) || NotAfter(y, x)
    ensures NotAfter(x, y) && NotAfter(y, z) ==> NotAfter(x, z)
    ensures NotAfter(x, y) && NotAfter(y, x) ==> x == y
  {
    Total(x.path, y.path);
    Total(x.method_, y.method_);
    if Before(x.path, y.path) {
      Asymmetric(x.path, y.path);
      if Before(y.path, z.path) {
        Transitive(x.path, y.path, z.path);
        Asymmetric(x.path, z.path);
      }
    }
    if Before(x.method_, y.method_) {
      Asymmetric(x.method_, y.method_);
      if Before(y.method_, z.method_) {
        Transitive(x.method_, y.method_, z.method_);
      }
    }
    hide Before;
  }

  predicate InOrder(routes: seq<Route>) {
    forall i, j :: 0 <= i < j < |routes| ==> NotAfter(routes[i], routes[j])
  }

  function Insert(routes: seq<Route>, x: Route): seq<Route> {
    if routes == [] || NotAfter(x, routes[0]) then [x] + routes else [routes[0]] + Insert(routes[1..], x)
  }

  lemma {:induction false} InsertSame(routes: seq<Route>, x: Route)
    ensures multiset(Insert(routes, x)) == multiset(routes) + multiset{x}
  {
    hide NotAfter;
    if routes != [] {
      assert routes == [routes[0]] + routes[1..];
      InsertSame(routes[1..], x);
    }
  }

  lemma {:induction false} InsertInOrder(routes: seq<Route>, x: Route)
    requires InOrder(routes)
    ensures InOrder(Insert(routes, x))
  {
    if routes != [] {
      RoutesOrdered(x, routes[0], x);
      if NotAfter(x, routes[0]) {
        forall j | 0 <= j < |routes|
          ensures NotAfter(x, routes[j])
        {
          RoutesOrdered(x, routes[0], routes[j]);
        }
        hide NotAfter;
      } else {
        InsertInOrder(routes[1..], x);
        InsertSame(routes[1..], x);
        hide NotAfter, Insert;
        HeadInOrder(routes, x, Insert(routes[1..], x));
      }
    }
  }

  lemma HeadInOrder(routes: seq<Route>, x: Route, rest: seq<Route>)
    requires routes != [] && InOrder(routes) && NotAfter(routes[0], x) && InOrder(rest)
    requires multiset(rest) == multiset(routes[1..]) + multiset{x}
    ensures InOrder([routes[0]] + rest)
  {
    hide NotAfter;
    forall j | 0 <= j < |rest|
      ensures NotAfter(routes[0], rest[j])
    {
      assert rest[j] in multiset(rest);
      if rest[j] != x {
        assert rest[j] in routes[1..];
      }
    }
  }

  /** The same routes in order. */
  function Sorted(routes: seq<Route>): seq<Route> {
    if routes == [] then [] else Insert(Sorted(routes[..|routes| - 1]), routes[|routes| - 1])
  }

  /** sort.Slice: the same routes, in order, which leaves no choice but between equal ones. */
  lemma {:induction false} SortedInOrder(routes: seq<Route>)
    ensures InOrder(Sorted(routes)) && multiset(Sorted(routes)) == multiset(routes)
  {
    hide NotAfter, Insert;
    if routes != [] {
      var front, last := routes[..|routes| - 1], routes[|routes| - 1];
      SortedInOrder(front);
      InsertInOrder(Sorted(front), last);
      InsertSame(Sorted(front), last);
      assert routes == front + [last];
    }
  }

  /** No later route has a path that comes before, nor for the same path such a method. */
  lemma SortedByPath(routes: seq<Route>, i: nat, j: nat)
    requires i < j < |Sorted(routes)|
    ensures var x, y := Sorted(routes)[i], Sorted(routes)[j];
      !Before(y.path, x.path) && (y.path == x.path ==> !Before(y.method_, x.method_))
  {
    SortedInOrder(routes);
    var x, y := Sorted(routes)[i], Sorted(routes)[j];
    assert NotAfter(x, y);
    hide Sorted, InOrder;
    if Before(y.path, x.path) {
      Asymmetric(y.path, x.path);
    }
    if Before(y.method_, x.method_) {
      Asymmetric(y.method_, x.method_);
    }
    hide Before;
  }

  method SortRoutes(routes: seq<Route>) returns (sorted: seq<Route>)
    ensures sorted == Sorted(routes)
    ensures InOrder(sorted) && multiset(sorted) == multiset(routes)
  {
    hide NotAfter, Insert, InOrder;
    SortedInOrder(routes);
    sorted := [];
    var i := 0;
    while i < |routes|
      invariant 0 <= i <= |routes|
      invariant sorted == Sorted(routes[..i])
    {
      assert routes[..i + 1][..i] == routes[..i];
      sorted := Insert(sorted, routes[i]);
      i := i + 1;
    }
    assert routes[..i] == routes;
  }

  // ----- paths -----------------------------------------------------------------------------------------

  /** A segment of a gin path that stands for a parameter. */
  predicate IsParameter(segment: string) {
    HasPrefix(segment, ":") || HasPrefix(segment, "*")
  }

  function Converted(segment: string): string {
    if IsParameter(segment) then "{" + segment[1..] + "}" else segment
  }

  function ConvertedAll(segments: seq<string>): (converted: seq<string>)
    ensures |converted| == |segments|
    ensures forall i :: 0 <= i < |segments| ==> converted[i] == Converted(segments[i])
  {
    seq(|segments|, i requires 0 <= i < |segments| => Converted(segments[i]))
  }

  function ParameterNames(segments: seq<string>): seq<string> {
    if segments == [] then []
    else
      var before, last := ParameterNames(segments[..|segments| - 1]), segments[|segments| - 1];
      if IsParameter(last) then before + [last[1..]] else before
  }

  function SpecPath(path: string): string {
    Join(ConvertedAll(Split(path, '/')), "/")
  }

  function PathParameters(path: string): seq<string> {
    ParameterNames(Split(path, '/'))
  }

  /** convertPath: the path with braces, and the names of its parameters in order. */
  method ConvertPath(path: string) returns (specPath: string, names: seq<string>)
    ensures specPath == SpecPath(path) && names == PathParameters(path)
  {
    hide Converted, IsParameter, Split, Join;
    var segments := Split(path, '/');
    var converted: seq<string> := [];
    names := [];
    var i := 0;
    while i < |segments|
      invariant 0 <= i <= |segments|
      invariant converted == ConvertedAll(segments)[..i]
      invariant names == ParameterNames(segments[..i])
    {
      assert segments[..i + 1][..i] == segments[..i];
      converted := converted + [Converted(segments[i])];
      if IsParameter(segments[i]) {
        NotEmpty(segments[i]);
        names := names + [segments[i][1..]];
      }
      i := i + 1;
    }
    assert segments[..i] == segments && ConvertedAll(segments)[..i] == ConvertedAll(segments);
    specPath := Join(converted, "/");
  }

  lemma NotEmpty(segment: string)
    requires IsParameter(segment)
    ensures segment != ""
  {}

  lemma ConvertedHasNoSlash(segment: string)
    requires '/' !in segment
    ensures '/' !in Converted(segment)
  {}

  /** Converting keeps the segments of a path: as many of them, and each changed by itself. */
  lemma SegmentsConverted(path: string)
    ensures Split(SpecPath(path), '/') == ConvertedAll(Split(path, '/'))
  {
    var segments := Split(path, '/');
    forall i | 0 <= i < |segments|
      ensures '/' !in ConvertedAll(segments)[i]
    {
      ConvertedHasNoSlash(segments[i]);
    }
    SplitJoin(ConvertedAll(segments), '/');
  }
}
