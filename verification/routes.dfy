/**
 * How the navigation services classify a URL
 * (src/app/core/services/navigation-state.service.ts): the landing page,
 * the planets list and a single planet's page.
 */
module Routes {
  import opened JsStrings

  const DetailPrefix := "/planets/"

  /** `route === '/' || route === ''`. */
  predicate IsHomePage(route: string) {
    route == "/" || route == ""
  }

  /** `route === '/planets'`. */
  predicate IsPlanetsListPage(route: string) {
    route == "/planets"
  }

  /** `route.startsWith('/planets/') && route.split('/').length === 3`. */
  predicate IsPlanetDetailPage(route: string) {
    StartsWith(route, DetailPrefix) && |Split(route, '/')| == 3
  }

  lemma {:induction false} CountAppend(a: string, b: string, c: char)
    ensures Count(a + b, c) == Count(a, c) + Count(b, c)
    decreases |a|
  {
    if |a| > 0 {
      assert (a + b)[1..] == a[1..] + b;
      CountAppend(a[1..], b, c);
    } else {
      assert a + b == b;
    }
  }

  lemma {:induction false} CountZero(s: string, c: char)
    ensures Count(s, c) == 0 <==> c !in s
    decreases |s|
  {
    if |s| > 0 {
      CountZero(s[1..], c);
      assert s == [s[0]] + s[1..];
    }
  }

  /**
   * A detail route is "/planets/" followed by an id that holds no further
   * '/' (the id may be empty).
   */
  lemma DetailRouteShape(route: string)
    ensures IsPlanetDetailPage(route) <==> StartsWith(route, DetailPrefix) && '/' !in route[|DetailPrefix|..]
  {
    if StartsWith(route, DetailPrefix) {
      var id := route[|DetailPrefix|..];
      assert route == DetailPrefix + id;
      CountAppend(DetailPrefix, id, '/');
      assert Count(DetailPrefix, '/') == 2;
      CountZero(id, '/');
    }
  }

  /** The three page kinds never overlap. */
  lemma PageKindsExclusive(route: string)
    ensures !(IsHomePage(route) && IsPlanetsListPage(route))
    ensures !(IsHomePage(route) && IsPlanetDetailPage(route))
    ensures !(IsPlanetsListPage(route) && IsPlanetDetailPage(route))
  {
  }

  /** A planet's page: '/planets/' and an id, such as '/planets/42'. */
  lemma DetailRouteWithId()
    ensures IsPlanetDetailPage("/planets/42")
  {
    DetailRouteShape("/planets/42");
    assert "/planets/42"[..|DetailPrefix|] == DetailPrefix;
    assert "/planets/42"[9..] == "42";
  }

  /** The id may be empty. */
  lemma DetailRouteEmptyId()
    ensures IsPlanetDetailPage("/planets/")
  {
    DetailRouteShape("/planets/");
    assert "/planets/"[..|DetailPrefix|] == DetailPrefix;
  }

  /** A deeper path under a planet is not a planet's page. */
  lemma NestedRouteIsNotDetail()
    ensures !IsPlanetDetailPage("/planets/42/x")
  {
    DetailRouteShape("/planets/42/x");
    assert "/planets/42/x"[9..] == "42/x";
    assert "/planets/42/x"[9..][2] == '/';
  }
}
