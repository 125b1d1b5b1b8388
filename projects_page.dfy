/**
 * The projects page's list filter: a case-insensitive text search on title
 * and tagline, combined with a category button (ALL, DEVOPS, WEB, TOOLS)
 * that tests the project's skills by category code or by name.
 */
module ProjectsPage {
  import opened Text
  import opened CoreModels

  const DevOpsNames: set<string> := {"DOCKER", "KUBERNETES", "AWS", "LINUX", "JENKINS"}
  const WebNames: set<string> := {"REACT", "DJANGO", "PYTHON", "JS"}

  /** The query occurs, ignoring case, in the title or the tagline. */
  predicate MatchesSearch(p: Project, query: string) {
    Contains(Lower(p.title), Lower(query)) || Contains(Lower(p.tagline), Lower(query))
  }

  predicate HasCategory(p: Project, code: string) {
    exists s | s in p.skills :: s.category == code
  }

  /** Some skill's upper-cased name is one of `names`. */
  predicate HasNamed(p: Project, names: set<string>) {
    exists s | s in p.skills :: Upper(s.name) in names
  }

  /** The category button's test; any id other than the three named ones tests nothing. */
  predicate MatchesCategory(p: Project, filter: string) {
    if filter == "DEVOPS" then HasCategory(p, "DEVOPS") || HasNamed(p, DevOpsNames)
    else if filter == "WEB" then HasCategory(p, "FRONT") || HasCategory(p, "BACK") || HasNamed(p, WebNames)
    else if filter == "TOOLS" then HasCategory(p, "TOOL")
    else true
  }

  predicate Keep(p: Project, filter: string, query: string) {
    MatchesSearch(p, query) && MatchesCategory(p, filter)
  }

  /** `filteredProjects`: the projects passing both tests, in their original order. */
  function FilterProjects(ps: seq<Project>, filter: string, query: string): (r: seq<Project>)
    ensures |r| <= |ps|
    ensures forall p :: p in r <==> p in ps && Keep(p, filter, query)
  {
    if ps == [] then []
    else (if Keep(ps[0], filter, query) then [ps[0]] else []) + FilterProjects(ps[1..], filter, query)
  }

  /** Filtering distributes over concatenation: relative order is kept. */
  lemma {:induction false} FilterAppend(a: seq<Project>, b: seq<Project>, filter: string, query: string)
    ensures FilterProjects(a + b, filter, query) == FilterProjects(a, filter, query) + FilterProjects(b, filter, query)
  {
    if a != [] {
      assert (a + b)[0] == a[0] && (a + b)[1..] == a[1..] + b;
      FilterAppend(a[1..], b, filter, query);
    } else {
      assert a + b == b;
    }
  }

  /** The empty query matches every project. */
  lemma EmptyQueryMatches(p: Project)
    ensures MatchesSearch(p, "")
  {
    ContainsEmpty(Lower(p.title));
  }

  /** With the ALL button and an empty search box every project is listed, in order. */
  lemma {:induction false} NoFilterListsAll(ps: seq<Project>)
    ensures FilterProjects(ps, "ALL", "") == ps
  {
    if ps != [] {
      EmptyQueryMatches(ps[0]);
      NoFilterListsAll(ps[1..]);
      assert ps == [ps[0]] + ps[1..];
    }
  }

  /** An unrecognised filter id behaves exactly like ALL. */
  lemma {:induction false} UnknownFilterIsAll(ps: seq<Project>, filter: string, query: string)
    requires filter !in {"DEVOPS", "WEB", "TOOLS"}
    ensures FilterProjects(ps, filter, query) == FilterProjects(ps, "ALL", query)
  {
    if ps != [] {
      UnknownFilterIsAll(ps[1..], filter, query);
    }
  }

  /** The search ignores the case of the query. */
  lemma SearchIgnoresQueryCase(p: Project, query: string)
    ensures MatchesSearch(p, Upper(query)) == MatchesSearch(p, query)
  {
    LowerOfUpper(query);
  }

  /** Applying the same filter again removes nothing more. */
  lemma {:induction false} FilterIdempotent(ps: seq<Project>, filter: string, query: string)
    ensures FilterProjects(FilterProjects(ps, filter, query), filter, query) == FilterProjects(ps, filter, query)
  {
    if ps != [] {
      var head := if Keep(ps[0], filter, query) then [ps[0]] else [];
      var rest := FilterProjects(ps[1..], filter, query);
      FilterAppend(head, rest, filter, query);
      FilterIdempotent(ps[1..], filter, query);
      if head != [] {
        assert FilterProjects(head, filter, query) == head by {
          assert head[1..] == [];
        }
      }
    }
  }
}
