/** The project list the portfolio page shows: the projects of the selected tab whose text
    contains the search query, ignoring case and surrounding whitespace. */
module Search {
  import opened Text
  import opened Portfolio

  /** The tab that shows every category. */
  const AllTab := "all"

  /** The text a query is searched in: title, description and technologies, separated by
      spaces and lower-cased. */
  function Haystack(p: Project): string {
    Lower(p.title + " " + p.description + " " + Join(p.tech, " "))
  }

  /** The query as it is compared: trimmed, then lower-cased. */
  function NormalizedQuery(query: string): string {
    Lower(Trim(query))
  }

  /** The project belongs to the selected tab. */
  predicate InTab(p: Project, tab: string) {
    tab == AllTab || p.category == tab
  }

  /** The callback given to `filter`: a blank query keeps every project of the tab, any other
      query keeps those whose haystack contains it. */
  predicate Keep(p: Project, tab: string, query: string) {
    var q := NormalizedQuery(query);
    if q == [] then InTab(p, tab) else InTab(p, tab) && Includes(Haystack(p), q)
  }

  /** `xs.filter(keep)`: the elements `keep` accepts, in their original order. */
  function Filter<T>(xs: seq<T>, keep: T -> bool): (r: seq<T>)
    ensures |r| <= |xs|
  {
    if xs == [] then []
    else if keep(xs[0]) then [xs[0]] + Filter(xs[1..], keep)
    else Filter(xs[1..], keep)
  }

  /** An element is in the result exactly when it is in the input and accepted. */
  lemma {:induction false} FilterMembership<T>(xs: seq<T>, keep: T -> bool, x: T)
    ensures x in Filter(xs, keep) <==> x in xs && keep(x)
  {
    if xs != [] {
      FilterMembership(xs[1..], keep, x);
      assert xs == [xs[0]] + xs[1..];
    }
  }

  /** Filtering distributes over concatenation, so it keeps the input order. */
  lemma {:induction false} FilterAppend<T>(a: seq<T>, b: seq<T>, keep: T -> bool)
    ensures Filter(a + b, keep) == Filter(a, keep) + Filter(b, keep)
  {
    if a == [] {
      assert a + b == b;
    } else {
      var ab := a + b;
      assert ab[0] == a[0] && ab[1..] == a[1..] + b;
      FilterAppend(a[1..], b, keep);
      if keep(a[0]) {
        var fa, fb := Filter(a[1..], keep), Filter(b, keep);
        assert [a[0]] + (fa + fb) == ([a[0]] + fa) + fb;
      }
    }
  }

  /** When every element is accepted, filtering returns the input. */
  lemma {:induction false} FilterAllKept<T>(xs: seq<T>, keep: T -> bool)
    requires forall i :: 0 <= i < |xs| ==> keep(xs[i])
    ensures Filter(xs, keep) == xs
  {
    if xs != [] {
      assert keep(xs[0]);
      FilterAllKept(xs[1..], keep);
    }
  }

  /** Two callbacks that agree on every element give the same result. */
  lemma {:induction false} FilterSameKeep<T>(xs: seq<T>, f: T -> bool, g: T -> bool)
    requires forall i :: 0 <= i < |xs| ==> f(xs[i]) == g(xs[i])
    ensures Filter(xs, f) == Filter(xs, g)
  {
    if xs != [] {
      assert f(xs[0]) == g(xs[0]);
      FilterSameKeep(xs[1..], f, g);
    }
  }

  /** Filtering twice with the same callback changes nothing. */
  lemma {:induction false} FilterIdempotent<T>(xs: seq<T>, keep: T -> bool)
    ensures Filter(Filter(xs, keep), keep) == Filter(xs, keep)
  {
    if xs != [] {
      var rest := Filter(xs[1..], keep);
      FilterIdempotent(xs[1..], keep);
      if keep(xs[0]) {
        FilterAppend([xs[0]], rest, keep);
        assert [xs[0]][1..] == [];
      }
    }
  }

  /** `r` is `xs` with some elements left out and the others in their original order. */
  predicate SubsequenceOf<T(==)>(r: seq<T>, xs: seq<T>)
    decreases |xs|
  {
    if xs == [] then r == []
    else SubsequenceOf(r, xs[1..]) || (r != [] && r[0] == xs[0] && SubsequenceOf(r[1..], xs[1..]))
  }

  /** Filtering keeps a subsequence of its input. */
  lemma {:induction false} FilterIsSubsequence<T>(xs: seq<T>, keep: T -> bool)
    ensures SubsequenceOf(Filter(xs, keep), xs)
  {
    if xs != [] {
      FilterIsSubsequence(xs[1..], keep);
      if keep(xs[0]) {
        assert ([xs[0]] + Filter(xs[1..], keep))[1..] == Filter(xs[1..], keep);
      }
    }
  }

  /** `filtered`: `projects.filter` with the callback `Keep`. */
  function Filtered(projects: seq<Project>, tab: string, query: string): seq<Project> {
    Filter(projects, p => Keep(p, tab, query))
  }

  /** A project is shown exactly when it is in the list and kept. */
  lemma FilteredMembership(projects: seq<Project>, tab: string, query: string, p: Project)
    ensures p in Filtered(projects, tab, query) <==> p in projects && Keep(p, tab, query)
  {
    FilterMembership(projects, p => Keep(p, tab, query), p);
  }

  /** The shown list is a subsequence of the project list: nothing added, order kept. */
  lemma FilteredIsSubsequence(projects: seq<Project>, tab: string, query: string)
    ensures SubsequenceOf(Filtered(projects, tab, query), projects)
  {
    FilterIsSubsequence(projects, p => Keep(p, tab, query));
  }

  /** Filtering keeps the list order: it distributes over concatenation. */
  lemma FilteredAppend(a: seq<Project>, b: seq<Project>, tab: string, query: string)
    ensures Filtered(a + b, tab, query) == Filtered(a, tab, query) + Filtered(b, tab, query)
  {
    FilterAppend(a, b, p => Keep(p, tab, query));
  }

  /** The "all" tab with a blank query shows the whole list. */
  lemma AllTabBlankQueryShowsAll(projects: seq<Project>, query: string)
    requires AllSpace(query)
    ensures Filtered(projects, AllTab, query) == projects
  {
    TrimEmptyIffBlank(query);
    FilterAllKept(projects, p => Keep(p, AllTab, query));
  }

  /** With a query that is not blank, a project is shown exactly when it is in the list and the
      tab, and its lower-cased haystack contains the trimmed, lower-cased query. */
  lemma QueryMatchIff(projects: seq<Project>, tab: string, query: string, p: Project)
    requires !AllSpace(query)
    ensures p in Filtered(projects, tab, query) <==>
      p in projects && InTab(p, tab) && Includes(Haystack(p), Lower(Trim(query)))
  {
    TrimEmptyIffBlank(query);
    FilteredMembership(projects, tab, query, p);
  }

  /** Any other tab shows only projects of that category. */
  lemma TabShowsOnlyItsCategory(projects: seq<Project>, tab: string, query: string)
    requires tab != AllTab
    ensures forall p :: p in Filtered(projects, tab, query) ==> p.category == tab
  {
    forall p | p in Filtered(projects, tab, query) ensures p.category == tab {
      FilteredMembership(projects, tab, query, p);
    }
  }

  /** Two queries with the same normalized form show the same list. */
  lemma FilteredSameQuery(projects: seq<Project>, tab: string, q1: string, q2: string)
    requires NormalizedQuery(q1) == NormalizedQuery(q2)
    ensures Filtered(projects, tab, q1) == Filtered(projects, tab, q2)
  {
    FilterSameKeep(projects, p => Keep(p, tab, q1), p => Keep(p, tab, q2));
  }

  /** The search ignores letter case in the query. */
  lemma CaseInsensitive(projects: seq<Project>, tab: string, query: string)
    ensures Filtered(projects, tab, Lower(query)) == Filtered(projects, tab, query)
  {
    TrimLower(query);
    LowerIdempotent(Trim(query));
    assert NormalizedQuery(Lower(query)) == NormalizedQuery(query);
    FilteredSameQuery(projects, tab, Lower(query), query);
  }

  /** The search ignores whitespace around the query. */
  lemma TrimInsensitive(projects: seq<Project>, tab: string, query: string)
    ensures Filtered(projects, tab, Trim(query)) == Filtered(projects, tab, query)
  {
    TrimIdempotent(query);
    assert NormalizedQuery(Trim(query)) == NormalizedQuery(query);
    FilteredSameQuery(projects, tab, Trim(query), query);
  }

  /** Filtering twice with the same tab and query changes nothing. */
  lemma FilteredIdempotent(projects: seq<Project>, tab: string, query: string)
    ensures Filtered(Filtered(projects, tab, query), tab, query) == Filtered(projects, tab, query)
  {
    FilterIdempotent(projects, p => Keep(p, tab, query));
  }

  /** Text contained in a piece is contained in any string built around that piece. */
  lemma IncludesInfix(a: string, s: string, b: string, t: string)
    requires Includes(s, t)
    ensures Includes(a + s + b, t)
  {
    var i :| 0 <= i <= |s| && t <= s[i..];
    assert (a + s + b)[|a| + i..] == s[i..] + b;
  }

  /** Each element of a joined list is contained in the joined string. */
  lemma {:induction false} JoinIncludes(xs: seq<string>, sep: string, k: nat)
    requires k < |xs|
    ensures exists a, b :: Join(xs, sep) == a + xs[k] + b
  {
    if |xs| == 1 {
      assert Join(xs, sep) == "" + xs[k] + "";
    } else if k == 0 {
      assert Join(xs, sep) == "" + xs[0] + (sep + Join(xs[1..], sep));
    } else {
      JoinIncludes(xs[1..], sep, k - 1);
      var a, b :| Join(xs[1..], sep) == a + xs[1..][k - 1] + b;
      assert Join(xs, sep) == (xs[0] + sep + a) + xs[k] + b;
    }
  }

  /** A haystack contains whatever a piece of its raw text contains once lower-cased. */
  lemma HaystackPiece(p: Project, a: string, piece: string, b: string, q: string)
    requires p.title + " " + p.description + " " + Join(p.tech, " ") == a + piece + b
    requires Includes(Lower(piece), q)
    ensures Includes(Haystack(p), q)
  {
    LowerAppend(a, piece);
    LowerAppend(a + piece, b);
    IncludesInfix(Lower(a), Lower(piece), Lower(b), q);
  }

  /** A project of the tab whose haystack contains the normalized query is shown. */
  lemma HaystackHitIsShown(projects: seq<Project>, tab: string, query: string, p: Project)
    requires p in projects && InTab(p, tab)
    requires Includes(Haystack(p), NormalizedQuery(query))
    ensures p in Filtered(projects, tab, query)
  {
    assert Keep(p, tab, query);
    FilteredMembership(projects, tab, query, p);
  }

  /** The raw haystack is the title followed by the rest of the text. */
  lemma TitleFront(title: string, description: string, tech: string)
    ensures title + " " + description + " " + tech == "" + title + (" " + description + " " + tech)
  {
  }

  /** A project of the tab whose title contains the normalized query is shown. */
  lemma TitleHitIsShown(projects: seq<Project>, tab: string, query: string, p: Project)
    requires p in projects && InTab(p, tab)
    requires Includes(Lower(p.title), NormalizedQuery(query))
    ensures p in Filtered(projects, tab, query)
  {
    var rest := " " + p.description + " " + Join(p.tech, " ");
    TitleFront(p.title, p.description, Join(p.tech, " "));
    HaystackPiece(p, "", p.title, rest, NormalizedQuery(query));
    HaystackHitIsShown(projects, tab, query, p);
  }

  /** Text placed in the middle of the last piece is in the middle of the whole. */
  lemma Regroup(x: string, j: string, a: string, t: string, b: string)
    requires j == a + t + b
    ensures x + j == (x + a) + t + b
  {
  }

  /** A project of the tab one of whose technologies contains the normalized query is shown. */
  lemma TechHitIsShown(projects: seq<Project>, tab: string, query: string, p: Project, k: nat)
    requires p in projects && InTab(p, tab) && k < |p.tech|
    requires Includes(Lower(p.tech[k]), NormalizedQuery(query))
    ensures p in Filtered(projects, tab, query)
  {
    var joined := Join(p.tech, " ");
    JoinIncludes(p.tech, " ", k);
    var a, b :| joined == a + p.tech[k] + b;
    var front := p.title + " " + p.description + " ";
    Regroup(front, joined, a, p.tech[k], b);
    HaystackPiece(p, front + a, p.tech[k], b, NormalizedQuery(query));
    HaystackHitIsShown(projects, tab, query, p);
  }
}
