/**
  Helpers for editing the portfolio's data: record templates whose overrides beat the
  defaults, quick-add constructors, the two validators and the slug function.

  The generated id (`generateId`, built from the clock and a random number) and the
  current month (the default `startDate`) are parameters.
*/
module Portfolio {
  import opened Wrappers
  import opened Text

  // ---------------------------------------------------------------------------
  // Slugs: lower-case, then every run of characters outside [a-z0-9] becomes one
  // hyphen, then hyphens at either end are removed.
  // ---------------------------------------------------------------------------

  /** The class `[a-z0-9]`. */
  predicate IsSlugChar(c: char) {
    'a' <= c <= 'z' || '0' <= c <= '9'
  }

  /** Only `[a-z0-9-]`, and never two hyphens in a row. */
  predicate Collapsed(s: string) {
    (forall i :: 0 <= i < |s| ==> IsSlugChar(s[i]) || s[i] == '-')
    && (forall i :: 0 <= i < |s| - 1 && s[i] == '-' ==> s[i + 1] != '-')
  }

  /** What `createSlug` promises of its result: collapsed, and no hyphen at either end. */
  predicate IsSlug(s: string) {
    Collapsed(s) && (s != [] ==> s[0] != '-' && s[|s| - 1] != '-')
  }

  /** The letters and digits of `s`, in order. */
  function SlugChars(s: string): string {
    if s == [] then []
    else if IsSlugChar(s[0]) then [s[0]] + SlugChars(s[1..])
    else SlugChars(s[1..])
  }

  lemma {:induction false} SlugCharsAppend(a: string, b: string)
    ensures SlugChars(a + b) == SlugChars(a) + SlugChars(b)
  {
    if a == [] {
      assert a + b == b;
    } else {
      assert (a + b)[0] == a[0];
      assert (a + b)[1..] == a[1..] + b;
      SlugCharsAppend(a[1..], b);
    }
  }

  /** Drops the run of characters outside `[a-z0-9]` at the front of `s`. */
  function SkipRun(s: string): (r: string)
    ensures |r| <= |s| && r == s[|s| - |r|..]
    ensures r == [] || IsSlugChar(r[0])
  {
    if s != [] && !IsSlugChar(s[0]) then SkipRun(s[1..]) else s
  }

  /** Skipping a run keeps every letter and digit. */
  lemma {:induction false} SkipRunKeepsSlugChars(s: string)
    ensures SlugChars(SkipRun(s)) == SlugChars(s)
  {
    if s != [] && !IsSlugChar(s[0]) {
      SkipRunKeepsSlugChars(s[1..]);
    }
  }

  /** `s.replace(/[^a-z0-9]+/g, '-')`. */
  function CollapseRuns(s: string): string
    decreases |s|
  {
    if s == [] then []
    else if IsSlugChar(s[0]) then [s[0]] + CollapseRuns(s[1..])
    else ['-'] + CollapseRuns(SkipRun(s[1..]))
  }

  /** Replacing runs by `-` leaves only `[a-z0-9-]` with no `--`, keeps every letter and digit
      in order, and keeps a leading letter or digit in front. */
  lemma {:induction false} CollapseRunsShape(s: string)
    ensures Collapsed(CollapseRuns(s))
    ensures SlugChars(CollapseRuns(s)) == SlugChars(s)
    ensures s != [] && IsSlugChar(s[0]) ==> CollapseRuns(s) != [] && CollapseRuns(s)[0] == s[0]
    decreases |s|
  {
    if s != [] {
      if IsSlugChar(s[0]) {
        CollapseRunsShape(s[1..]);
        CollapsedCons(s[0], CollapseRuns(s[1..]));
        assert SlugChars(s) == [s[0]] + SlugChars(s[1..]);
      } else {
        var u := SkipRun(s[1..]);
        SkipRunKeepsSlugChars(s[1..]);
        CollapseRunsShape(u);
        CollapsedCons('-', CollapseRuns(u));
        assert SlugChars(s) == SlugChars(s[1..]);
      }
    }
  }

  /** Putting a letter, a digit, or a hyphen not followed by another in front of a collapsed
      string keeps it collapsed, and adds the character's own letters and digits in front. */
  lemma CollapsedCons(c: char, t: string)
    requires Collapsed(t) && (IsSlugChar(c) || c == '-')
    requires c == '-' ==> t == [] || t[0] != '-'
    ensures Collapsed([c] + t)
    ensures SlugChars([c] + t) == (if IsSlugChar(c) then [c] else []) + SlugChars(t)
  {
    var r := [c] + t;
    assert r[1..] == t;
    forall i | 0 <= i < |r| - 1 && r[i] == '-' ensures r[i + 1] != '-' {
      if i > 0 {
        assert r[i] == t[i - 1] && r[i + 1] == t[i];
      }
    }
  }

  /** Removes the hyphens at the front of `s`. */
  function DropLeadingHyphens(s: string): (r: string)
    ensures |r| <= |s| && r == s[|s| - |r|..]
    ensures r == [] || r[0] != '-'
    ensures forall i :: 0 <= i < |s| - |r| ==> s[i] == '-'
  {
    if s != [] && s[0] == '-' then DropLeadingHyphens(s[1..]) else s
  }

  /** Removes the hyphens at the end of `s`. */
  function DropTrailingHyphens(s: string): (r: string)
    ensures |r| <= |s| && r == s[..|r|]
    ensures r == [] || r[|r| - 1] != '-'
    ensures forall i :: |r| <= i < |s| ==> s[i] == '-'
  {
    if s != [] && s[|s| - 1] == '-' then DropTrailingHyphens(s[..|s| - 1]) else s
  }

  /** `s.replace(/^-+|-+$/g, '')`. */
  function StripHyphens(s: string): string {
    DropTrailingHyphens(DropLeadingHyphens(s))
  }

  /** `createSlug(title)`. */
  function CreateSlug(title: string): string {
    StripHyphens(CollapseRuns(Lower(title)))
  }

  /** Removing hyphens at the front keeps the letters and digits. */
  lemma {:induction false} DropLeadingKeepsSlugChars(s: string)
    ensures SlugChars(DropLeadingHyphens(s)) == SlugChars(s)
  {
    if s != [] && s[0] == '-' {
      DropLeadingKeepsSlugChars(s[1..]);
    }
  }

  /** Removing hyphens at the end keeps the letters and digits. */
  lemma {:induction false} DropTrailingKeepsSlugChars(s: string)
    ensures SlugChars(DropTrailingHyphens(s)) == SlugChars(s)
  {
    if s != [] && s[|s| - 1] == '-' {
      var init := s[..|s| - 1];
      assert s == init + ['-'];
      SlugCharsAppend(init, ['-']);
      DropTrailingKeepsSlugChars(init);
    }
  }

  /** A slice of a collapsed string is collapsed. */
  lemma CollapsedSlice(s: string, lo: nat, hi: nat)
    requires Collapsed(s) && lo <= hi <= |s|
    ensures Collapsed(s[lo..hi])
  {
    assert forall i :: 0 <= i < hi - lo ==> s[lo..hi][i] == s[lo + i];
  }

  /** Stripping the hyphens at both ends of a collapsed string leaves a slug. */
  lemma StripHyphensIsSlug(c: string)
    requires Collapsed(c)
    ensures IsSlug(StripHyphens(c))
  {
    var t := DropLeadingHyphens(c);
    var u := DropTrailingHyphens(t);
    CollapsedSlice(c, |c| - |t|, |c|);
    CollapsedSlice(t, 0, |u|);
    assert u != [] ==> u[0] == t[0];
  }

  /** Stripping hyphens keeps the letters and digits. */
  lemma StripHyphensKeepsSlugChars(c: string)
    ensures SlugChars(StripHyphens(c)) == SlugChars(c)
  {
    DropLeadingKeepsSlugChars(c);
    DropTrailingKeepsSlugChars(DropLeadingHyphens(c));
  }

  /** The result of `createSlug` contains only `[a-z0-9-]`, never two hyphens in a row, and
      no hyphen at either end; and it keeps every letter and digit of the lower-cased title,
      in order. */
  lemma CreateSlugIsSlug(title: string)
    ensures IsSlug(CreateSlug(title))
    ensures SlugChars(CreateSlug(title)) == SlugChars(Lower(title))
  {
    var c := CollapseRuns(Lower(title));
    CollapseRunsShape(Lower(title));
    StripHyphensIsSlug(c);
    StripHyphensKeepsSlugChars(c);
  }

  /** A collapsed string is left as it is by the run replacement. */
  lemma {:induction false} CollapseRunsFixesCollapsed(s: string)
    requires Collapsed(s)
    ensures CollapseRuns(s) == s
    decreases |s|
  {
    if s != [] {
      CollapsedSlice(s, 1, |s|);
      if IsSlugChar(s[0]) {
        CollapseRunsFixesCollapsed(s[1..]);
      } else {
        assert SkipRun(s[1..]) == s[1..];
        CollapseRunsFixesCollapsed(s[1..]);
      }
    }
  }

  /** `createSlug` leaves a slug unchanged. */
  lemma CreateSlugFixesSlug(s: string)
    requires IsSlug(s)
    ensures CreateSlug(s) == s
  {
    assert forall i :: 0 <= i < |s| ==> LowerChar(s[i]) == s[i];
    assert Lower(s) == s;
    CollapseRunsFixesCollapsed(s);
    assert DropLeadingHyphens(s) == s;
    assert DropTrailingHyphens(s) == s;
  }

  /** `createSlug` is idempotent. */
  lemma CreateSlugIdempotent(title: string)
    ensures CreateSlug(CreateSlug(title)) == CreateSlug(title)
  {
    CreateSlugIsSlug(title);
    CreateSlugFixesSlug(CreateSlug(title));
  }

  /** The slug is empty exactly when the lower-cased title has no letter or digit. */
  lemma CreateSlugEmpty(title: string)
    ensures CreateSlug(title) == [] <==> SlugChars(Lower(title)) == []
  {
    CreateSlugIsSlug(title);
    var s := CreateSlug(title);
    if s != [] {
      assert IsSlugChar(s[0]);
      assert SlugChars(s) == [s[0]] + SlugChars(s[1..]);
    }
  }

  /** Every character is a letter or digit: a word of the slug alphabet. */
  predicate AllSlugChars(w: string) {
    forall i :: 0 <= i < |w| ==> IsSlugChar(w[i])
  }

  /** No character is a letter or digit: what `[^a-z0-9]+` matches, when non-empty. */
  predicate NoSlugChars(r: string) {
    forall i :: 0 <= i < |r| ==> !IsSlugChar(r[i])
  }

  /** Skipping a run stops exactly where the next letter or digit starts. */
  lemma {:induction false} SkipRunPast(r: string, s: string)
    requires NoSlugChars(r) && (s == [] || IsSlugChar(s[0]))
    ensures SkipRun(r + s) == s
  {
    if r == [] {
      assert r + s == s;
    } else {
      assert (r + s)[0] == r[0];
      assert (r + s)[1..] == r[1..] + s;
      SkipRunPast(r[1..], s);
    }
  }

  /** A letter or digit is copied as it is. */
  lemma CollapseRunsCons(c: char, s: string)
    requires IsSlugChar(c)
    ensures CollapseRuns([c] + s) == [c] + CollapseRuns(s)
  {
    assert ([c] + s)[1..] == s;
  }

  /** A word of letters and digits is copied as it is. */
  lemma {:induction false} CollapseRunsWord(w: string, s: string)
    requires AllSlugChars(w)
    ensures CollapseRuns(w + s) == w + CollapseRuns(s)
  {
    if w == [] {
      assert w + s == s;
    } else {
      var c, rest := w[0], w[1..];
      assert w == [c] + rest;
      assert w + s == [c] + (rest + s);
      assert AllSlugChars(rest) by {
        forall i | 0 <= i < |rest| ensures IsSlugChar(rest[i]) { assert rest[i] == w[i + 1]; }
      }
      CollapseRunsCons(c, rest + s);
      CollapseRunsWord(rest, s);
    }
  }

  /** A whole run of characters outside `[a-z0-9]` becomes one `-`. */
  lemma CollapseRunsRun(r: string, s: string)
    requires r != [] && NoSlugChars(r) && (s == [] || IsSlugChar(s[0]))
    ensures CollapseRuns(r + s) == "-" + CollapseRuns(s)
  {
    assert (r + s)[0] == r[0];
    assert (r + s)[1..] == r[1..] + s;
    SkipRunPast(r[1..], s);
  }

  /** Removing hyphens at the front does not reach past a string that ends in something else. */
  lemma {:induction false} DropLeadingAppend(x: string, y: string)
    requires x != [] && x[|x| - 1] != '-'
    ensures DropLeadingHyphens(x + y) == DropLeadingHyphens(x) + y
  {
    assert (x + y)[0] == x[0];
    if x[0] == '-' {
      assert (x + y)[1..] == x[1..] + y;
      DropLeadingAppend(x[1..], y);
    }
  }

  /** Removing hyphens at the end does not reach past a string that starts with something else. */
  lemma {:induction false} DropTrailingPrepend(x: string, y: string)
    requires y != [] && y[0] != '-'
    ensures DropTrailingHyphens(x + y) == x + DropTrailingHyphens(y)
    decreases |y|
  {
    var xy := x + y;
    assert xy[|xy| - 1] == y[|y| - 1];
    if y[|y| - 1] == '-' {
      assert xy[..|xy| - 1] == x + y[..|y| - 1];
      DropTrailingPrepend(x, y[..|y| - 1]);
    }
  }

  /** A word, a run and text starting with a letter or digit collapse to the word, one hyphen,
      and the collapsed text. */
  lemma CollapseRunsWordRun(w: string, r: string, t: string)
    requires AllSlugChars(w)
    requires r != [] && NoSlugChars(r)
    requires t == [] || IsSlugChar(t[0])
    ensures CollapseRuns(w + r + t) == w + "-" + CollapseRuns(t)
  {
    var rt := r + t;
    assert w + r + t == w + rt;
    CollapseRunsWord(w, rt);
    CollapseRunsRun(r, t);
    var ct := CollapseRuns(t);
    assert w + ("-" + ct) == w + "-" + ct;
  }

  /** A slug is built word by word: when the lower-cased title starts with a word `w` of
      letters and digits, followed by a run `r` without any and then more text `t` that starts
      with a letter or digit, the slug is `w`, one hyphen, and the slug of `t`. */
  lemma CreateSlugSplice(w: string, r: string, t: string)
    requires Lower(w) != [] && AllSlugChars(Lower(w))
    requires r != [] && NoSlugChars(Lower(r))
    requires Lower(t) != [] && IsSlugChar(Lower(t)[0])
    ensures CreateSlug(w + r + t) == Lower(w) + "-" + CreateSlug(t)
  {
    var lw, lr, lt := Lower(w), Lower(r), Lower(t);
    LowerAppend3(w, r, t);
    CollapseRunsWordRun(lw, lr, lt);
    var ct := CollapseRuns(lt);
    CollapseRunsShape(lt);
    StripSplice(lw, ct);
    WordIsStripped(lw);
  }

  lemma LowerAppend3(a: string, b: string, c: string)
    ensures Lower(a + b + c) == Lower(a) + Lower(b) + Lower(c)
  {
    LowerAppend(a, b);
    LowerAppend(a + b, c);
  }

  /** A word of letters and digits has no hyphen to strip. */
  lemma WordIsStripped(w: string)
    requires w != [] && AllSlugChars(w)
    ensures StripHyphens(w) == w
  {
    assert DropLeadingHyphens(w) == w;
    assert DropTrailingHyphens(w) == w;
  }

  /** Removing hyphens at the front of a string that ends in something else leaves its last
      character in place. */
  lemma DropLeadingKeepsLast(x: string)
    requires x != [] && x[|x| - 1] != '-'
    ensures DropLeadingHyphens(x) != [] && DropTrailingHyphens(DropLeadingHyphens(x)) == DropLeadingHyphens(x)
  {
    var dx := DropLeadingHyphens(x);
    assert dx != [] && dx[|dx| - 1] == x[|x| - 1];
  }

  /** Stripping the outer hyphens of `x-y`, when `x` ends and `y` starts with something else,
      strips them from `x` and from `y`. */
  lemma StripSplice(x: string, y: string)
    requires x != [] && x[|x| - 1] != '-'
    requires y != [] && y[0] != '-'
    ensures StripHyphens(x + "-" + y) == StripHyphens(x) + "-" + StripHyphens(y)
  {
    var hy := "-" + y;
    assert x + "-" + y == x + hy;
    DropLeadingAppend(x, hy);
    var dx := DropLeadingHyphens(x);
    var dxh := dx + "-";
    assert dx + hy == dxh + y;
    DropTrailingPrepend(dxh, y);
    DropLeadingKeepsLast(x);
    var ty := DropTrailingHyphens(y);
    assert StripHyphens(y) == ty;
    assert dxh + ty == dx + "-" + ty;
  }

  // ---------------------------------------------------------------------------
  // Records
  // ---------------------------------------------------------------------------

  datatype Links = Links(github: Option<string>, demo: Option<string>, docs: Option<string>, website: Option<string>)

  /** The object literal `{}` used as links. */
  const NoLinks := Links(None, None, None, None)

  datatype Status = Active | Completed | Archived | InProgress

  datatype Project = Project(
    id: string,
    title: string,
    category: string,
    description: string,
    tech: seq<string>,
    links: Option<Links>,
    status: Option<Status>,
    featured: Option<bool>,
    startDate: Option<string>,
    endDate: Option<string>)

  datatype EmploymentType = FullTime | PartTime | Contract | Internship

  datatype Experience = Experience(
    id: string,
    company: string,
    title: string,
    start: string,
    end: string,
    bullets: seq<string>,
    tech: seq<string>,
    location: Option<string>,
    employment: Option<EmploymentType>,   // the property `type`
    companyUrl: Option<string>)

  /** A property of an object literal that is spread over another: absent, or present with a
      value that may be `undefined`. A present `undefined` still replaces what it is spread over. */
  datatype Slot<T> = Absent | Present(value: Option<T>)

  /** The value after spreading `s` over `base`. */
  function Over<T>(s: Slot<T>, base: Option<T>): Option<T> {
    match s
    case Absent => base
    case Present(v) => v
  }

  /** `Partial<Project>`: `None` for an absent required property, a `Slot` for an optional one. */
  datatype ProjectPatch = ProjectPatch(
    id: Option<string>,
    title: Option<string>,
    category: Option<string>,
    description: Option<string>,
    tech: Option<seq<string>>,
    links: Slot<Links>,
    status: Slot<Status>,
    featured: Slot<bool>,
    startDate: Slot<string>,
    endDate: Slot<string>)

  const NoProjectOverrides := ProjectPatch(None, None, None, None, None, Absent, Absent, Absent, Absent, Absent)

  /** A whole project seen as a `Partial<Project>`: every property present. */
  function ProjectAsPatch(p: Project): ProjectPatch {
    ProjectPatch(Some(p.id), Some(p.title), Some(p.category), Some(p.description), Some(p.tech),
      Present(p.links), Present(p.status), Present(p.featured), Present(p.startDate), Present(p.endDate))
  }

  /** `{...a, ...b}` for two partial projects: every property present in `b` wins. */
  function SpreadProject(a: ProjectPatch, b: ProjectPatch): ProjectPatch {
    ProjectPatch(
      if b.id.Some? then b.id else a.id,
      if b.title.Some? then b.title else a.title,
      if b.category.Some? then b.category else a.category,
      if b.description.Some? then b.description else a.description,
      if b.tech.Some? then b.tech else a.tech,
      if b.links.Present? then b.links else a.links,
      if b.status.Present? then b.status else a.status,
      if b.featured.Present? then b.featured else a.featured,
      if b.startDate.Present? then b.startDate else a.startDate,
      if b.endDate.Present? then b.endDate else a.endDate)
  }

  /** `Partial<Experience>`, in the same way as `ProjectPatch`. */
  datatype ExperiencePatch = ExperiencePatch(
    id: Option<string>,
    company: Option<string>,
    title: Option<string>,
    start: Option<string>,
    end: Option<string>,
    bullets: Option<seq<string>>,
    tech: Option<seq<string>>,
    location: Slot<string>,
    employment: Slot<EmploymentType>,
    companyUrl: Slot<string>)

  const NoExperienceOverrides := ExperiencePatch(None, None, None, None, None, None, None, Absent, Absent, Absent)

  function ExperienceAsPatch(e: Experience): ExperiencePatch {
    ExperiencePatch(Some(e.id), Some(e.company), Some(e.title), Some(e.start), Some(e.end),
      Some(e.bullets), Some(e.tech), Present(e.location), Present(e.employment), Present(e.companyUrl))
  }

  // ---------------------------------------------------------------------------
  // Templates and constructors
  // ---------------------------------------------------------------------------

  const DefaultCategory := "homelab"

  /** `createProjectTemplate(overrides)` with `newId` for `generateId()` and `month` for the
      current `YYYY-MM`: each property is the override when one is given, the default otherwise. */
  function CreateProjectTemplate(newId: string, month: string, overrides: ProjectPatch): (r: Project)
    ensures overrides == NoProjectOverrides ==>
      r == Project(newId, "", DefaultCategory, "", [], Some(NoLinks), Some(InProgress), Some(false), Some(month), None)
    // every property given in `overrides` wins, each one on its own
    ensures overrides.id.Some? ==> r.id == overrides.id.value
    ensures overrides.title.Some? ==> r.title == overrides.title.value
    ensures overrides.category.Some? ==> r.category == overrides.category.value
    ensures overrides.description.Some? ==> r.description == overrides.description.value
    ensures overrides.tech.Some? ==> r.tech == overrides.tech.value
    ensures overrides.links.Present? ==> r.links == overrides.links.value
    ensures overrides.status.Present? ==> r.status == overrides.status.value
    ensures overrides.featured.Present? ==> r.featured == overrides.featured.value
    ensures overrides.startDate.Present? ==> r.startDate == overrides.startDate.value
    ensures overrides.endDate.Present? ==> r.endDate == overrides.endDate.value
    // every property left out keeps its default, whatever else is given
    ensures overrides.id.None? ==> r.id == newId
    ensures overrides.title.None? ==> r.title == ""
    ensures overrides.category.None? ==> r.category == DefaultCategory
    ensures overrides.description.None? ==> r.description == ""
    ensures overrides.tech.None? ==> r.tech == []
    ensures overrides.links.Absent? ==> r.links == Some(NoLinks)
    ensures overrides.status.Absent? ==> r.status == Some(InProgress)
    ensures overrides.featured.Absent? ==> r.featured == Some(false)
    ensures overrides.startDate.Absent? ==> r.startDate == Some(month)
    ensures overrides.endDate.Absent? ==> r.endDate == None
  {
    var o := overrides;
    Project(
      o.id.GetOr(newId),
      o.title.GetOr(""),
      o.category.GetOr(DefaultCategory),
      o.description.GetOr(""),
      o.tech.GetOr([]),
      Over(o.links, Some(NoLinks)),
      Over(o.status, Some(InProgress)),
      Over(o.featured, Some(false)),
      Over(o.startDate, Some(month)),
      Over(o.endDate, None))
  }

  /** The defaults of `createProjectTemplate`, as a whole project. */
  function ProjectDefaults(newId: string, month: string): Project {
    Project(newId, "", DefaultCategory, "", [], Some(NoLinks), Some(InProgress), Some(false), Some(month), None)
  }

  /** The template is the overrides spread over the defaults: `{...defaults, ...overrides}`. */
  lemma ProjectTemplateIsSpread(newId: string, month: string, overrides: ProjectPatch)
    ensures CreateProjectTemplate(newId, month, overrides)
      == CreateProjectTemplate(newId, month, SpreadProject(ProjectAsPatch(ProjectDefaults(newId, month)), overrides))
  {
  }

  /** The `homelab` example template (`{category, tech, status}` given): those three
      properties as given, every other one the default. */
  lemma HomelabExampleTemplate(newId: string, month: string)
    ensures CreateProjectTemplate(newId, month, NoProjectOverrides.(category := Some("homelab"),
        tech := Some(["Docker", "Linux"]), status := Present(Some(Active))))
      == ProjectDefaults(newId, month).(tech := ["Docker", "Linux"], status := Some(Active))
  {
  }

  /** Overrides beat the defaults: a template built from a whole project is that project,
      whatever id and month are supplied. */
  lemma TemplateOfWholeProject(newId: string, month: string, p: Project)
    ensures CreateProjectTemplate(newId, month, ProjectAsPatch(p)) == p
  {
  }

  /** `createExperienceTemplate(overrides)` with `newId` for `generateId()`. */
  function CreateExperienceTemplate(newId: string, overrides: ExperiencePatch): (r: Experience)
    ensures overrides == NoExperienceOverrides ==>
      r == Experience(newId, "", "", "", "Present", [], [], None, Some(FullTime), None)
    // every property given in `overrides` wins, each one on its own
    ensures overrides.id.Some? ==> r.id == overrides.id.value
    ensures overrides.company.Some? ==> r.company == overrides.company.value
    ensures overrides.title.Some? ==> r.title == overrides.title.value
    ensures overrides.start.Some? ==> r.start == overrides.start.value
    ensures overrides.end.Some? ==> r.end == overrides.end.value
    ensures overrides.bullets.Some? ==> r.bullets == overrides.bullets.value
    ensures overrides.tech.Some? ==> r.tech == overrides.tech.value
    ensures overrides.location.Present? ==> r.location == overrides.location.value
    ensures overrides.employment.Present? ==> r.employment == overrides.employment.value
    ensures overrides.companyUrl.Present? ==> r.companyUrl == overrides.companyUrl.value
    // every property left out keeps its default, whatever else is given
    ensures overrides.id.None? ==> r.id == newId
    ensures overrides.company.None? ==> r.company == ""
    ensures overrides.title.None? ==> r.title == ""
    ensures overrides.start.None? ==> r.start == ""
    ensures overrides.end.None? ==> r.end == "Present"
    ensures overrides.bullets.None? ==> r.bullets == []
    ensures overrides.tech.None? ==> r.tech == []
    ensures overrides.location.Absent? ==> r.location == None
    ensures overrides.employment.Absent? ==> r.employment == Some(FullTime)
    ensures overrides.companyUrl.Absent? ==> r.companyUrl == None
  {
    var o := overrides;
    Experience(
      o.id.GetOr(newId),
      o.company.GetOr(""),
      o.title.GetOr(""),
      o.start.GetOr(""),
      o.end.GetOr("Present"),
      o.bullets.GetOr([]),
      o.tech.GetOr([]),
      Over(o.location, None),
      Over(o.employment, Some(FullTime)),
      Over(o.companyUrl, None))
  }

  /** Overrides beat the defaults: a template built from a whole experience is that experience. */
  lemma ExperienceTemplateOfWhole(newId: string, e: Experience)
    ensures CreateExperienceTemplate(newId, ExperienceAsPatch(e)) == e
  {
  }

  /** `createProjectWithGitHub(...)`: the given title, description, technologies, category and
      a GitHub link, then `overrides` spread over them, as template overrides. */
  function CreateProjectWithGitHub(newId: string, month: string, title: string, description: string,
                                   githubUrl: string, tech: seq<string>, category: string,
                                   overrides: ProjectPatch): (r: Project)
    ensures overrides == NoProjectOverrides ==>
      r == Project(newId, title, category, description, tech,
                   Some(NoLinks.(github := Some(githubUrl))), Some(InProgress), Some(false), Some(month), None)
    // `overrides` beat the given arguments, which beat the template's defaults
    ensures r.title == overrides.title.GetOr(title)
    ensures r.description == overrides.description.GetOr(description)
    ensures r.tech == overrides.tech.GetOr(tech)
    ensures r.category == overrides.category.GetOr(category)
    ensures r.links == Over(overrides.links, Some(NoLinks.(github := Some(githubUrl))))
    ensures r.id == overrides.id.GetOr(newId)
    ensures r.status == Over(overrides.status, Some(InProgress))
    ensures r.featured == Over(overrides.featured, Some(false))
    ensures r.startDate == Over(overrides.startDate, Some(month))
    ensures r.endDate == Over(overrides.endDate, None)
  {
    var given := NoProjectOverrides.(title := Some(title), description := Some(description), tech := Some(tech),
      category := Some(category), links := Present(Some(NoLinks.(github := Some(githubUrl)))));
    CreateProjectTemplate(newId, month, SpreadProject(given, overrides))
  }

  /** `addGitHubLink(project, url)`: the project with `links.github` set to `url`; a missing
      `links` counts as `{}`. */
  function AddGitHubLink(project: Project, githubUrl: string): (r: Project)
    ensures r.links.Some? && r.links.value.github == Some(githubUrl)
    ensures var before := project.links.GetOr(NoLinks);
      r.links.value.demo == before.demo && r.links.value.docs == before.docs && r.links.value.website == before.website
    ensures r.(links := project.links) == project
  {
    project.(links := Some(project.links.GetOr(NoLinks).(github := Some(githubUrl))))
  }

  /** Setting the GitHub link twice keeps only the second. */
  lemma AddGitHubLinkLastWins(project: Project, first: string, second: string)
    ensures AddGitHubLink(AddGitHubLink(project, first), second) == AddGitHubLink(project, second)
  {
  }

  /** `addHomelabProject(...)`: a homelab project, active, whose id is the slug of its title
      and whose only link is the GitHub one. */
  function AddHomelabProject(newId: string, month: string, title: string, description: string,
                             githubUrl: string, tech: seq<string>): (r: Project)
    ensures r.id == CreateSlug(title) && r.status == Some(Active) && r.category == "homelab"
    ensures r.links == Some(Links(Some(githubUrl), None, None, None))
    ensures r.title == title && r.description == description && r.tech == tech
    ensures r.featured == Some(false) && r.startDate == Some(month) && r.endDate == None
  {
    CreateProjectWithGitHub(newId, month, title, description, githubUrl, tech, "homelab",
      NoProjectOverrides.(id := Some(CreateSlug(title)), status := Present(Some(Active))))
  }

  /** `addWorkProject(...)`: a featured, completed work project whose id is the slug of its
      title. The dates are passed through even when `undefined`, so an omitted start date
      replaces the current-month default. */
  function AddWorkProject(newId: string, month: string, title: string, description: string, tech: seq<string>,
                          startDate: Option<string>, endDate: Option<string>): (r: Project)
    ensures r.id == CreateSlug(title) && r.category == "work" && r.status == Some(Completed)
    ensures r.featured == Some(true) && r.links == Some(NoLinks)
    ensures r.title == title && r.description == description && r.tech == tech
    ensures r.startDate == startDate && r.endDate == endDate
  {
    CreateProjectTemplate(newId, month, ProjectPatch(
      Some(CreateSlug(title)), Some(title), Some("work"), Some(description), Some(tech),
      Absent, Present(Some(Completed)), Present(Some(true)), Present(startDate), Present(endDate)))
  }

  // ---------------------------------------------------------------------------
  // Validation
  // ---------------------------------------------------------------------------

  /** The messages the validators push, one constructor per distinct text. */
  datatype ValidationError =
    | ProjectIdRequired | ProjectTitleRequired | ProjectCategoryRequired | ProjectDescriptionRequired
    | TechRequired
    | ExperienceIdRequired | CompanyRequired | JobTitleRequired | StartRequired | EndRequired | BulletRequired

  /** The text of each message. */
  function Message(e: ValidationError): string {
    match e
    case ProjectIdRequired => "Project ID is required"
    case ProjectTitleRequired => "Project title is required"
    case ProjectCategoryRequired => "Project category is required"
    case ProjectDescriptionRequired => "Project description is required"
    case TechRequired => "At least one technology is required"
    case ExperienceIdRequired => "Experience ID is required"
    case CompanyRequired => "Company name is required"
    case JobTitleRequired => "Job title is required"
    case StartRequired => "Start date is required"
    case EndRequired => "End date is required"
    case BulletRequired => "At least one bullet point is required"
  }

  /** One check of a validator: whether it passed, and the message it adds when it fails. */
  datatype Check = Check(passed: bool, error: ValidationError)

  /** What one check pushes: nothing when it passed, its message otherwise. */
  function Pushed(c: Check): seq<ValidationError> {
    if c.passed then [] else [c.error]
  }

  /** The messages of the failed checks, in the order of the checks: those of all checks but
      the last, then what the last one pushes. */
  function Failures(checks: seq<Check>): (errors: seq<ValidationError>)
    ensures |errors| <= |checks|
  {
    if checks == [] then [] else Failures(checks[..|checks| - 1]) + Pushed(checks[|checks| - 1])
  }

  /** No message exactly when every check passed. */
  lemma {:induction false} FailuresEmptyIffAllPassed(checks: seq<Check>)
    ensures Failures(checks) == [] <==> forall i :: 0 <= i < |checks| ==> checks[i].passed
  {
    if checks != [] {
      var init := checks[..|checks| - 1];
      FailuresEmptyIffAllPassed(init);
      assert forall i :: 0 <= i < |init| ==> checks[i] == init[i];
    }
  }

  /** Every message comes from a failed check. */
  lemma {:induction false} FailuresFromFailedChecks(checks: seq<Check>, e: ValidationError)
    requires e in Failures(checks)
    ensures exists i :: 0 <= i < |checks| && !checks[i].passed && checks[i].error == e
  {
    var init := checks[..|checks| - 1];
    if e in Failures(init) {
      FailuresFromFailedChecks(init, e);
      var i :| 0 <= i < |init| && !init[i].passed && init[i].error == e;
      assert checks[i] == init[i];
    }
  }

  /** The messages of a five-check table, check by check. */
  lemma Failures5(c: seq<Check>)
    requires |c| == 5
    ensures Failures(c) == Pushed(c[0]) + Pushed(c[1]) + Pushed(c[2]) + Pushed(c[3]) + Pushed(c[4])
  {
    assert c[..1][..0] == [];
    assert Failures(c[..1]) == Pushed(c[0]);
    assert c[..2][..1] == c[..1];
    assert Failures(c[..2]) == Pushed(c[0]) + Pushed(c[1]);
    assert c[..3][..2] == c[..2];
    assert Failures(c[..3]) == Pushed(c[0]) + Pushed(c[1]) + Pushed(c[2]);
    assert c[..4][..3] == c[..3];
    assert Failures(c[..4]) == Pushed(c[0]) + Pushed(c[1]) + Pushed(c[2]) + Pushed(c[3]);
    assert c[..5][..4] == c[..4];
    assert c[..5] == c;
  }

  /** The messages of a seven-check table, check by check. */
  lemma Failures7(c: seq<Check>)
    requires |c| == 7
    ensures Failures(c) == Pushed(c[0]) + Pushed(c[1]) + Pushed(c[2]) + Pushed(c[3]) + Pushed(c[4])
      + Pushed(c[5]) + Pushed(c[6])
  {
    Failures5(c[..5]);
    assert c[..6][..5] == c[..5];
    assert c[..7][..6] == c[..6];
    assert c[..7] == c;
  }

  /** A list property is truthy and not of length 0. */
  predicate NonEmptyList(v: Option<seq<string>>) {
    v.Some? && |v.value| > 0
  }

  /** The checks of `validateProject`, in the order it makes them. */
  function ProjectChecks(p: ProjectPatch): seq<Check> {
    [ Check(Truthy(p.id), ProjectIdRequired),
      Check(Truthy(p.title), ProjectTitleRequired),
      Check(Truthy(p.category), ProjectCategoryRequired),
      Check(Truthy(p.description), ProjectDescriptionRequired),
      Check(NonEmptyList(p.tech), TechRequired) ]
  }

  /** A project passes validation when its id, title, category and description are non-empty
      and it lists at least one technology. */
  predicate ProjectComplete(p: ProjectPatch) {
    Truthy(p.id) && Truthy(p.title) && Truthy(p.category) && Truthy(p.description) && NonEmptyList(p.tech)
  }

  /** `validateProject(project)`: one message per failed check, pushed in check order
      (`Message` gives each message's text). */
  method ValidateProject(project: ProjectPatch) returns (errors: seq<ValidationError>)
    ensures errors == Failures(ProjectChecks(project))
  {
    ghost var c := ProjectChecks(project);
    errors := [];
    if !Truthy(project.id) { errors := errors + [ProjectIdRequired]; }
    assert errors == Pushed(c[0]);
    if !Truthy(project.title) { errors := errors + [ProjectTitleRequired]; }
    assert errors == Pushed(c[0]) + Pushed(c[1]);
    if !Truthy(project.category) { errors := errors + [ProjectCategoryRequired]; }
    assert errors == Pushed(c[0]) + Pushed(c[1]) + Pushed(c[2]);
    if !Truthy(project.description) { errors := errors + [ProjectDescriptionRequired]; }
    assert errors == Pushed(c[0]) + Pushed(c[1]) + Pushed(c[2]) + Pushed(c[3]);
    if !NonEmptyList(project.tech) { errors := errors + [TechRequired]; }
    Failures5(c);
  }

  /** The checks of `validateExperience`, in the order it makes them. */
  function ExperienceChecks(e: ExperiencePatch): seq<Check> {
    [ Check(Truthy(e.id), ExperienceIdRequired),
      Check(Truthy(e.company), CompanyRequired),
      Check(Truthy(e.title), JobTitleRequired),
      Check(Truthy(e.start), StartRequired),
      Check(Truthy(e.end), EndRequired),
      Check(NonEmptyList(e.bullets), BulletRequired),
      Check(NonEmptyList(e.tech), TechRequired) ]
  }

  /** An experience passes validation when its id, company, title, start and end are non-empty
      and it has at least one bullet point and one technology. */
  predicate ExperienceComplete(e: ExperiencePatch) {
    Truthy(e.id) && Truthy(e.company) && Truthy(e.title) && Truthy(e.start) && Truthy(e.end)
    && NonEmptyList(e.bullets) && NonEmptyList(e.tech)
  }

  /** `validateExperience(experience)`: one message per failed check, pushed in check order
      (`Message` gives each message's text). */
  method ValidateExperience(experience: ExperiencePatch) returns (errors: seq<ValidationError>)
    ensures errors == Failures(ExperienceChecks(experience))
  {
    ghost var c := ExperienceChecks(experience);
    errors := [];
    if !Truthy(experience.id) { errors := errors + [ExperienceIdRequired]; }
    assert errors == Pushed(c[0]);
    if !Truthy(experience.company) { errors := errors + [CompanyRequired]; }
    assert errors == Pushed(c[0]) + Pushed(c[1]);
    if !Truthy(experience.title) { errors := errors + [JobTitleRequired]; }
    assert errors == Pushed(c[0]) + Pushed(c[1]) + Pushed(c[2]);
    if !Truthy(experience.start) { errors := errors + [StartRequired]; }
    assert errors == Pushed(c[0]) + Pushed(c[1]) + Pushed(c[2]) + Pushed(c[3]);
    if !Truthy(experience.end) { errors := errors + [EndRequired]; }
    assert errors == Pushed(c[0]) + Pushed(c[1]) + Pushed(c[2]) + Pushed(c[3]) + Pushed(c[4]);
    if !NonEmptyList(experience.bullets) { errors := errors + [BulletRequired]; }
    assert errors == Pushed(c[0]) + Pushed(c[1]) + Pushed(c[2]) + Pushed(c[3]) + Pushed(c[4]) + Pushed(c[5]);
    if !NonEmptyList(experience.tech) { errors := errors + [TechRequired]; }
    Failures7(c);
  }

  /** `validateProject` finds no error exactly when the project is complete, and at most one
      error per check. */
  lemma ProjectErrorsEmptyIffComplete(p: ProjectPatch)
    ensures Failures(ProjectChecks(p)) == [] <==> ProjectComplete(p)
    ensures |Failures(ProjectChecks(p))| <= 5
  {
    var c := ProjectChecks(p);
    FailuresEmptyIffAllPassed(c);
    if ProjectComplete(p) {
      forall i | 0 <= i < |c| ensures c[i].passed {
        if i == 0 {} else if i == 1 {} else if i == 2 {} else if i == 3 {} else {}
      }
    } else {
      assert !c[0].passed || !c[1].passed || !c[2].passed || !c[3].passed || !c[4].passed;
    }
  }

  /** `validateExperience` finds no error exactly when the experience is complete, and at most
      seven errors. */
  lemma ExperienceErrorsEmptyIffComplete(e: ExperiencePatch)
    ensures Failures(ExperienceChecks(e)) == [] <==> ExperienceComplete(e)
    ensures |Failures(ExperienceChecks(e))| <= 7
  {
    var c := ExperienceChecks(e);
    FailuresEmptyIffAllPassed(c);
    if ExperienceComplete(e) {
      forall i | 0 <= i < |c| ensures c[i].passed {
        if i == 0 {} else if i == 1 {} else if i == 2 {} else if i == 3 {}
        else if i == 4 {} else if i == 5 {} else {}
      }
    } else {
      assert !c[0].passed || !c[1].passed || !c[2].passed || !c[3].passed
        || !c[4].passed || !c[5].passed || !c[6].passed;
    }
  }

  /** A fresh project template with a non-empty generated id fails validation with exactly the
      title, description and technology messages, in that order. */
  lemma FreshTemplateErrors(newId: string, month: string)
    requires newId != ""
    ensures Failures(ProjectChecks(ProjectAsPatch(CreateProjectTemplate(newId, month, NoProjectOverrides))))
      == [ProjectTitleRequired, ProjectDescriptionRequired, TechRequired]
  {
    Failures5(ProjectChecks(ProjectAsPatch(CreateProjectTemplate(newId, month, NoProjectOverrides))));
  }

  /** A quick-added homelab project passes validation exactly when its title has a letter or
      digit (so that its slug id is non-empty), and its description and technologies are given. */
  lemma HomelabProjectValid(newId: string, month: string, title: string, description: string,
                            githubUrl: string, tech: seq<string>)
    ensures Failures(ProjectChecks(ProjectAsPatch(AddHomelabProject(newId, month, title, description, githubUrl, tech)))) == []
      <==> SlugChars(Lower(title)) != [] && description != "" && |tech| > 0
  {
    CreateSlugEmpty(title);
    ProjectErrorsEmptyIffComplete(ProjectAsPatch(AddHomelabProject(newId, month, title, description, githubUrl, tech)));
    if title == "" {
      assert Lower(title) == "";
    }
  }
}
