/**
 * The loaded content (projects, experience, education) and the pure rules the pages apply to it:
 * the project filter and its three orders, the experience filter, the summary counters, the tag
 * chips, the resume excerpt and the case-study lookup.
 */
module Content {
  import opened Options
  import opened Text
  import opened Seqs
  import opened Sorting

  /** A project as loaded from JSON; a missing text field is "", a missing list is []. */
  datatype Project = Project(
    id: string, title: string, summary: string, description: string,
    year: Option<int>, tags: seq<string>,
    image: string, gallery: seq<string>,
    demo: string, repo: string, caseStudy: string)

  datatype Experience = Experience(
    title: string, company: string, location: string, start: string, end: Option<string>,
    highlights: seq<string>, tags: seq<string>, years: Option<real>)

  datatype Education = Education(
    school: string, degree: string, location: string, start: string, end: Option<string>,
    summary: string, highlights: seq<string>, coursework: seq<string>, awards: seq<string>)

  // ---------------------------------------------------------------- the project filter

  /** `activeChip === 'All' || (p.tags || []).includes(activeChip)`. */
  predicate ChipMatches(chip: string, p: Project)
  {
    chip == "All" || chip in p.tags
  }

  /** `[p.title, p.summary, (p.tags || []).join(' ')].join(' ').toLowerCase()`. */
  function SearchText(p: Project): string
  {
    Lower(Join([p.title, p.summary, Join(p.tags, " ")], " "))
  }

  /** `!q || SearchText(p).includes(q)`. */
  predicate QueryMatches(q: string, p: Project)
  {
    q == "" || Includes(SearchText(p), q)
  }

  predicate Included(chip: string, q: string, p: Project)
  {
    ChipMatches(chip, p) && QueryMatches(q, p)
  }

  function Selector(chip: string, q: string): Project -> bool
  {
    (p: Project) => Included(chip, q, p)
  }

  /** `($('#proj-search').value || '').toLowerCase()`: a missing value is the empty query. */
  function ActiveQuery(value: Option<string>): string
  {
    Lower(value.GetOr(""))
  }

  /**
   * The search ignores case: a query that occurs, ignoring case, inside the title, the summary or
   * one tag finds the project, whichever letters either side capitalises.
   */
  lemma SearchFindsFields(p: Project, v: string)
    requires exists f :: (f == p.title || f == p.summary || f in p.tags) && Includes(Lower(f), Lower(v))
    ensures QueryMatches(ActiveQuery(Some(v)), p)
  {
    var f :| (f == p.title || f == p.summary || f in p.tags) && Includes(Lower(f), Lower(v));
    var tags := Join(p.tags, " ");
    var parts := [p.title, p.summary, tags];
    var whole := Join(parts, " ");
    if f == p.title {
      JoinContains(parts, " ", 0);
    } else if f == p.summary {
      JoinContains(parts, " ", 1);
    } else {
      var i :| 0 <= i < |p.tags| && p.tags[i] == f;
      JoinContains(p.tags, " ", i);
      JoinContains(parts, " ", 2);
      IncludesTransitive(f, tags, whole);
    }
    LowerIncludes(whole, f);
    IncludesTransitive(Lower(v), Lower(f), Lower(whole));
  }

  /** The `!q` guard only short-cuts: an empty query is included in every text anyway. */
  lemma EmptyGuardRedundant(q: string, p: Project)
    ensures QueryMatches(q, p) <==> Includes(SearchText(p), q)
  {
    if q == "" {
      EmptyIncluded(SearchText(p));
    }
  }

  /** A missing search value keeps every project that the chip keeps. */
  lemma MissingSearchKeepsChipMatches(chip: string, p: Project)
    ensures Included(chip, ActiveQuery(None), p) <==> ChipMatches(chip, p)
  {
    assert ActiveQuery(None) == "";
  }

  // ---------------------------------------------------------------- the three orders

  datatype Order = Alpha | Recent | Stars | Unsorted

  /** The `#proj-sort` value; any other value applies no sort. */
  function OrderOf(value: string): Order
  {
    if value == "alpha" then Alpha
    else if value == "recent" then Recent
    else if value == "stars" then Stars
    else Unsorted
  }

  /** `p.year || 0`. */
  function YearOr0(p: Project): int
  {
    p.year.GetOr(0)
  }

  /** `state.favorites.has(p.id)` as the number JavaScript subtracts. */
  function Starred(favs: set<string>, p: Project): int
  {
    if p.id in favs then 1 else 0
  }

  /** `a.title.localeCompare(b.title)`, modelled as code point order. */
  function TitleCompare(a: string, b: string): int
  {
    if a == b then 0 else if LexLe(a, b) then -1 else 1
  }

  /**
   * The comparators: a negative value puts `a` first. `Stars` is the corrected one: a missing
   * year counts as 0, as it does for `Recent`.
   */
  function Compare(order: Order, favs: set<string>, a: Project, b: Project): int
  {
    match order
    case Alpha => TitleCompare(a.title, b.title)
    case Recent => YearOr0(b) - YearOr0(a)
    case Stars =>
      if Starred(favs, b) - Starred(favs, a) != 0 then Starred(favs, b) - Starred(favs, a)
      else YearOr0(b) - YearOr0(a)
    case Unsorted => 0
  }

  /** Each comparator as a sort key. */
  function SortKey(order: Order, favs: set<string>): Project -> Key
  {
    match order
    case Alpha => (p: Project) => Key(0, 0, p.title)
    case Recent => (p: Project) => Key(-YearOr0(p), 0, "")
    case Stars => (p: Project) => Key(1 - Starred(favs, p), -YearOr0(p), "")
    case Unsorted => (p: Project) => Key(0, 0, "")
  }

  /** The key order is the comparator's: `a` may precede `b` exactly when `cmp(a, b) <= 0`. */
  lemma CompareAgreesWithKey(order: Order, favs: set<string>, a: Project, b: Project)
    ensures Compare(order, favs, a, b) <= 0 <==> KeyLe(SortKey(order, favs)(a), SortKey(order, favs)(b))
  {
    if order == Alpha {
      LexLeTotal(a.title, b.title);
      if LexLe(b.title, a.title) && LexLe(a.title, b.title) {
        LexLeAntisymmetric(a.title, b.title);
      }
    }
  }

  /** `state.projects.filter(...)` then `items.sort(...)` for the chosen order. */
  function Visible(projects: seq<Project>, chip: string, q: string, order: Order, favs: set<string>): seq<Project>
  {
    var items := Filter(projects, Selector(chip, q));
    if order == Unsorted then items else SortBy(items, SortKey(order, favs))
  }

  /** A project is shown iff it is loaded and passes the chip and the search; sorting drops or repeats nothing. */
  lemma VisibleMembers(projects: seq<Project>, chip: string, q: string, order: Order, favs: set<string>, p: Project)
    ensures p in Visible(projects, chip, q, order, favs) <==> p in projects && Included(chip, q, p)
    ensures multiset(Visible(projects, chip, q, order, favs)) == multiset(Filter(projects, Selector(chip, q)))
  {
    var items := Filter(projects, Selector(chip, q));
    FilterMembers(projects, Selector(chip, q), p);
    if order != Unsorted {
      SortByPermutes(items, SortKey(order, favs));
      assert p in items <==> p in multiset(items);
    }
  }

  /** Without a recognised order the filter's order is kept: a subsequence of the loaded list. */
  lemma UnsortedKeepsLoadOrder(projects: seq<Project>, chip: string, q: string, favs: set<string>)
    ensures Visible(projects, chip, q, Unsorted, favs) == Filter(projects, Selector(chip, q))
    ensures IsSubseq(Visible(projects, chip, q, Unsorted, favs), projects)
  {
    FilterIsSubseq(projects, Selector(chip, q));
  }

  /** With every order, each shown project compares at or before every later one. */
  lemma VisibleOrdered(projects: seq<Project>, chip: string, q: string, order: Order, favs: set<string>)
    requires order != Unsorted
    ensures forall i, j :: 0 <= i < j < |Visible(projects, chip, q, order, favs)| ==>
      Compare(order, favs, Visible(projects, chip, q, order, favs)[i], Visible(projects, chip, q, order, favs)[j]) <= 0
  {
    var r := Visible(projects, chip, q, order, favs);
    SortBySorted(Filter(projects, Selector(chip, q)), SortKey(order, favs));
    forall i, j | 0 <= i < j < |r|
      ensures Compare(order, favs, r[i], r[j]) <= 0
    {
      CompareAgreesWithKey(order, favs, r[i], r[j]);
    }
  }

  /** `recent`: years never increase down the list, a missing year counting as 0. */
  lemma RecentYearsNonIncreasing(projects: seq<Project>, chip: string, q: string, favs: set<string>)
    ensures var r := Visible(projects, chip, q, Recent, favs);
      forall i, j :: 0 <= i < j < |r| ==> YearOr0(r[i]) >= YearOr0(r[j])
  {
    VisibleOrdered(projects, chip, q, Recent, favs);
  }

  /** `stars`: every favourite precedes every other project; inside each group years never increase. */
  lemma StarsFavouritesFirst(projects: seq<Project>, chip: string, q: string, favs: set<string>)
    ensures var r := Visible(projects, chip, q, Stars, favs);
      forall i, j :: 0 <= i < j < |r| && r[j].id in favs ==> r[i].id in favs
    ensures var r := Visible(projects, chip, q, Stars, favs);
      forall i, j :: 0 <= i < j < |r| && (r[i].id in favs <==> r[j].id in favs) ==> YearOr0(r[i]) >= YearOr0(r[j])
  {
    VisibleOrdered(projects, chip, q, Stars, favs);
  }

  /** `alpha`: titles are in ascending order. */
  lemma AlphaTitlesAscending(projects: seq<Project>, chip: string, q: string, favs: set<string>)
    ensures forall i, j :: 0 <= i < j < |Visible(projects, chip, q, Alpha, favs)| ==>
      LexLe(Visible(projects, chip, q, Alpha, favs)[i].title, Visible(projects, chip, q, Alpha, favs)[j].title)
  {
    var r := Visible(projects, chip, q, Alpha, favs);
    VisibleOrdered(projects, chip, q, Alpha, favs);
    forall i, j | 0 <= i < j < |r|
      ensures LexLe(r[i].title, r[j].title)
    {
      assert Compare(Alpha, favs, r[i], r[j]) <= 0;
      LexLeTotal(r[i].title, r[j].title);
    }
  }

  /** The sort is stable: projects that compare equal stay in their filtered order. */
  lemma VisibleStable(projects: seq<Project>, chip: string, q: string, order: Order, favs: set<string>, k: Key)
    requires order != Unsorted
    ensures Filter(Visible(projects, chip, q, order, favs), KeyIs(SortKey(order, favs), k))
         == Filter(Filter(projects, Selector(chip, q)), KeyIs(SortKey(order, favs), k))
  {
    SortByStable(Filter(projects, Selector(chip, q)), SortKey(order, favs), k);
  }

  /** As written, `b.year - a.year` is `NaN` when a year is missing. */
  datatype Number = Num(n: int) | NaN

  /** The `stars` comparator as the source spells it. */
  function StarsCompareAsWritten(favs: set<string>, a: Project, b: Project): Number
  {
    var d := Starred(favs, b) - Starred(favs, a);
    if d != 0 then Num(d)
    else match (a.year, b.year)
      case (Some(ya), Some(yb)) => Num(yb - ya)
      case _ => NaN
  }

  /** The engine's reading of a comparator result: `NaN` counts as 0 (equal). */
  function SortCompareValue(v: Number): int
  {
    match v
    case Num(n) => n
    case NaN => 0
  }

  /** Where both years are present the code as written and the corrected comparator agree. */
  lemma StarsAgreeWithYears(favs: set<string>, a: Project, b: Project)
    requires a.year.Some? && b.year.Some?
    ensures SortCompareValue(StarsCompareAsWritten(favs, a, b)) == Compare(Stars, favs, a, b)
  {
  }

  function Plain(id: string, year: Option<int>, tags: seq<string>): Project
  {
    Project(id, id, "", "", year, tags, "", [], "", "", "")
  }

  /**
   * With a missing year the comparator as written is not consistent: the project without a year
   * is "equal" to both 2020 and 2010, which are not equal to each other, so the order of the
   * sorted list is left to the engine.
   */
  lemma StarsAsWrittenInconsistent()
    ensures var a, b, c := Plain("a", Some(2020), []), Plain("b", None, []), Plain("c", Some(2010), []);
      SortCompareValue(StarsCompareAsWritten({}, a, b)) == 0 &&
      SortCompareValue(StarsCompareAsWritten({}, b, c)) == 0 &&
      SortCompareValue(StarsCompareAsWritten({}, a, c)) < 0
  {
  }

  /** Filtering for `ev` with no query keeps exactly the two `ev` projects, in order. */
  lemma TagFilterExample()
    ensures var ps := [Plain("1", None, ["ev"]), Plain("2", None, ["aero"]), Plain("3", None, ["ev"])];
      Visible(ps, "ev", "", Unsorted, {}) == [ps[0], ps[2]]
  {
    var ps := [Plain("1", None, ["ev"]), Plain("2", None, ["aero"]), Plain("3", None, ["ev"])];
    assert ps[1..][1..][1..] == [];
  }

  // ---------------------------------------------------------------- the experience filter

  /** `filter === 'all' || (x.tags || []).includes(filter)`. */
  function ExperienceSelector(filter: string): Experience -> bool
  {
    (x: Experience) => filter == "all" || filter in x.tags
  }

  /** `'all'` keeps every role in order; any other value keeps exactly the roles tagged with it, in order. */
  lemma ExperienceFilterSpec(es: seq<Experience>, filter: string, x: Experience)
    ensures filter == "all" ==> Filter(es, ExperienceSelector(filter)) == es
    ensures filter != "all" ==> (x in Filter(es, ExperienceSelector(filter)) <==> x in es && filter in x.tags)
    ensures IsSubseq(Filter(es, ExperienceSelector(filter)), es)
  {
    if filter == "all" {
      FilterKeepsAll(es, ExperienceSelector(filter));
    }
    FilterMembers(es, ExperienceSelector(filter), x);
    FilterIsSubseq(es, ExperienceSelector(filter));
  }

  // ---------------------------------------------------------------- summary counters

  /**
   * `experience.reduce((acc, e) => acc + (e.years || 0), 0)`. A JSON number may have a fraction,
   * so years are reals; a missing value, as `0` itself, adds nothing.
   */
  function TotalYears(es: seq<Experience>): real
  {
    if es == [] then 0.0 else TotalYears(es[..|es| - 1]) + es[|es| - 1].years.GetOr(0.0)
  }

  /** `education.reduce((a, s) => a + (s.awards?.length || 0), 0)`. */
  function TotalAwards(ds: seq<Education>): nat
  {
    if ds == [] then 0 else TotalAwards(ds[..|ds| - 1]) + |ds[|ds| - 1].awards|
  }

  /** The years counter adds up over any split of the list. */
  lemma {:induction false} TotalYearsAppend(a: seq<Experience>, b: seq<Experience>)
    ensures TotalYears(a + b) == TotalYears(a) + TotalYears(b)
  {
    if b == [] {
      assert a + b == a;
    } else {
      TotalYearsAppend(a, b[..|b| - 1]);
      assert (a + b)[..|a + b| - 1] == a + b[..|b| - 1];
    }
  }

  /** A role without a year adds nothing. */
  lemma {:induction false} TotalYearsMissing(es: seq<Experience>)
    requires forall i :: 0 <= i < |es| ==> es[i].years == None
    ensures TotalYears(es) == 0.0
  {
    if es != [] {
      TotalYearsMissing(es[..|es| - 1]);
    }
  }

  /** The awards counter is the number of awards over all entries; it adds up over any split. */
  lemma {:induction false} TotalAwardsAppend(a: seq<Education>, b: seq<Education>)
    ensures TotalAwards(a + b) == TotalAwards(a) + TotalAwards(b)
  {
    if b == [] {
      assert a + b == a;
    } else {
      TotalAwardsAppend(a, b[..|b| - 1]);
      assert (a + b)[..|a + b| - 1] == a + b[..|b| - 1];
    }
  }

  lemma {:induction false} TotalAwardsBound(ds: seq<Education>, i: nat)
    requires i < |ds|
    ensures |ds[i].awards| <= TotalAwards(ds)
  {
    if i < |ds| - 1 {
      TotalAwardsBound(ds[..|ds| - 1], i);
    }
  }

  // ---------------------------------------------------------------- tags and chips

  /** The members of a list, as the `Set` built from it holds them. */
  function Elems(s: seq<string>): set<string>
  {
    set i | 0 <= i < |s| :: s[i]
  }

  /** The members are exactly the list's elements. */
  lemma ElemsMembers(s: seq<string>, x: string)
    ensures x in Elems(s) <==> x in s
  {
    if x in s {
      var i :| 0 <= i < |s| && s[i] == x;
      assert s[i] in Elems(s);
    }
  }

  /** Appending an element adds exactly that member. */
  lemma ElemsSnoc(s: seq<string>, x: string)
    ensures Elems(s + [x]) == Elems(s) + {x}
  {
    forall y ensures y in Elems(s + [x]) <==> y in Elems(s) + {x} {
      ElemsMembers(s + [x], y);
      ElemsMembers(s, y);
      assert y in s + [x] <==> y in s || y == x;
    }
  }

  /** Every tag of every project. */
  function TagUnion(ps: seq<Project>): set<string>
  {
    if ps == [] then {} else TagUnion(ps[..|ps| - 1]) + Elems(ps[|ps| - 1].tags)
  }

  lemma {:induction false} TagUnionMembers(ps: seq<Project>, t: string)
    ensures t in TagUnion(ps) <==> exists i :: 0 <= i < |ps| && t in ps[i].tags
  {
    if ps != [] {
      TagUnionMembers(ps[..|ps| - 1], t);
      if t in TagUnion(ps[..|ps| - 1]) {
        var i :| 0 <= i < |ps| - 1 && t in ps[..|ps| - 1][i].tags;
        assert t in ps[i].tags;
      }
      if exists i :: 0 <= i < |ps| && t in ps[i].tags {
        var i :| 0 <= i < |ps| && t in ps[i].tags;
        if i < |ps| - 1 {
          assert t in ps[..|ps| - 1][i].tags;
        }
      }
    }
  }

  /** `state.tags.add(t)`: a `Set` ignores a member it already has and appends a new one. */
  function WithTag(s: seq<string>, t: string): seq<string>
  {
    if t in s then s else s + [t]
  }

  /** `ts.forEach(t => state.tags.add(t))`. */
  function WithTags(s: seq<string>, ts: seq<string>): seq<string>
  {
    if ts == [] then s else WithTag(WithTags(s, ts[..|ts| - 1]), ts[|ts| - 1])
  }

  /** `projects.forEach(p => (p.tags || []).forEach(t => state.tags.add(t)))`. */
  function WithProjectTags(s: seq<string>, ps: seq<Project>): seq<string>
  {
    if ps == [] then s else WithTags(WithProjectTags(s, ps[..|ps| - 1]), ps[|ps| - 1].tags)
  }

  /** Adding a tag keeps the earlier members in place and each member once, and adds exactly `t`. */
  lemma WithTagSpec(s: seq<string>, t: string)
    requires forall i, j :: 0 <= i < j < |s| ==> s[i] != s[j]
    ensures s <= WithTag(s, t)
    ensures forall i, j :: 0 <= i < j < |WithTag(s, t)| ==> WithTag(s, t)[i] != WithTag(s, t)[j]
    ensures Elems(WithTag(s, t)) == Elems(s) + {t}
  {
    ElemsSnoc(s, t);
  }

  /** Adding several tags keeps the earlier members first and in order, and each member once. */
  lemma {:induction false} WithTagsDistinct(s: seq<string>, ts: seq<string>)
    requires forall i, j :: 0 <= i < j < |s| ==> s[i] != s[j]
    ensures s <= WithTags(s, ts)
    ensures forall i, j :: 0 <= i < j < |WithTags(s, ts)| ==> WithTags(s, ts)[i] != WithTags(s, ts)[j]
  {
    if ts != [] {
      WithTagsDistinct(s, ts[..|ts| - 1]);
      WithTagSpec(WithTags(s, ts[..|ts| - 1]), ts[|ts| - 1]);
    }
  }

  /** Adding several tags adds exactly those members. */
  lemma {:induction false} WithTagsMembers(s: seq<string>, ts: seq<string>)
    ensures Elems(WithTags(s, ts)) == Elems(s) + Elems(ts)
  {
    if ts != [] {
      var init, last := ts[..|ts| - 1], ts[|ts| - 1];
      WithTagsMembers(s, init);
      var w := WithTags(s, init);
      if last in w {
        ElemsMembers(w, last);
      } else {
        ElemsSnoc(w, last);
      }
      assert ts == init + [last];
      ElemsSnoc(init, last);
    }
  }

  /** Collecting the tags of every project keeps the earlier members first and in order, and each member once. */
  lemma {:induction false} WithProjectTagsDistinct(s: seq<string>, ps: seq<Project>)
    requires forall i, j :: 0 <= i < j < |s| ==> s[i] != s[j]
    ensures s <= WithProjectTags(s, ps)
    ensures forall i, j :: 0 <= i < j < |WithProjectTags(s, ps)| ==>
      WithProjectTags(s, ps)[i] != WithProjectTags(s, ps)[j]
  {
    if ps != [] {
      WithProjectTagsDistinct(s, ps[..|ps| - 1]);
      WithTagsDistinct(WithProjectTags(s, ps[..|ps| - 1]), ps[|ps| - 1].tags);
    }
  }

  /** The collected members are exactly the old ones and the tags of every project. */
  lemma {:induction false} WithProjectTagsMembers(s: seq<string>, ps: seq<Project>)
    ensures Elems(WithProjectTags(s, ps)) == Elems(s) + TagUnion(ps)
  {
    if ps != [] {
      WithProjectTagsMembers(s, ps[..|ps| - 1]);
      WithTagsMembers(WithProjectTags(s, ps[..|ps| - 1]), ps[|ps| - 1].tags);
    }
  }

  function TagKey(t: string): Key
  {
    Key(0, 0, t)
  }

  /** `['All', ...Array.from(state.tags).sort()]`. */
  function ChipLabels(tags: seq<string>): seq<string>
  {
    ["All"] + SortBy(tags, TagKey)
  }

  /** The chips are "All" followed by the tags in strictly ascending order, each tag once. */
  lemma ChipLabelsSpec(tags: seq<string>)
    requires forall i, j :: 0 <= i < j < |tags| ==> tags[i] != tags[j]
    ensures |ChipLabels(tags)| == |tags| + 1 && ChipLabels(tags)[0] == "All"
    ensures forall t :: t in ChipLabels(tags)[1..] <==> t in tags
    ensures forall i, j :: 1 <= i < j < |ChipLabels(tags)| ==>
      LexLe(ChipLabels(tags)[i], ChipLabels(tags)[j]) && ChipLabels(tags)[i] != ChipLabels(tags)[j]
  {
    var s := SortBy(tags, TagKey);
    SortBySorted(tags, TagKey);
    SortByPermutes(tags, TagKey);
    assert ChipLabels(tags)[1..] == s;
    forall t ensures t in s <==> t in tags {
      assert t in s <==> t in multiset(s);
      assert t in tags <==> t in multiset(tags);
    }
    forall i, j | 0 <= i < j < |s|
      ensures s[i] != s[j]
    {
      if s[i] == s[j] {
        MultisetTwice(s, i, j);
        DistinctOnce(tags, s[i]);
        assert false;
      }
    }
  }

  lemma MultisetTwice(s: seq<string>, i: nat, j: nat)
    requires i < j < |s| && s[i] == s[j]
    ensures multiset(s)[s[i]] >= 2
  {
    assert s == s[..i] + [s[i]] + s[i + 1..j] + [s[j]] + s[j + 1..];
  }

  lemma {:induction false} DistinctOnce(s: seq<string>, x: string)
    requires forall i, j :: 0 <= i < j < |s| ==> s[i] != s[j]
    ensures multiset(s)[x] <= 1
  {
    if s != [] {
      DistinctOnce(s[1..], x);
      assert s == [s[0]] + s[1..];
      if s[0] == x {
        assert x !in s[1..];
      }
    }
  }

  /** `aria-pressed` as rendered: true on the chips labelled "All". */
  function PressedAtRender(chips: seq<string>): seq<bool>
  {
    seq(|chips|, i requires 0 <= i < |chips| => chips[i] == "All")
  }

  /** `aria-pressed` after a click on chip `k`: true on that chip alone. */
  function PressedAfterClick(n: nat, k: nat): seq<bool>
  {
    seq(n, i => i == k)
  }

  /** The first pressed chip, if any. */
  function FirstPressed(chips: seq<string>, pressed: seq<bool>): (r: Option<nat>)
    requires |pressed| == |chips|
    ensures r.Some? ==> r.value < |chips| && pressed[r.value] && forall i :: 0 <= i < r.value ==> !pressed[i]
    ensures r.None? ==> forall i :: 0 <= i < |chips| ==> !pressed[i]
  {
    if chips == [] then None
    else if pressed[0] then Some(0)
    else match FirstPressed(chips[1..], pressed[1..])
      case None => None
      case Some(k) => Some(k + 1)
  }

  /** `$('.chip[aria-pressed="true"]')?.textContent || 'All'`. */
  function ActiveChip(chips: seq<string>, pressed: seq<bool>): string
    requires |pressed| == |chips|
  {
    match FirstPressed(chips, pressed)
    case None => "All"
    case Some(k) => if chips[k] == "" then "All" else chips[k]
  }

  /** After rendering the chips the active chip is "All", which keeps every project. */
  lemma ActiveChipAtRender(tags: seq<string>)
    ensures ActiveChip(ChipLabels(tags), PressedAtRender(ChipLabels(tags))) == "All"
  {
    assert PressedAtRender(ChipLabels(tags))[0];
  }

  /** After a click on chip `k` that chip is the active one. */
  lemma ActiveChipAfterClick(chips: seq<string>, k: nat)
    requires k < |chips|
    ensures ActiveChip(chips, PressedAfterClick(|chips|, k)) == if chips[k] == "" then "All" else chips[k]
  {
    var pressed := PressedAfterClick(|chips|, k);
    assert pressed[k];
    var r := FirstPressed(chips, pressed);
    assert r.Some?;
    assert r.value == k;
  }

  // ---------------------------------------------------------------- resume, coursework, modal

  /** `state.projects.slice(0, 6)`. */
  function ResumeProjects(ps: seq<Project>): (r: seq<Project>)
    ensures |r| == if |ps| < 6 then |ps| else 6
    ensures forall i :: 0 <= i < |r| ==> r[i] == ps[i]
  {
    if |ps| <= 6 then ps else ps[..6]
  }

  /** `state.education[0]?.coursework || []`. */
  function Coursework(ds: seq<Education>): (r: seq<string>)
    ensures ds == [] ==> r == []
    ensures ds != [] ==> r == ds[0].coursework
  {
    if ds == [] then [] else ds[0].coursework
  }

  /** Only the first entry's coursework is listed: later entries, changed or appended, make no difference. */
  lemma CourseworkIgnoresLater(ds: seq<Education>, i: nat, e: Education, more: seq<Education>)
    requires 0 < i < |ds|
    ensures Coursework(ds[i := e]) == Coursework(ds)
    ensures Coursework(ds + more) == Coursework(ds)
    ensures Coursework([e] + ds) == e.coursework
  {
  }

  /** Index `i` holds the first project whose id is `id`. */
  predicate FirstWithId(ps: seq<Project>, id: string, i: int)
  {
    0 <= i < |ps| && ps[i].id == id && forall j :: 0 <= j < i ==> ps[j].id != id
  }

  /** `state.projects.find(x => String(x.id) === String(id))`. */
  function FindProject(ps: seq<Project>, id: string): (r: Option<Project>)
    ensures r.None? <==> forall i :: 0 <= i < |ps| ==> ps[i].id != id
    ensures r.Some? ==> exists i :: FirstWithId(ps, id, i) && ps[i] == r.value
  {
    if ps == [] then None
    else if ps[0].id == id then
      assert FirstWithId(ps, id, 0);
      Some(ps[0])
    else
      var r := FindProject(ps[1..], id);
      if r.None? then r
      else
        var i :| FirstWithId(ps[1..], id, i) && ps[1..][i] == r.value;
        assert FirstWithId(ps, id, i + 1);
        r
  }
}
