/**
 * The portfolio page as one object: the loaded content, the favourites `Set`, the tag `Set`, the
 * chip buttons and their `aria-pressed` flags, the view regions' `hidden` flags, the nav tabs'
 * `aria-selected` flags, the chord flag, the form controls and what each render leaves on screen.
 * Every event handler is a method. `Route` is `route()`: the script calls it once after the
 * constructor, then again on `hashchange` and after loading.
 */
module Portfolio {
  import opened Options
  import opened Seqs
  import opened Sorting
  import opened Content
  import opened Favorites
  import Routing
  import Keys
  import Theme

  /** `localStorage.getItem(key)`. */
  function Stored(storage: map<string, string>, key: string): (r: Option<string>)
    ensures r.Some? <==> key in storage
    ensures r.Some? ==> r.value == storage[key]
  {
    if key in storage then Some(storage[key]) else None
  }

  /** A read after `setItem` gives what was set, after `removeItem` nothing; other keys are unaffected. */
  lemma StoredAfterWrite(storage: map<string, string>, key: string, value: string, other: string)
    ensures Stored(storage[key := value], key) == Some(value)
    ensures Stored(storage - {key}, key) == None
    ensures other != key ==> Stored(storage[key := value], other) == Stored(storage, other)
    ensures other != key ==> Stored(storage - {key}, other) == Stored(storage, other)
  {
  }

  /** The favourites a star click stores are the ones the next start-up reads back. */
  lemma FavoritesSurviveReload(storage: map<string, string>, favs: seq<string>)
    requires NoDup(favs)
    ensures Restore(Stored(storage["favorites" := Persisted(favs)], "favorites")) == Some(favs)
  {
    StoredAfterWrite(storage, "favorites", Persisted(favs), "");
    RestorePersisted(favs);
  }

  /** `Array.from(tags).sort()`: a copy sorted in place. */
  method SortedTags(tags: seq<string>) returns (r: seq<string>)
    ensures r == SortBy(tags, TagKey)
  {
    var a := new string[|tags|](i requires 0 <= i < |tags| => tags[i]);
    assert a[..] == tags;
    SortInPlace(a, TagKey);
    r := a[..];
  }

  /** `new Set(JSON.parse(localStorage.getItem('favorites') || '[]'))`. */
  method ReadFavorites(storage: map<string, string>) returns (r: seq<string>)
    requires Restore(Stored(storage, "favorites")).Some?
    ensures r == Restore(Stored(storage, "favorites")).value
    ensures NoDup(r)
  {
    r := Restore(Stored(storage, "favorites")).value;
    RestoreNoDup(Stored(storage, "favorites"));
  }

  class Page {
    /** The `href` of each `.nav-links a`, in document order. */
    const navHrefs: seq<string>

    var projects: seq<Project>
    var experience: seq<Experience>
    var education: seq<Education>
    /** `state.favorites`: a `Set` kept in insertion order. */
    var favorites: seq<string>
    /** `state.tags`: a `Set` kept in insertion order. */
    var tags: seq<string>
    var storage: map<string, string>
    /** `document.documentElement.dataset.theme`, "" when unset. */
    var theme: string
    var hash: string

    /** The `hidden` flag of each view region, in the order of `Routing.Views`. */
    var hidden: seq<bool>
    var tabSelected: seq<bool>
    /** The chip buttons' labels and `aria-pressed` flags, in document order. */
    var chips: seq<string>
    var pressed: seq<bool>

    /** `#proj-search`, `#proj-sort` and `#exp-filter` values. */
    var searchValue: Option<string>
    var sortValue: string
    var expFilter: string

    /** `gPressed`. */
    var armed: bool
    /** `#kbd-help` hidden flag. */
    var helpHidden: bool
    var searchFocused: bool

    var statProjects: Option<nat>
    var statYears: Option<real>
    var statAwards: Option<nat>

    /** The cards in `#projects-grid`, the roles in `#experience-timeline`, `#coursework-list`, the resume's projects. */
    var grid: seq<Project>
    var timeline: seq<Experience>
    var coursework: seq<string>
    var resume: seq<Project>
    /** The project shown in the case-study dialog, if it is open. */
    var modal: Option<Project>

    /** One flag per tab, per chip and per region. */
    ghost predicate Valid()
      reads this`tabSelected, this`pressed, this`chips, this`hidden
    {
      |tabSelected| == |navHrefs| && |pressed| == |chips| && |hidden| == |Routing.Views|
    }

    /** The two `Set`s hold each member once. Only the methods that change them mention this. */
    ghost predicate Distinct()
      reads this`favorites, this`tags
    {
      NoDup(favorites) && NoDup(tags)
    }

    /** What `renderProjects` puts in the grid for the current controls. */
    function ShownProjects(): seq<Project>
      reads this`projects, this`chips, this`pressed, this`searchValue, this`sortValue, this`favorites
      requires |pressed| == |chips|
    {
      Visible(projects, ActiveChip(chips, pressed), ActiveQuery(searchValue), OrderOf(sortValue), Elems(favorites))
    }

    /** Exactly the resolved view is un-hidden and the tabs follow the raw fragment. */
    ghost predicate Routed()
      reads this`hash, this`hidden, this`tabSelected
    {
      |hidden| == |Routing.Views| &&
      (forall i :: 0 <= i < |Routing.Views| ==> (hidden[i] <==> Routing.Views[i] != Routing.Resolve(hash))) &&
      |tabSelected| == |navHrefs| &&
      forall i :: 0 <= i < |navHrefs| ==> (tabSelected[i] <==> Routing.TabSelected(navHrefs[i], Routing.Fragment(hash)))
    }

    /** The region named by the fragment shows the current data. */
    ghost predicate CurrentViewRendered()
      reads this`hash, this`grid, this`projects, this`chips, this`pressed, this`searchValue, this`sortValue,
        this`favorites, this`timeline, this`experience, this`expFilter, this`coursework, this`education, this`resume
      requires |pressed| == |chips|
    {
      var named := Routing.Named(hash);
      (named == Some(Routing.Projects) ==> grid == ShownProjects()) &&
      (named == Some(Routing.Experience) ==> timeline == Filter(experience, ExperienceSelector(expFilter))) &&
      (named == Some(Routing.Education) ==> coursework == Coursework(education)) &&
      (named == Some(Routing.Resume) ==> resume == ResumeProjects(projects))
    }

    /**
     * Script start: the state object is built, with the favourites read from storage, and the
     * stored theme is applied over the markup's `data-theme`; every region is still as the markup left it. `JSON.parse` throwing
     * on the stored favourites stops the script, so that text must parse.
     */
    constructor (navHrefs: seq<string>, storage: map<string, string>, hash: string,
                 searchValue: Option<string>, sortValue: string, expFilter: string, markupTheme: string)
      requires Restore(Stored(storage, "favorites")).Some?
      ensures this.navHrefs == navHrefs && this.storage == storage && this.hash == hash
      ensures this.searchValue == searchValue && this.sortValue == sortValue && this.expFilter == expFilter
      ensures favorites == Restore(Stored(storage, "favorites")).value
      ensures theme == Theme.InitialTheme(storage, markupTheme)
      ensures projects == [] && experience == [] && education == [] && tags == []
      ensures chips == [] && pressed == [] && !armed && modal == None
      ensures statProjects == None && statYears == None && statAwards == None
      ensures grid == [] && timeline == [] && coursework == [] && resume == []
      ensures Valid() && Distinct()
    {
      this.navHrefs := navHrefs;
      this.storage := storage;
      this.hash := hash;
      this.searchValue := searchValue;
      this.sortValue := sortValue;
      this.expFilter := expFilter;
      var restored := ReadFavorites(storage);
      favorites := restored;
      theme := Theme.InitialTheme(storage, markupTheme);
      projects, experience, education, tags := [], [], [], [];
      hidden := seq(|Routing.Views|, _ => true);
      tabSelected := seq(|navHrefs|, _ => false);
      chips, pressed := [], [];
      armed, helpHidden, searchFocused := false, true, false;
      statProjects, statYears, statAwards := None, None, None;
      grid, timeline, coursework, resume := [], [], [], [];
      modal := None;
    }

    /** `selectTab(id)`: each tab is selected exactly when its `href` is `'#' + id`. */
    method SelectTab(id: string)
      requires |tabSelected| == |navHrefs|
      modifies this`tabSelected
      ensures |tabSelected| == |navHrefs|
      ensures forall i :: 0 <= i < |navHrefs| ==> (tabSelected[i] <==> Routing.TabSelected(navHrefs[i], id))
    {
      var i := 0;
      while i < |navHrefs|
        invariant 0 <= i <= |navHrefs| && |tabSelected| == |navHrefs|
        modifies this`tabSelected
        invariant forall j :: 0 <= j < i ==> (tabSelected[j] <==> Routing.TabSelected(navHrefs[j], id))
      {
        tabSelected := tabSelected[i := navHrefs[i] == "#" + id];
        i := i + 1;
      }
    }

    /** `route()`: hide every region, un-hide the resolved one, select tabs, render the named view. */
    method Route()
      requires Valid()
      modifies this`hidden, this`tabSelected, this`grid, this`timeline, this`coursework, this`resume
      ensures Valid() && Routed() && CurrentViewRendered()
      ensures Routing.Named(hash) != Some(Routing.Projects) ==> grid == old(grid)
      ensures Routing.Named(hash) != Some(Routing.Experience) ==> timeline == old(timeline)
      ensures Routing.Named(hash) != Some(Routing.Education) ==> coursework == old(coursework)
      ensures Routing.Named(hash) != Some(Routing.Resume) ==> resume == old(resume)
    {
      ShowOnly(Routing.Resolve(hash));
      SelectTab(Routing.Fragment(hash));
      RenderNamed();
    }

    /** The tail of `route()`: only the view the fragment names exactly is re-rendered. */
    method RenderNamed()
      requires |pressed| == |chips|
      modifies this`grid, this`timeline, this`coursework, this`resume
      ensures CurrentViewRendered()
      ensures Routing.Named(hash) != Some(Routing.Projects) ==> grid == old(grid)
      ensures Routing.Named(hash) != Some(Routing.Experience) ==> timeline == old(timeline)
      ensures Routing.Named(hash) != Some(Routing.Education) ==> coursework == old(coursework)
      ensures Routing.Named(hash) != Some(Routing.Resume) ==> resume == old(resume)
    {
      var named := Routing.Named(hash);
      if named == Some(Routing.Projects) {
        RenderProjects();
      } else if named == Some(Routing.Experience) {
        RenderExperience();
      } else if named == Some(Routing.Education) {
        RenderEducation();
      } else if named == Some(Routing.Resume) {
        RenderResume();
      }
    }

    /** `Object.values(views).forEach(v => v.hidden = true)`, then the one region is un-hidden. */
    method ShowOnly(shown: Routing.View)
      requires |hidden| == |Routing.Views|
      modifies this`hidden
      ensures |hidden| == |Routing.Views|
      ensures forall i :: 0 <= i < |Routing.Views| ==> (hidden[i] <==> Routing.Views[i] != shown)
    {
      var i := 0;
      while i < |Routing.Views|
        invariant 0 <= i <= |Routing.Views|
        invariant |hidden| == |Routing.Views|
        invariant forall j :: 0 <= j < i ==> hidden[j]
      {
        hidden := hidden[i := true];
        i := i + 1;
      }
      hidden := hidden[Routing.Index(shown) := false];
    }

    /** `hashchange`. */
    method HashChange(newHash: string)
      requires Valid()
      modifies this`hash, this`hidden, this`tabSelected, this`grid, this`timeline, this`coursework, this`resume
      ensures hash == newHash
      ensures Valid() && Routed() && CurrentViewRendered()
      ensures Routing.Named(hash) != Some(Routing.Projects) ==> grid == old(grid)
      ensures Routing.Named(hash) != Some(Routing.Experience) ==> timeline == old(timeline)
      ensures Routing.Named(hash) != Some(Routing.Education) ==> coursework == old(coursework)
      ensures Routing.Named(hash) != Some(Routing.Resume) ==> resume == old(resume)
    {
      hash := newHash;
      Route();
    }

    /** `renderProjects()`: filter, then sort the copy in place by the chosen comparator. */
    method RenderProjects()
      requires |pressed| == |chips|
      modifies this`grid
      ensures grid == ShownProjects()
    {
      var chip := ActiveChip(chips, pressed);
      var q := ActiveQuery(searchValue);
      var order := OrderOf(sortValue);
      var items := Filter(projects, Selector(chip, q));
      if order != Unsorted {
        var a := new Project[|items|](i requires 0 <= i < |items| => items[i]);
        assert a[..] == items;
        SortInPlace(a, SortKey(order, Elems(favorites)));
        items := a[..];
      }
      grid := items;
    }

    /** `renderExperience()`: one list item per role that passes the filter, in order. */
    method RenderExperience()
      modifies this`timeline
      ensures timeline == Filter(experience, ExperienceSelector(expFilter))
    {
      var kept := Filter(experience, ExperienceSelector(expFilter));
      ShowRoles(kept);
    }

    /** `list.innerHTML = ''`, then `.forEach(role => list.appendChild(li))`. */
    method ShowRoles(kept: seq<Experience>)
      modifies this`timeline
      ensures timeline == kept
    {
      timeline := [];
      var i := 0;
      while i < |kept|
        invariant 0 <= i <= |kept| && timeline == kept[..i]
      {
        assert kept[..i + 1] == kept[..i] + [kept[i]];
        timeline := timeline + [kept[i]];
        i := i + 1;
      }
      assert kept[..|kept|] == kept;
    }

    /** `renderEducation()`: the coursework list comes from the first entry. */
    method RenderEducation()
      modifies this`coursework
      ensures coursework == Coursework(education)
    {
      coursework := Coursework(education);
    }

    /** `renderResume()`: the first six projects. */
    method RenderResume()
      modifies this`resume
      ensures resume == ResumeProjects(projects)
    {
      resume := ResumeProjects(projects);
    }

    /** `renderTagChips()`: "All" then the sorted tags, one button each; only "All" is pressed. */
    method RenderTagChips()
      requires Valid()
      modifies this`chips, this`pressed
      ensures chips == ChipLabels(tags)
      ensures pressed == PressedAtRender(chips)
      ensures Valid()
    {
      var sorted := SortedTags(tags);
      var labels := ["All"] + sorted;
      chips, pressed := [], [];
      var i := 0;
      while i < |labels|
        invariant 0 <= i <= |labels|
        invariant chips == labels[..i] && |pressed| == i
        invariant forall j :: 0 <= j < i ==> pressed[j] == (labels[j] == "All")
        modifies this`chips, this`pressed
      {
        assert labels[..i + 1] == labels[..i] + [labels[i]];
        chips := chips + [labels[i]];
        pressed := pressed + [labels[i] == "All"];
        i := i + 1;
      }
      assert chips == labels;
    }

    /** A chip click: every chip is un-pressed, the clicked one pressed, and the grid re-rendered. */
    method ClickChip(k: nat)
      requires Valid() && k < |chips|
      modifies this`pressed, this`grid
      ensures pressed == PressedAfterClick(|chips|, k)
      ensures grid == ShownProjects()
      ensures grid == Visible(projects, if chips[k] == "" then "All" else chips[k],
                              ActiveQuery(searchValue), OrderOf(sortValue), Elems(favorites))
      ensures Valid()
    {
      var i := 0;
      while i < |pressed|
        invariant 0 <= i <= |pressed| && |pressed| == |chips|
        invariant forall j :: 0 <= j < i ==> !pressed[j]
        modifies this`pressed
      {
        pressed := pressed[i := false];
        i := i + 1;
      }
      pressed := pressed[k := true];
      assert pressed == PressedAfterClick(|chips|, k);
      ActiveChipAfterClick(chips, k);
      RenderProjects();
    }

    /** The loaded lists arrive: they are stored and counted, the tags collected and chipped, then `route()` runs. */
    method Load(ps: seq<Project>, es: seq<Experience>, ds: seq<Education>)
      requires Valid() && Distinct()
      modifies this`projects, this`experience, this`education, this`statProjects, this`statYears,
        this`statAwards, this`tags, this`chips, this`pressed,
        this`hidden, this`tabSelected, this`grid, this`timeline, this`coursework, this`resume
      ensures projects == ps && experience == es && education == ds
      ensures statProjects == Some(|ps|) && statYears == Some(TotalYears(es)) && statAwards == Some(TotalAwards(ds))
      ensures tags == WithProjectTags(old(tags), ps)
      ensures chips == ChipLabels(tags) && pressed == PressedAtRender(chips)
      ensures Valid() && Distinct() && Routed() && CurrentViewRendered()
      ensures Routing.Named(hash) != Some(Routing.Projects) ==> grid == old(grid)
      ensures Routing.Named(hash) != Some(Routing.Experience) ==> timeline == old(timeline)
      ensures Routing.Named(hash) != Some(Routing.Education) ==> coursework == old(coursework)
      ensures Routing.Named(hash) != Some(Routing.Resume) ==> resume == old(resume)
    {
      Receive(ps, es, ds);
      Route();
    }

    /** Everything the load does before its `route()`. */
    method Receive(ps: seq<Project>, es: seq<Experience>, ds: seq<Education>)
      requires Valid() && Distinct()
      modifies this`projects, this`experience, this`education, this`statProjects, this`statYears,
        this`statAwards, this`tags, this`chips, this`pressed
      ensures projects == ps && experience == es && education == ds
      ensures statProjects == Some(|ps|) && statYears == Some(TotalYears(es)) && statAwards == Some(TotalAwards(ds))
      ensures tags == WithProjectTags(old(tags), ps)
      ensures chips == ChipLabels(tags) && pressed == PressedAtRender(chips)
      ensures Valid() && Distinct()
    {
      Store(ps, es, ds);
      RenderTagChips();
    }

    /** The lists, the three counters and the tag set. */
    method Store(ps: seq<Project>, es: seq<Experience>, ds: seq<Education>)
      requires Distinct()
      modifies this`projects, this`experience, this`education, this`statProjects, this`statYears,
        this`statAwards, this`tags
      ensures projects == ps && experience == es && education == ds
      ensures statProjects == Some(|ps|) && statYears == Some(TotalYears(es)) && statAwards == Some(TotalAwards(ds))
      ensures tags == WithProjectTags(old(tags), ps)
      ensures Distinct()
    {
      projects, experience, education := ps, es, ds;
      statProjects := Some(|ps|);
      statYears := Some(TotalYears(es));
      statAwards := Some(TotalAwards(ds));
      WithProjectTagsDistinct(tags, ps);
      CollectTags(ps);
    }

    /** `projects.forEach(p => (p.tags || []).forEach(t => state.tags.add(t)))`. */
    method CollectTags(ps: seq<Project>)
      modifies this`tags
      ensures tags == WithProjectTags(old(tags), ps)
    {
      var i := 0;
      while i < |ps|
        invariant 0 <= i <= |ps|
        invariant tags == WithProjectTags(old(tags), ps[..i])
        modifies this`tags
      {
        AddTags(ps[i].tags);
        assert ps[..i + 1][..i] == ps[..i];
        i := i + 1;
      }
      assert ps[..|ps|] == ps;
    }

    /** `(p.tags || []).forEach(t => state.tags.add(t))`. */
    method AddTags(ts: seq<string>)
      modifies this`tags
      ensures tags == WithTags(old(tags), ts)
    {
      var j := 0;
      while j < |ts|
        invariant 0 <= j <= |ts|
        invariant tags == WithTags(old(tags), ts[..j])
      {
        AddTag(ts[j]);
        assert ts[..j + 1][..j] == ts[..j];
        j := j + 1;
      }
      assert ts[..|ts|] == ts;
    }

    /** `state.tags.add(t)`. */
    method AddTag(t: string)
      modifies this`tags
      ensures tags == WithTag(old(tags), t)
    {
      if t !in tags {
        tags := tags + [t];
      }
    }

    /** A star click: the id's membership flips, the new set is stored, the grid re-rendered. */
    method ToggleStar(id: string)
      requires Valid() && Distinct()
      modifies this`favorites, this`storage, this`grid
      ensures favorites == Toggle(old(favorites), id)
      ensures forall x :: x in favorites <==> (if x == id then id !in old(favorites) else x in old(favorites))
      ensures storage == old(storage)["favorites" := Persisted(favorites)]
      ensures grid == ShownProjects()
      ensures Valid() && Distinct()
    {
      ghost var before := favorites;
      if id in favorites {
        favorites := Filter(favorites, Other(id));
      } else {
        favorites := favorites + [id];
      }
      ToggleNoDup(before, id);
      forall x ensures x in favorites <==> (if x == id then id !in before else x in before) {
        ToggleFlips(before, id, x);
      }
      storage := storage["favorites" := Persisted(favorites)];
      RenderProjects();
    }

    /** `input` on the search box. */
    method Search(value: Option<string>)
      requires Valid()
      modifies this`searchValue, this`grid
      ensures searchValue == value && grid == ShownProjects()
    {
      searchValue := value;
      RenderProjects();
    }

    /** `change` on the sort control. */
    method ChangeSort(value: string)
      requires Valid()
      modifies this`sortValue, this`grid
      ensures sortValue == value && grid == ShownProjects()
    {
      sortValue := value;
      RenderProjects();
    }

    /** `change` on the experience filter. */
    method ChangeExpFilter(value: string)
      modifies this`expFilter, this`timeline
      ensures expFilter == value && timeline == Filter(experience, ExperienceSelector(value))
    {
      expFilter := value;
      RenderExperience();
    }

    /** The theme button: `''` and `'light'` alternate; the default theme removes the stored key. */
    method ToggleTheme()
      modifies this`theme, this`storage
      ensures theme == Theme.NextAppTheme(old(theme))
      ensures storage == Theme.PersistAppTheme(old(storage), theme)
    {
      var next := Theme.NextAppTheme(theme);
      storage := Theme.PersistAppTheme(storage, next);
      theme := next;
    }

    /** `keydown`; the result is whether `preventDefault` was called. */
    method KeyDown(key: string) returns (prevented: bool)
      requires Valid()
      modifies this`armed, this`helpHidden, this`searchFocused, this`hash,
        this`hidden, this`tabSelected, this`grid, this`timeline, this`coursework, this`resume
      ensures var e := Keys.Dispatch(key, old(armed), old(hash));
        prevented == (e == Keys.FocusSearch) &&
        searchFocused == (old(searchFocused) || e == Keys.FocusSearch) &&
        helpHidden == (if e == Keys.ToggleHelp then !old(helpHidden) else old(helpHidden)) &&
        armed == (old(armed) || e == Keys.Arm)
      ensures var e := Keys.Dispatch(key, old(armed), old(hash));
        e.Navigate? ==> hash == "#" + Routing.Name(e.target) && Routing.Resolve(hash) == e.target
      ensures var e := Keys.Dispatch(key, old(armed), old(hash));
        !e.Navigate? ==> (hash == old(hash) && hidden == old(hidden) && tabSelected == old(tabSelected) &&
          grid == old(grid) && timeline == old(timeline) && coursework == old(coursework) && resume == old(resume))
      ensures Routing.Named(hash) != Some(Routing.Projects) ==> grid == old(grid)
      ensures Routing.Named(hash) != Some(Routing.Experience) ==> timeline == old(timeline)
      ensures Routing.Named(hash) != Some(Routing.Education) ==> coursework == old(coursework)
      ensures Routing.Named(hash) != Some(Routing.Resume) ==> resume == old(resume)
      ensures hash != old(hash) ==> Routed() && CurrentViewRendered()
      ensures hash == old(hash) ==> (hidden == old(hidden) && tabSelected == old(tabSelected) &&
        grid == old(grid) && timeline == old(timeline) && coursework == old(coursework) && resume == old(resume))
      ensures Valid()
    {
      var e := Keys.Dispatch(key, armed, hash);
      if e.Navigate? {
        GoTo(e.target);
        prevented := false;
      } else {
        prevented := Respond(e);
      }
    }

    /** The `keydown` branches that neither navigate nor touch any region. */
    method Respond(e: Keys.Effect) returns (prevented: bool)
      requires !e.Navigate?
      modifies this`armed, this`helpHidden, this`searchFocused
      ensures prevented == (e == Keys.FocusSearch)
      ensures searchFocused == (old(searchFocused) || e == Keys.FocusSearch)
      ensures helpHidden == (if e == Keys.ToggleHelp then !old(helpHidden) else old(helpHidden))
      ensures armed == (old(armed) || e == Keys.Arm)
    {
      prevented := false;
      match e {
        case FocusSearch =>
          searchFocused := true;
          prevented := true;
        case ToggleHelp =>
          helpHidden := !helpHidden;
        case Arm =>
          armed := true;
        case NoEffect =>
      }
    }

    /** `location.hash = '#' + target`: the assignment fires `hashchange` only when the hash changes. */
    method GoTo(v: Routing.View)
      requires Valid()
      modifies this`hash, this`hidden, this`tabSelected, this`grid, this`timeline, this`coursework, this`resume
      ensures hash == "#" + Routing.Name(v) && Routing.Resolve(hash) == v
      ensures hash != old(hash) ==> Routed() && CurrentViewRendered()
      ensures hash == old(hash) ==> (hidden == old(hidden) && tabSelected == old(tabSelected) &&
        grid == old(grid) && timeline == old(timeline) && coursework == old(coursework) && resume == old(resume))
      ensures Routing.Named(hash) != Some(Routing.Projects) ==> grid == old(grid)
      ensures Routing.Named(hash) != Some(Routing.Experience) ==> timeline == old(timeline)
      ensures Routing.Named(hash) != Some(Routing.Education) ==> coursework == old(coursework)
      ensures Routing.Named(hash) != Some(Routing.Resume) ==> resume == old(resume)
      ensures Valid()
    {
      Routing.ResolveName(v);
      var target := "#" + Routing.Name(v);
      if target != hash {
        hash := target;
        Route();
      }
    }

    /** The 800 ms timer after `g`. */
    method ChordTimeout()
      modifies this`armed
      ensures !armed
    {
      armed := false;
    }

    /** The 3500 ms timer after `?`. */
    method HelpTimeout()
      modifies this`helpHidden
      ensures helpHidden
    {
      helpHidden := true;
    }

    /** A case-study click: the first project with that id; with none, `p.title` throws and nothing opens. */
    method OpenModal(id: string)
      modifies this`modal
      ensures FindProject(projects, id).Some? ==> modal == FindProject(projects, id)
      ensures FindProject(projects, id).None? ==> modal == old(modal)
    {
      var found := FindProject(projects, id);
      if found.Some? {
        modal := found;
      }
    }

    /** A click on an element marked `data-close`. */
    method CloseModal()
      modifies this`modal
      ensures modal == None
    {
      modal := None;
    }
  }
}
