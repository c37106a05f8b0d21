/**
 * Hash routing: `location.hash` names one of six view regions. The fragment is the hash with its
 * first `#` removed, or "home" when that leaves nothing; an id that names no view shows the home
 * view. The nav tabs are marked selected by comparing their `href` with the raw fragment.
 */
module Routing {
  import opened Options

  datatype View = Home | Experience | Projects | Education | Contact | Resume

  /** The view regions in the order `Object.values(views)` visits them. */
  const Views: seq<View> := [Home, Experience, Projects, Education, Contact, Resume]

  /** The key of each region in the `views` object. */
  function Name(v: View): string
  {
    match v
    case Home => "home"
    case Experience => "experience"
    case Projects => "projects"
    case Education => "education"
    case Contact => "contact"
    case Resume => "resume"
  }

  lemma ViewsComplete(v: View)
    ensures v in Views
  {
  }

  /** The position of a region in `Views`. */
  function Index(v: View): (i: nat)
    ensures i < |Views| && Views[i] == v
    ensures forall j :: 0 <= j < |Views| && Views[j] == v ==> j == i
  {
    match v
    case Home => 0
    case Experience => 1
    case Projects => 2
    case Education => 3
    case Contact => 4
    case Resume => 5
  }

  lemma NameInjective(v: View, w: View)
    ensures Name(v) == Name(w) <==> v == w
  {
  }

  /** `views[id]` restricted to the object's own keys. */
  function Lookup(id: string): Option<View>
  {
    if id == "home" then Some(Home)
    else if id == "experience" then Some(Experience)
    else if id == "projects" then Some(Projects)
    else if id == "education" then Some(Education)
    else if id == "contact" then Some(Contact)
    else if id == "resume" then Some(Resume)
    else None
  }

  /** The lookup finds a region exactly when the id is that region's key. */
  lemma LookupSpec(id: string)
    ensures Lookup(id).Some? ==> Name(Lookup(id).value) == id
    ensures Lookup(id).None? <==> forall v: View :: Name(v) != id
  {
  }

  /** `s.replace(c, '')` with a one-character string pattern: only the first occurrence goes. */
  function RemoveFirst(s: string, c: char): string
  {
    if s == [] then [] else if s[0] == c then s[1..] else [s[0]] + RemoveFirst(s[1..], c)
  }

  /** Without `c` the string is unchanged. */
  lemma {:induction false} RemoveFirstAbsent(s: string, c: char)
    requires c !in s
    ensures RemoveFirst(s, c) == s
  {
    if s != [] {
      RemoveFirstAbsent(s[1..], c);
    }
  }

  /** With `c` first at `i`, exactly that occurrence is dropped. */
  lemma {:induction false} RemoveFirstAt(s: string, c: char, i: nat)
    requires i < |s| && s[i] == c && c !in s[..i]
    ensures RemoveFirst(s, c) == s[..i] + s[i + 1..]
  {
    if i > 0 {
      assert s[0] == s[..i][0];
      assert s[1..][..i - 1] == s[1..i];
      RemoveFirstAt(s[1..], c, i - 1);
      assert s[..i] == [s[0]] + s[1..i];
    }
  }

  /** `location.hash.replace('#', '') || 'home'`. */
  function Fragment(hash: string): string
  {
    var f := RemoveFirst(hash, '#');
    if f == "" then "home" else f
  }

  /** The view that `(views[hash] || views.home)` un-hides, read with own keys only. */
  function Resolve(hash: string): View
  {
    match Lookup(Fragment(hash))
    case None => Home
    case Some(v) => v
  }

  /** The region the fragment names exactly, with no fallback: the test `hash === 'projects'` and its kin. */
  function Named(hash: string): Option<View>
  {
    Lookup(Fragment(hash))
  }

  /** The fragment names `v` exactly when it is `v`'s key. */
  lemma NamedIff(hash: string, v: View)
    ensures Named(hash) == Some(v) <==> Fragment(hash) == Name(v)
  {
  }

  /** `a.getAttribute('href') === '#' + id`. */
  predicate TabSelected(href: string, id: string)
  {
    href == "#" + id
  }

  /** The fragment of `#id` is `id` for any non-empty `id`: only the leading `#` is removed, so `#a#b` gives `a#b`. */
  lemma FragmentOfHash(id: string)
    requires id != ""
    ensures Fragment("#" + id) == id
  {
    assert ("#" + id)[0] == '#';
    assert ("#" + id)[1..] == id;
  }

  /** An empty hash, or a lone `#`, is the home view. */
  lemma EmptyHashIsHome()
    ensures Fragment("") == "home" && Fragment("#") == "home"
    ensures Resolve("") == Home && Resolve("#") == Home
  {
    assert RemoveFirst("#", '#') == "";
  }

  /** Linking to a view's own name shows that view. */
  lemma ResolveName(v: View)
    ensures Resolve("#" + Name(v)) == v
  {
    FragmentOfHash(Name(v));
  }

  /** An id that names no region falls back to home. */
  lemma UnknownIsHome(hash: string)
    requires forall v: View :: Name(v) != Fragment(hash)
    ensures Resolve(hash) == Home
  {
    LookupSpec(Fragment(hash));
  }

  /**
   * When every tab links to `#` plus a view's name, an unknown id selects no tab even though the
   * home view is shown; a known id selects exactly the tabs linking to that view.
   */
  lemma TabsFollowFragment(hrefs: seq<string>, hash: string)
    requires forall i :: 0 <= i < |hrefs| ==> exists v: View :: hrefs[i] == "#" + Name(v)
    ensures Lookup(Fragment(hash)).None? ==> forall i :: 0 <= i < |hrefs| ==> !TabSelected(hrefs[i], Fragment(hash))
    ensures Lookup(Fragment(hash)).Some? ==>
      forall i :: 0 <= i < |hrefs| ==> (TabSelected(hrefs[i], Fragment(hash)) <==> hrefs[i] == "#" + Name(Resolve(hash)))
  {
    var f := Fragment(hash);
    LookupSpec(f);
    forall i | 0 <= i < |hrefs| && TabSelected(hrefs[i], f)
      ensures Lookup(f).Some?
    {
      var v: View :| hrefs[i] == "#" + Name(v);
      assert ("#" + Name(v))[1..] == Name(v);
      assert Name(v) == f;
    }
    if Lookup(f).Some? {
      assert Name(Resolve(hash)) == f;
    }
  }

  // ---------------------------------------------------------------- the lookup as written

  /**
   * `views` is a plain object, so `views[id]` also finds the members every object inherits from
   * `Object.prototype`. Each of them is truthy.
   */
  const InheritedKeys: set<string> := {
    "constructor", "__proto__", "hasOwnProperty", "isPrototypeOf", "propertyIsEnumerable",
    "toLocaleString", "toString", "valueOf", "__defineGetter__", "__defineSetter__",
    "__lookupGetter__", "__lookupSetter__"}

  datatype Found = Own(view: View) | Inherited | Missing

  /** `views[id]` as the engine reads it. */
  function LookupAsWritten(id: string): (r: Found)
    ensures r.Own? <==> Lookup(id).Some?
    ensures r.Inherited? <==> id in InheritedKeys
  {
    match Lookup(id)
    case Some(v) => Own(v)
    case None => if id in InheritedKeys then Inherited else Missing
  }

  /**
   * The regions left un-hidden by `route` as written: all are hidden first, then
   * `(views[hash] || views.home).hidden = false` un-hides the region found, if it is one.
   */
  function ShownAsWritten(hash: string): set<View>
  {
    match LookupAsWritten(Fragment(hash))
    case Own(v) => {v}
    case Inherited => {}
    case Missing => {Home}
  }

  /** With `#constructor` every region stays hidden: the page is blank. */
  lemma ConstructorBlanksPage()
    ensures ShownAsWritten("#constructor") == {}
  {
    FragmentOfHash("constructor");
  }

  /** For any other id the code as written shows exactly the corrected choice. */
  lemma AsWrittenAgrees(hash: string)
    requires Fragment(hash) !in InheritedKeys
    ensures ShownAsWritten(hash) == {Resolve(hash)}
  {
  }
}
