/**
 * The favourites: a JavaScript `Set` of project ids, kept as a list without duplicates in
 * insertion order (the order `Array.from` gives), and its stored form.
 */
module Favorites {
  import opened Options
  import opened Seqs
  import Json

  predicate NoDup(s: seq<string>)
  {
    forall i, j :: 0 <= i < j < |s| ==> s[i] != s[j]
  }

  function Other(id: string): string -> bool
  {
    x => x != id
  }

  /** `favorites.has(id) ? favorites.delete(id) : favorites.add(id)`. */
  function Toggle(favs: seq<string>, id: string): seq<string>
  {
    if id in favs then Filter(favs, Other(id)) else favs + [id]
  }

  /** Toggling flips the membership of `id` and of nothing else. */
  lemma ToggleFlips(favs: seq<string>, id: string, x: string)
    ensures x in Toggle(favs, id) <==> (if x == id then id !in favs else x in favs)
  {
    FilterMembers(favs, Other(id), x);
  }

  lemma {:induction false} FilterNoDup(s: seq<string>, p: string -> bool)
    requires NoDup(s)
    ensures NoDup(Filter(s, p))
  {
    if s != [] {
      FilterNoDup(s[1..], p);
      FilterMembers(s[1..], p, s[0]);
      assert s[0] !in s[1..];
    }
  }

  /** The list stays free of duplicates, as a `Set` is. */
  lemma ToggleNoDup(favs: seq<string>, id: string)
    requires NoDup(favs)
    ensures NoDup(Toggle(favs, id))
  {
    if id in favs {
      FilterNoDup(favs, Other(id));
    }
  }

  /** Toggling the same id twice restores the set; when the id was absent, the list too. */
  lemma ToggleTwice(favs: seq<string>, id: string)
    requires NoDup(favs)
    ensures forall x :: x in Toggle(Toggle(favs, id), id) <==> x in favs
    ensures id !in favs ==> Toggle(Toggle(favs, id), id) == favs
    ensures id in favs ==> Toggle(Toggle(favs, id), id) == Filter(favs, Other(id)) + [id]
  {
    forall x ensures x in Toggle(Toggle(favs, id), id) <==> x in favs {
      ToggleFlips(favs, id, x);
      ToggleFlips(Toggle(favs, id), id, x);
    }
    if id !in favs {
      FilterAppend(favs, [id], Other(id));
      assert forall i :: 0 <= i < |favs| ==> Other(id)(favs[i]);
      FilterKeepsAll(favs, Other(id));
      assert Filter([id], Other(id)) == [];
    } else {
      FilterMembers(favs, Other(id), id);
    }
  }

  /** Toggling each id of `ids` in turn. */
  function ToggleAll(favs: seq<string>, ids: seq<string>): seq<string>
  {
    if ids == [] then favs else Toggle(ToggleAll(favs, ids[..|ids| - 1]), ids[|ids| - 1])
  }

  /** After a sequence of toggles an id is a favourite iff it was one and was toggled an even number of times, or was not and was toggled an odd number of times. */
  lemma {:induction false} ToggleAllParity(favs: seq<string>, ids: seq<string>, x: string)
    ensures x in ToggleAll(favs, ids) <==> (x in favs) != (multiset(ids)[x] % 2 == 1)
  {
    if ids != [] {
      var init, last := ids[..|ids| - 1], ids[|ids| - 1];
      ToggleAllParity(favs, init, x);
      ToggleFlips(ToggleAll(favs, init), last, x);
      assert ids == init + [last];
    }
  }

  /** `new Set(list)`: the first occurrence of each id, in order. */
  function Dedup(xs: seq<string>): seq<string>
  {
    if xs == [] then []
    else if xs[|xs| - 1] in Dedup(xs[..|xs| - 1]) then Dedup(xs[..|xs| - 1])
    else Dedup(xs[..|xs| - 1]) + [xs[|xs| - 1]]
  }

  /** The result has no duplicates and the same members as the input. */
  lemma {:induction false} DedupSpec(xs: seq<string>)
    ensures NoDup(Dedup(xs))
    ensures forall x :: x in Dedup(xs) <==> x in xs
  {
    if xs != [] {
      var init, last := xs[..|xs| - 1], xs[|xs| - 1];
      DedupSpec(init);
      assert xs == init + [last];
      var d := Dedup(init);
      if last !in d {
        forall i, j | 0 <= i < j < |d + [last]|
          ensures (d + [last])[i] != (d + [last])[j]
        {
          if j == |d| {
            assert (d + [last])[i] == d[i];
          }
        }
      }
    }
  }

  /** A list that already has no duplicates is kept as it is. */
  lemma {:induction false} DedupKeepsDistinct(xs: seq<string>)
    requires NoDup(xs)
    ensures Dedup(xs) == xs
  {
    if xs != [] {
      var init, last := xs[..|xs| - 1], xs[|xs| - 1];
      assert NoDup(init) by {
        forall i, j | 0 <= i < j < |init| ensures init[i] != init[j] {
          assert init[i] == xs[i] && init[j] == xs[j];
        }
      }
      DedupKeepsDistinct(init);
      assert last !in Dedup(init) by {
        forall i | 0 <= i < |init| ensures init[i] != last {
          assert init[i] == xs[i];
        }
      }
      assert Dedup(xs) == Dedup(init) + [last];
      assert xs == init + [last];
    }
  }

  /** `JSON.stringify(Array.from(favorites))`: the text stored under `'favorites'`. */
  function Persisted(favs: seq<string>): string
  {
    Json.Stringify(favs)
  }

  /**
   * `new Set(JSON.parse(localStorage.getItem('favorites') || '[]'))`: `None` stands for the
   * exception `JSON.parse` throws on text it cannot read.
   */
  function Restore(stored: Option<string>): Option<seq<string>>
  {
    var text := if stored == None || stored.value == "" then "[]" else stored.value;
    match Json.Parse(text)
    case None => None
    case Some(ids) => Some(Dedup(ids))
  }

  /** Whatever is read back holds each id once. */
  lemma RestoreNoDup(stored: Option<string>)
    requires Restore(stored).Some?
    ensures NoDup(Restore(stored).value)
  {
    var text := if stored == None || stored.value == "" then "[]" else stored.value;
    DedupSpec(Json.Parse(text).value);
  }

  /** What a toggle writes is what the next page load reads back. */
  lemma RestorePersisted(favs: seq<string>)
    requires NoDup(favs)
    ensures Restore(Some(Persisted(favs))) == Some(favs)
  {
    Json.ParseStringify(favs);
    DedupKeepsDistinct(favs);
  }

  /** With nothing stored, the page starts with no favourites. */
  lemma RestoreNothing()
    ensures Restore(None) == Some([])
  {
    assert Json.Parse("[]") == Some([]);
  }
}
