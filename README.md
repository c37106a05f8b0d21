# Portfolio pages

A model of the client-side logic of a static portfolio site. `app.js` and `js/app.js` drive the
single-page portfolio and carry the same behaviour; `main.js` drives a separate project page.
Between them they implement:

- hash routing over six view regions (home, experience, projects, education, contact, resume);
- a project grid, filtered by a tag chip and a case-insensitive search, and sorted by title, by
  year or with favourites first;
- a favourites set kept in `localStorage`;
- the tag chips, the experience filter, the summary counters, the resume excerpt and the
  case-study dialog;
- a keyboard chord (`g` then a letter);
- two different theme toggles;
- an HTML escaper;
- on the project page, cards with optional links, thumbnail and tags.

The modules follow the pieces of the scripts:

- `Text`: lower-casing, `includes`, `join`, code point order.
- `Html`: the escaper, with a decoder.
- `Seqs`: `Array.prototype.filter`.
- `Sorting`: `Array.prototype.sort` as a stable sort by key, both as a function and in place on an
  array.
- `Json`: `JSON.stringify` of a string array and the parser that reads it back.
- `Favorites`: the favourites `Set`.
- `Content`: the data records and the pure rules over them.
- `Routing`: the hash router.
- `Keys`: the keydown handler.
- `Theme`: both theme toggles.
- `Portfolio`: the portfolio page. Its state is a class `Page`, and its event handlers are methods.
- `MainPage`: the project page's cards and its theme button.

Browser state is modelled as class fields:

- `localStorage` is a `map<string, string>`;
- `location.hash` is a string;
- the `hidden`, `aria-selected` and `aria-pressed` flags are sequences of booleans;
- what each render leaves on screen is the list of records it shows.

A JavaScript `Set` is a list without duplicates in insertion order, which is the order
`Array.from` gives.

## Model

| member | source | states |
|---|---|---|
| Text.Lower | js/app.js:75 | lower-casing keeps the length, leaves no capital `A`–`Z`, turns each capital into its small letter in place and keeps every other character |
| Text.Includes | app.js:137 | `t.includes(q)`; `Text.EmptyIncluded`, `Text.LowerIncludes` and `Text.JoinContains` state its properties |
| Text.LowerIdempotent | app.js:132 | lower-casing an already lower-cased query changes nothing |
| Text.EmptyIncluded | app.js:137 | the empty string is included in every text |
| Text.LowerIncludes | app.js:137 | a substring stays a substring after both sides are lower-cased |
| Text.Join | app.js:137 | `xs.join(sep)`; `Text.JoinEmptyIff`, `Text.JoinSnoc` and `Text.JoinContains` state its properties |
| Text.JoinEmptyIff | main.js:32-36 | a join of non-empty pieces is empty exactly when there are no pieces |
| Text.JoinSnoc | main.js:31 | appending a piece appends the separator and the piece, or just the piece to an empty list |
| Text.JoinSnocPlain | main.js:24 | with an empty separator, appending a piece appends exactly that piece |
| Text.JoinContains | app.js:137 | every piece occurs in the join |
| Text.LexLe | app.js:139 | the code point order standing for `localeCompare` and the default `sort()`; `Text.LexLeTotal`, `Text.LexLeTransitive` and `Text.LexLeAntisymmetric` make it a total order |
| Text.LexLeTotal | app.js:113 | any two strings are comparable in code point order |
| Text.LexLeTransitive | app.js:113 | code point order is transitive |
| Text.LexLeAntisymmetric | app.js:139 | two strings ordered both ways are equal |
| Html.Esc | app.js:239 | definition of `esc`; its properties are `Html.EscCharMap`, `Html.EscAppend`, `Html.EscNoRawSpecials`, `Html.EscRoundTrip` and `Html.EscInjective` |
| Html.EscChar | app.js:239 | the replacement of one character; `Html.EscCharMap` states the map |
| Html.EscAppend | app.js:239 | escaping distributes over concatenation |
| Html.EscCharMap | app.js:239 | `& < > " '` become `&amp; &lt; &gt; &quot; &#39;`, and every other character is kept |
| Html.EscPlain | main.js:51-55 | a text with none of the five characters is unchanged |
| Html.EscNoRawSpecials | app.js:239 | the escaped text holds no raw `<`, `>`, `"` or `'` |
| Html.UnescapeStep | js/app.js:168 | decoding the escape of one character followed by escaped text reads back that character |
| Html.EscRoundTrip | js/app.js:168 | decoding the escaped text gives back the original |
| Html.EscInjective | main.js:51-55 | different texts escape differently |
| Seqs.Filter | app.js:135-138 | definition of `filter`; its properties are `Seqs.FilterMembers`, `Seqs.FilterIsSubseq`, `Seqs.FilterMultiset` and `Seqs.FilterAppend` |
| Seqs.FilterSingle | app.js:135-138 | a one-element list is kept whole or dropped whole |
| Seqs.FilterAppend | app.js:135-138 | filtering distributes over concatenation |
| Seqs.FilterIsSubseq | app.js:135-138 | the filtered list is an order-preserving subsequence of the input |
| Seqs.FilterMembers | app.js:135-138 | an element is kept iff it is in the input and passes the test |
| Seqs.FilterSatisfies | app.js:135-138 | every kept element passes the test |
| Seqs.FilterKeepsAll | js/app.js:40 | a test that every element passes keeps the whole list in order |
| Seqs.FilterSame | js/app.js:78 | two tests that agree on every element keep the same list |
| Seqs.FilterMultiset | app.js:135-138 | each passing element keeps its count and each failing element disappears |
| Sorting.KeyLeTotal | app.js:139-141 | any two sort keys are comparable |
| Sorting.KeyLeTransitive | app.js:139-141 | the key order is transitive |
| Sorting.Insert | app.js:139-141 | one insertion step of the sort; its properties are `Sorting.InsertMultiset`, `Sorting.InsertSorted`, `Sorting.InsertAt` and `Sorting.InsertKeepsEqualKeysInOrder` |
| Sorting.SortBy | app.js:139-141 | definition of a stable sort by key; its properties are `Sorting.SortBySorted`, `Sorting.SortByPermutes` and `Sorting.SortByStable` |
| Sorting.InsertMultiset | app.js:139-141 | one insertion step adds exactly the inserted element |
| Sorting.InsertSorted | app.js:139-141 | inserting into a sorted list leaves it sorted |
| Sorting.SortBySorted | app.js:139-141 | the sort result is ordered by key |
| Sorting.SortByPermutes | app.js:139-141 | the sort result is a permutation of its input |
| Sorting.InsertKeepsEqualKeysInOrder | app.js:139-141 | an insertion keeps the order of the elements with any one key |
| Sorting.SortByStable | app.js:139-141 | the sort is stable: elements with equal keys keep their input order |
| Sorting.InsertAt | app.js:139-141 | an insertion puts the element just after the last element whose key is not greater |
| Sorting.ShiftRight | app.js:139-141 | the inner loop of the in-place sort moves the greater elements one slot right and returns the hole |
| Sorting.InsertInPlace | app.js:139-141 | one in-place pass leaves the prefix equal to the functional insertion step and the rest unchanged |
| Sorting.SortInPlace | app.js:139-141 | `items.sort(cmp)` leaves in the array the stable sort of what it held |
| Json.Stringify | app.js:170 | definition of `JSON.stringify` of a string array; `Json.ParseStringify` reads it back |
| Json.Parse | app.js:15 | the reader of a stored string array, `None` on text it cannot read; `Json.ParseStringify` is its round trip |
| Json.EscapeString | app.js:170 | the body of a written string literal; `Json.ParseCharsRoundTrip` reads it back |
| Json.Quote | app.js:170 | one written string literal; `Json.ParseItemsLast` and `Json.ParseItemsCons` read it back |
| Json.ParseItems | app.js:15 | the reader of the array items after `[`; `Json.ParseItemsRoundTrip` reads every written item text back |
| Json.HexRoundTrip | app.js:170 | each hex digit written for a control character reads back as its value |
| Json.CharAtEscape | app.js:170 | one escaped character of a string literal reads back as that character, with its length |
| Json.ParseChars | app.js:15 | the reader of a string body always consumes input |
| Json.ParseCharsRoundTrip | app.js:15 | a written string body reads back, leaving exactly what followed its closing quote |
| Json.QuotedJoinHead | app.js:170 | the written items are the first literal, then a comma and the rest when there are more |
| Json.ParseItemsLast | app.js:15 | a last literal before `]` reads as a one-item list |
| Json.ParseItemsCons | app.js:15 | a literal, a comma and readable items read as that literal followed by those items |
| Json.ItemsTextJoin | app.js:170 | the comma-joined literals and `]` are the item text built entry by entry |
| Json.ParseItemsRoundTrip | app.js:15 | the item text of a non-empty list reads back as that list |
| Json.ParseStringify | app.js:170 | `JSON.parse(JSON.stringify(xs))` gives back `xs`, in order |
| Favorites.Toggle | app.js:169 | definition of the star toggle; its properties are `Favorites.ToggleFlips`, `Favorites.ToggleNoDup` and `Favorites.ToggleTwice` |
| Favorites.Dedup | app.js:15 | definition of `new Set(list)`; its properties are `Favorites.DedupSpec` and `Favorites.DedupKeepsDistinct` |
| Favorites.Persisted | app.js:170 | the text stored for the favourites; `Favorites.RestorePersisted` reads it back |
| Favorites.Restore | app.js:15 | the favourites read from storage; its properties are `Favorites.RestoreNoDup`, `Favorites.RestorePersisted` and `Favorites.RestoreNothing` |
| Favorites.ToggleFlips | app.js:169 | a toggle flips the membership of the clicked id and of no other id |
| Favorites.FilterNoDup | app.js:169 | deleting from a list without duplicates leaves none |
| Favorites.ToggleNoDup | app.js:169 | the favourites keep each id once |
| Favorites.ToggleTwice | js/app.js:107 | toggling an id twice restores the set, and also the order when the id was absent |
| Favorites.ToggleAllParity | app.js:169 | after any run of toggles an id is a favourite iff its start membership differs from the parity of its clicks |
| Favorites.DedupSpec | app.js:15 | `new Set(list)` holds each element once and exactly the list's elements |
| Favorites.DedupKeepsDistinct | app.js:15 | `new Set(list)` of a list without duplicates is that list |
| Favorites.RestoreNoDup | app.js:15 | whatever is read from storage holds each id once |
| Favorites.RestorePersisted | app.js:170 | what a toggle stores is what the next page load reads back |
| Favorites.RestoreNothing | app.js:15 | with nothing stored the favourites start empty |
| Content.ChipMatches | app.js:136 | the chip half of the filter; `Content.VisibleMembers` and `Content.MissingSearchKeepsChipMatches` state its role |
| Content.QueryMatches | app.js:137 | the search half of the filter; `Content.SearchFindsFields` and `Content.EmptyGuardRedundant` state its meaning |
| Content.Included | app.js:136-137 | both halves of the filter; `Content.VisibleMembers` shows a project iff it is loaded and `Included` |
| Content.Selector | app.js:135-138 | the filter callback; `Content.VisibleMembers` states what it keeps |
| Content.SearchText | app.js:137 | the text a search looks in; `Content.SearchFindsFields` and `Content.EmptyGuardRedundant` state its meaning |
| Content.ActiveQuery | js/app.js:75 | the lower-cased query; `Content.SearchFindsFields` and `Content.MissingSearchKeepsChipMatches` state its meaning |
| Content.SearchFindsFields | app.js:137 | a query found, ignoring case, inside the title, the summary or one tag finds the project, whatever either side capitalises |
| Content.EmptyGuardRedundant | app.js:137 | the `!q` guard only short-cuts, since the empty query is included in every text |
| Content.MissingSearchKeepsChipMatches | js/app.js:75-78 | a missing search value keeps exactly the projects the chip keeps |
| Content.OrderOf | app.js:134 | the `#proj-sort` value read as an order; `Content.UnsortedKeepsLoadOrder` states that any other value sorts nothing |
| Content.YearOr0 | app.js:140 | the year, 0 when missing; `Content.RecentYearsNonIncreasing` states the order it gives |
| Content.Starred | app.js:141 | `favorites.has(id)` as a number; `Content.StarsFavouritesFirst` states the order it gives |
| Content.TitleCompare | app.js:139 | `localeCompare` as code point order; `Content.AlphaTitlesAscending` states the order it gives |
| Content.Compare | app.js:139-141 | the three comparators; `Content.CompareAgreesWithKey` ties each to its sort key |
| Content.SortKey | app.js:139-141 | the sort key of each order; `Content.CompareAgreesWithKey` and `Content.VisibleOrdered` state its meaning |
| Content.Visible | app.js:135-141 | the projects the grid shows; its properties are `Content.VisibleMembers`, `Content.VisibleOrdered`, `Content.VisibleStable` and `Content.UnsortedKeepsLoadOrder` |
| Content.CompareAgreesWithKey | app.js:139-141 | each comparator says `<= 0` exactly when its sort key is ordered |
| Content.VisibleMembers | app.js:135-141 | a project is shown iff it is loaded and passes both the chip and the search; sorting drops and repeats none |
| Content.UnsortedKeepsLoadOrder | app.js:135-141 | an unknown sort value shows the filter result in load order |
| Content.VisibleOrdered | app.js:139-141 | under each order every shown project compares at or before every later one |
| Content.RecentYearsNonIncreasing | app.js:140 | `recent` years never increase, a missing year counting as 0 |
| Content.StarsFavouritesFirst | app.js:141 | `stars` puts every favourite before every other project, with years non-increasing in each group |
| Content.AlphaTitlesAscending | app.js:139 | `alpha` titles ascend |
| Content.VisibleStable | js/app.js:79-81 | the projects that tie under an order keep their filter order |
| Content.StarsCompareAsWritten | app.js:141 | the `stars` comparator as written, `NaN` for a missing year; `Content.StarsAgreeWithYears` and `Content.StarsAsWrittenInconsistent` compare it with the corrected one |
| Content.SortCompareValue | app.js:141 | how `sort` reads a comparator result, `NaN` as equal; used by `Content.StarsAsWrittenInconsistent` |
| Content.StarsAgreeWithYears | app.js:141 | where both years are present, the comparator as written and the corrected one agree |
| Content.StarsAsWrittenInconsistent | app.js:141 | with a missing year the comparator as written is not transitive |
| Content.TagFilterExample | app.js:136 | the chip `ev` keeps exactly the two `ev` projects, in order |
| Content.ExperienceSelector | js/app.js:40 | the experience filter callback; `Content.ExperienceFilterSpec` states what it keeps |
| Content.ExperienceFilterSpec | js/app.js:40 | `all` keeps every role in order; any other value keeps exactly the roles with that tag, in order |
| Content.TotalYears | js/app.js:22 | the years counter; its properties are `Content.TotalYearsAppend` and `Content.TotalYearsMissing` |
| Content.TotalAwards | js/app.js:23 | the awards counter; its properties are `Content.TotalAwardsAppend` and `Content.TotalAwardsBound` |
| Content.TotalYearsAppend | js/app.js:22 | the years counter adds up over any split of the list |
| Content.TotalYearsMissing | js/app.js:22 | roles without years add nothing |
| Content.TotalAwardsAppend | js/app.js:23 | the awards counter adds up over any split of the list |
| Content.TotalAwardsBound | js/app.js:23 | no entry has more awards than the counter |
| Content.ElemsMembers | js/app.js:24 | the members of a list's set are exactly its elements |
| Content.ElemsSnoc | js/app.js:24 | adding an element adds exactly that member |
| Content.TagUnionMembers | js/app.js:24 | a tag is in the union iff some project carries it |
| Content.WithTag | app.js:60 | `tags.add(t)`; `Content.WithTagSpec` states its meaning |
| Content.WithTags | app.js:60 | one project's tags added in turn; `Content.WithTagsDistinct` and `Content.WithTagsMembers` state its meaning |
| Content.WithProjectTags | app.js:60 | every project's tags added in turn; `Content.WithProjectTagsDistinct` and `Content.WithProjectTagsMembers` state its meaning |
| Content.WithTagSpec | app.js:60 | `tags.add(t)` keeps the earlier members in place, holds each once, and adds exactly `t` |
| Content.WithTagsDistinct | app.js:60 | adding one project's tags keeps the earlier members first and holds each once |
| Content.WithTagsMembers | app.js:60 | adding one project's tags adds exactly those tags |
| Content.WithProjectTagsDistinct | js/app.js:24 | collecting every project's tags keeps the earlier members first and holds each once |
| Content.WithProjectTagsMembers | js/app.js:24 | the collected set is the old set plus every project's tags |
| Content.TagKey | js/app.js:60 | the sort key of the default `sort()` on tags; `Portfolio.SortedTags` sorts by it |
| Content.ChipLabels | js/app.js:60 | the chip labels; `Content.ChipLabelsSpec` states their order and contents |
| Content.ChipLabelsSpec | js/app.js:60 | the chips are `All` then every tag once, in strictly ascending order |
| Content.ActiveChip | app.js:133 | the active chip; `Content.ActiveChipAtRender` and `Content.ActiveChipAfterClick` state its value after a render and after a click |
| Content.PressedAtRender | js/app.js:62 | the `aria-pressed` flags as rendered; `Content.ActiveChipAtRender` states that `All` is then active |
| Content.PressedAfterClick | js/app.js:63-65 | the flags after a click on chip `k`; `Content.ActiveChipAfterClick` states that chip `k` is then active |
| Content.FirstPressed | app.js:133 | the first pressed chip, or none when no chip is pressed |
| Content.ActiveChipAtRender | js/app.js:62 | right after the chips are rendered the active chip is `All` |
| Content.ActiveChipAfterClick | js/app.js:63-65 | after a click on chip `k` the active chip is chip `k` (`All` when its label is empty) |
| Content.ResumeProjects | js/app.js:164 | the resume shows the first `min(n, 6)` projects, as they are |
| Content.Coursework | js/app.js:139 | the listed coursework; `Content.CourseworkIgnoresLater` states its meaning |
| Content.CourseworkIgnoresLater | js/app.js:139 | only the first education entry's coursework is listed: changing or appending later entries changes nothing |
| Content.FindProject | js/app.js:115 | the lookup finds the first project with the id, or nothing iff no project has it |
| Routing.ViewsComplete | app.js:37 | every view is one of the six regions |
| Routing.Index | app.js:2-9 | each view has exactly one position among the regions |
| Routing.Name | app.js:2-9 | the key of each region in `views`; `Routing.NameInjective` states that keys identify views |
| Routing.NameInjective | app.js:2-9 | two views have the same key iff they are the same view |
| Routing.Lookup | app.js:38 | the corrected lookup of an id among the own views; `Routing.LookupSpec` states its meaning |
| Routing.LookupSpec | app.js:38 | the lookup finds a view exactly when the id is that view's key |
| Routing.RemoveFirst | app.js:36 | `replace('#', '')`; `Routing.RemoveFirstAbsent` and `Routing.RemoveFirstAt` state its meaning |
| Routing.RemoveFirstAbsent | app.js:36 | `replace('#', '')` leaves a text without `#` unchanged |
| Routing.RemoveFirstAt | app.js:36 | `replace('#', '')` removes exactly the first `#` |
| Routing.Named | app.js:41-44 | the view the fragment names exactly; `Routing.NamedIff` states its meaning |
| Routing.TabSelected | app.js:32 | the `aria-selected` test of one tab; `Routing.TabsFollowFragment` states which tabs it selects |
| Routing.NamedIff | app.js:41-44 | the fragment names a view exactly when it is that view's key |
| Routing.Fragment | app.js:36 | the fragment of the hash, `home` when empty; `Routing.FragmentOfHash` and `Routing.EmptyHashIsHome` state its meaning |
| Routing.Resolve | app.js:37-38 | the view shown for a hash; `Routing.ResolveName` and `Routing.UnknownIsHome` state its meaning |
| Routing.FragmentOfHash | app.js:36 | the fragment of `#id` is `id` for every non-empty `id`, further `#`s included |
| Routing.EmptyHashIsHome | app.js:36 | an empty hash and a lone `#` route home |
| Routing.ResolveName | app.js:76 | a hash naming a view shows that view |
| Routing.UnknownIsHome | app.js:38 | an id that names no view shows home |
| Routing.TabsFollowFragment | app.js:31-39 | an unknown id selects no tab, and a known id selects exactly the tabs linking to the shown view |
| Routing.LookupAsWritten | js/app.js:10 | the engine's `views[id]` finds an own view exactly when the corrected lookup does, and an inherited member exactly for the inherited names |
| Routing.ShownAsWritten | app.js:37-38 | the regions app.js un-hides; `Routing.ConstructorBlanksPage` and `Routing.AsWrittenAgrees` compare it with the corrected choice |
| Routing.ConstructorBlanksPage | app.js:38 | as written, `#constructor` leaves every region hidden |
| Routing.AsWrittenAgrees | app.js:37-38 | for every other id the regions shown as written are exactly the corrected choice |
| Keys.ChordTarget | app.js:74-75 | exactly the six letters map to a view |
| Keys.Dispatch | app.js:66-78 | the effect of a key; its properties are `Keys.SlashAndQuestionFirst`, `Keys.ArmKeys`, `Keys.ArmedNavigation` and `Keys.UnarmedNeverNavigates` |
| Keys.SlashAndQuestionFirst | app.js:67-70 | `/` and `?` are handled before the chord, whatever the flag |
| Keys.ArmKeys | app.js:71-72 | exactly `g` and `G` arm the chord |
| Keys.ArmedNavigation | js/app.js:32 | while armed, a key navigates iff it is one of the six letters in either case; any other key does nothing |
| Keys.UnarmedNeverNavigates | app.js:73 | without the flag no key navigates |
| Keys.ChordExample | app.js:71-76 | `G` then `P` goes to the projects view |
| Theme.InitialTheme | app.js:22-23 | the theme applied at start-up; `Theme.InitialThemeAfterStore`, `Theme.AppToggleSurvivesReload` and `Theme.MainToggleSurvivesReload` state its meaning |
| Theme.InitialThemeAfterStore | app.js:22-23 | a non-empty stored theme wins over the markup's; with the key removed, or `''` stored, the markup's theme stays |
| Theme.PersistAppTheme | app.js:26 | a non-empty theme is stored under `theme`, the empty theme removes the key, and no other key changes |
| Theme.NextAppTheme | app.js:25 | the portfolio toggle's next theme; `Theme.AppToggleAlternates` and `Theme.AppToggleSurvivesReload` state its meaning |
| Theme.AppToggleAlternates | js/app.js:6 | the toggle goes between `light` and the default, and any other theme, `dark` included, goes to `light` |
| Theme.AppToggleSurvivesReload | js/app.js:5-6 | what the toggle stores is what the next start applies; a toggle to the default removes the key, so the next start keeps the markup's theme |
| Theme.CurrentTheme | main.js:12 | the current theme of the project page; `Theme.CurrentThemeSettled` and `Theme.MainToggle` state its meaning |
| Theme.CurrentThemeSettled | main.js:12 | the current theme is never empty, is the applied one or the system's, and after a click is the clicked one whatever the system says |
| Theme.NextMainTheme | main.js:13 | the project page's next theme; `Theme.MainToggle` and `Theme.MainToggleAlternates` state its meaning |
| Theme.MainToggle | main.js:12-13 | the next theme is `light` iff the current one is `dark`, and otherwise `dark` |
| Theme.MainToggleAlternates | main.js:12-13 | after one click the system preference no longer matters and clicks alternate |
| Theme.MainFromLightSystem | main.js:8-15 | with nothing stored and a light system, two clicks give `dark` and then `light` |
| Theme.MainToggleSurvivesReload | main.js:8-14 | what the click stores is what the next start applies, whatever theme the markup sets |
| Portfolio.Stored | app.js:22 | `getItem`; `Portfolio.StoredAfterWrite` states its meaning |
| Portfolio.StoredAfterWrite | app.js:22 | `getItem` after `setItem` gives the value set, after `removeItem` nothing, and other keys are unaffected |
| Portfolio.FavoritesSurviveReload | app.js:15 | the favourites a star click stores are exactly the ones the next start-up reads |
| Portfolio.SortedTags | app.js:113 | `Array.from(tags).sort()` returns the tags in stable key order |
| Portfolio.ReadFavorites | app.js:15 | the favourites read at start-up are the restored list, each id once |
| Portfolio.Page.ShownProjects | app.js:132-141 | what `renderProjects` shows for the current controls; `Portfolio.Page.RenderProjects` puts it in the grid |
| Portfolio.Page.constructor | app.js:11-23 | the start state: the restored favourites, the stored theme applied over the markup's, no data yet, nothing rendered |
| Portfolio.Page.SelectTab | app.js:31-33 | each tab is selected exactly when its `href` is `#` plus the id |
| Portfolio.Page.Route | app.js:35-45 | exactly the resolved region is visible, the tabs follow the raw fragment, the named view shows current data, and no other view is re-rendered |
| Portfolio.Page.RenderNamed | app.js:41-44 | only the view the fragment names exactly is re-rendered |
| Portfolio.Page.ShowOnly | app.js:37-38 | every region except the shown one is hidden |
| Portfolio.Page.HashChange | app.js:46 | a new hash is routed: the resolved region shown, the tabs selected, only the named view re-rendered |
| Portfolio.Page.RenderProjects | js/app.js:73-82 | the grid shows the filtered projects in the order chosen by the controls |
| Portfolio.Page.RenderExperience | app.js:86-107 | the timeline shows exactly the roles that pass the filter, in order |
| Portfolio.Page.ShowRoles | app.js:88-107 | the timeline is cleared, then each kept role is appended in turn |
| Portfolio.Page.RenderEducation | app.js:205 | the coursework list is the first entry's coursework |
| Portfolio.Page.RenderResume | app.js:230 | the resume shows the first six projects |
| Portfolio.Page.RenderTagChips | app.js:111-126 | the chips are `All` and the sorted tags, and only `All` is pressed |
| Portfolio.Page.ClickChip | app.js:119-123 | after a click exactly that chip is pressed, and the grid is re-filtered by it |
| Portfolio.Page.Load | app.js:53-62 | the data are stored, the counters set, the tags collected, the chips rendered and the page routed, re-rendering only the named view |
| Portfolio.Page.Receive | js/app.js:20-25 | everything the load does before its final `route()` |
| Portfolio.Page.Store | js/app.js:20-24 | the data, the three counters and the tag set, which still holds each tag once |
| Portfolio.Page.CollectTags | app.js:60 | the tag set becomes the old set plus every project's tags, in first-seen order |
| Portfolio.Page.AddTags | app.js:60 | one project's tags are added in turn |
| Portfolio.Page.AddTag | app.js:60 | `tags.add(t)` appends `t` only when it is new |
| Portfolio.Page.ToggleStar | app.js:167-172 | the clicked id flips, no other id changes, the new set is stored, and the grid is re-rendered |
| Portfolio.Page.Search | js/app.js:70-75 | a search input re-renders the grid for the new query |
| Portfolio.Page.ChangeSort | js/app.js:71 | a sort change re-renders the grid in the new order |
| Portfolio.Page.ChangeExpFilter | js/app.js:36-40 | a filter change re-renders the timeline |
| Portfolio.Page.ToggleTheme | app.js:24-28 | the theme alternates between `light` and the default, and storage follows |
| Portfolio.Page.KeyDown | app.js:66-78 | the effect of a key on the focus, the help overlay, the chord flag and the hash; navigating does not disarm; a key that does not navigate, or navigates to the hash already shown, leaves the regions, tabs and every view as they were |
| Portfolio.Page.Respond | app.js:67-72 | `/` focuses the search and prevents the default, `?` flips the help overlay, `g` arms the chord; nothing else changes |
| Portfolio.Page.GoTo | app.js:76 | the hash becomes the target view's, which is then shown; assigning the same hash changes no region, tab or view; only the named view is re-rendered |
| Portfolio.Page.ChordTimeout | app.js:72 | the 800 ms timer disarms the chord |
| Portfolio.Page.HelpTimeout | app.js:82 | the 3500 ms timer hides the help overlay |
| Portfolio.Page.OpenModal | js/app.js:113-125 | the dialog shows the first project with the id; with none, nothing opens |
| Portfolio.Page.CloseModal | app.js:175 | a click on a `data-close` element closes the dialog |
| MainPage.TitleText | main.js:42 | `String(p.title)`, `undefined` when missing; `MainPage.CardHtml` escapes it |
| MainPage.Candidates | main.js:32-35 | the three links in script order; `MainPage.CardLinksSpec` states which are kept |
| MainPage.CardLinks | main.js:32-36 | the card's links; `MainPage.CardLinksSpec`, `MainPage.CardLinksMembers` and `MainPage.CardLinksOrdered` state them |
| MainPage.CardLinksSpec | main.js:32-36 | the links are Demo, Code and Case study, in that order, each kept iff its address is non-empty |
| MainPage.CardLinksMembers | main.js:32-36 | each link appears iff its field is non-empty, and no other link appears |
| MainPage.CardLinksOrdered | main.js:32-36 | the shown links keep the order Demo, Code, Case study |
| MainPage.Anchor | main.js:33-35 | every link's markup is non-empty, so none is dropped by `filter(Boolean)` |
| MainPage.LinksRow | main.js:36 | the shown links joined with ` · `; `MainPage.ParagraphIffLinks` states when it is empty |
| MainPage.LinksParagraph | main.js:46 | the links paragraph; `MainPage.ParagraphIffLinks` states when it is left out |
| MainPage.ParagraphIffLinks | main.js:46 | the links paragraph is left out iff the project has none of the three addresses |
| MainPage.Span | main.js:31 | one tag's span; `MainPage.SpanReadsBack` reads the tag back from it |
| MainPage.TagsHtml | main.js:31 | the tags' spans joined; `MainPage.TagsHtmlSnoc` and `MainPage.CardShowsTags` state its meaning |
| MainPage.TagsHtmlSnoc | main.js:31 | one span per tag, in tag order; no tags, no spans |
| MainPage.SpanReadsBack | main.js:31 | each tag's text reads back from its span, with no raw `<` or `>` in it |
| MainPage.Thumbnail | main.js:40 | the image appears iff `p.image` is non-empty |
| MainPage.CardHtml | main.js:30-49 | one card's markup; `MainPage.CardShowsTags`, `MainPage.ParagraphIffLinks` and `MainPage.Thumbnail` state what it shows |
| MainPage.CardShowsTags | main.js:30-49 | every tag's span is on the card |
| MainPage.Grid | main.js:24 | the grid's markup; `MainPage.GridSnoc` states it is one card per project, in order |
| MainPage.Cards | main.js:24 | one card per item; `MainPage.GridSnoc` states the grid it gives |
| MainPage.GridSnoc | main.js:24 | one card per project, in the order of the list |
| MainPage.ThemeSwitch.constructor | main.js:8-9 | a non-empty stored theme is applied at start |
| MainPage.ThemeSwitch.Toggle | main.js:11-16 | a click applies the opposite of the current theme and always stores it |
| MainPage.TwoClicks | main.js:8-16 | from a fresh start with a light system, two clicks give `dark` and then `light` |

## Left out

- DOM plumbing is not modelled: `querySelector`, event-listener registration, `focus()`, `showModal()`/`close()` and `innerHTML`. Each render's effect is the list of records it shows, or text for the project page's cards.
- Byte-exact markup is not modelled for the portfolio's renderers (`cardHtml`, the experience, education and resume templates, and the dialog body). The project page's card is modelled as text, but without the template's indentation and line breaks.
- Loading is not modelled: `fetch`, `Promise.all`, `r.json()` and the `.catch` warnings (app.js:49-63, main.js:19-28). The loaded lists are the inputs of `Portfolio.Page.Load` and `MainPage.Grid`. The guard `if (!grid) return` is not modelled.
- The timers (app.js:72,82,237) are explicit events: `ChordTimeout` and `HelpTimeout`. `flash` is not modelled.
- The footer year (`new Date().getFullYear()`) is not modelled, because it reads the clock.
- The contact form's `mailto:` URL and the clipboard write are not modelled, because they are foreign calls.
- `matchMedia` is the boolean parameter `systemDark`.
- Content.TotalYears: a `years` field holding a JSON string would make `+` concatenate text; the model takes years as numbers only, and as exact reals without the rounding of IEEE doubles.
- JSON is modelled only as far as needed. `JSON.parse` of the stored favourites reads only the compact form of a string array, which is what `JSON.stringify` writes, and returns `None` on any other text. `JSON.parse` on text it cannot read throws and stops the script, so `Portfolio.Page.constructor` requires that the stored text parse.
- Text functions are simplified. `toLowerCase` changes only `A`–`Z`. `localeCompare` and the default `sort()` of the tags are both modelled as code point order.
- A missing text field of a record is "", and a missing list is `[]`. The one exception is the project page's title, where `escapeHtml(undefined)` gives `undefined`.
- Project ids are strings. The favourites hold the `data-id` strings while `has(p.id)` uses the raw JSON id; that number-versus-string mismatch is not modelled.
- app.js reads the search box without `|| ''` (app.js:132). The model follows the null-safe read of js/app.js:75, because with a value present the two agree.
- `Portfolio.Page.constructor` does not call `Route`. The script's first `route()` (app.js:47) is the client calling `Portfolio.Page.Route` after the constructor, as it calls `Load` when the data arrive.
- `Keys.Dispatch`: the lookup `map[e.key.toLowerCase()]` finds only the six own letters. No key name lower-cases to an inherited member such as `constructor`.
- `Portfolio.Page.RenderNamed`: of app.js's `views[hash].focus?.()` (app.js:40), only the rendering is modelled.
- `Portfolio.Page.OpenModal`: with no matching project `p.title` throws, and the model leaves the dialog as it was.
- The hrefs of the card links, the image address and `data-id` are put into the markup unescaped, as in the source. That injection surface is not analysed.

## Findings

| source | as written | input that shows it | evidently intended | confidence | as-written member | corrected member |
|---|---|---|---|---|---|---|
| app.js:38 | `views[hash]` on a plain object also finds inherited members such as `constructor`, which are truthy but are not regions | `location.hash = '#constructor'` hides every region and un-hides none, so the page is blank | an unknown id shows home | not executed | Routing.ConstructorBlanksPage | Routing.UnknownIsHome |
| app.js:141 | the `stars` tie-break `b.year - a.year` is `NaN` when a year is missing, and the sort reads `NaN` as "equal" | years 2020, missing and 2010: the missing one ties with both ends, but 2020 sorts before 2010, so the comparator is inconsistent and the order depends on the engine | a missing year counts as 0, as it does for `recent` | not executed | Content.StarsAsWrittenInconsistent | Content.StarsFavouritesFirst |
