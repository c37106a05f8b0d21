/**
 * The project page script: each project of `projects.json` becomes a card (an optional thumbnail,
 * the escaped title and summary, one escaped span per tag, and a row of the links the project
 * has), and a button switches the theme between `'dark'` and `'light'`.
 */
module MainPage {
  import opened Options
  import opened Seqs
  import opened Text
  import opened Html
  import Theme

  /**
   * One entry of `projects.json`. A missing text field is "", a missing `tags` is `[]`; `title`
   * keeps its absence, because `escapeHtml(p.title)` turns a missing title into the text "undefined".
   */
  datatype Item = Item(
    title: Option<string>, summary: string, image: string,
    demo: string, repo: string, caseStudy: string, tags: seq<string>)

  /** `String(p.title)`. */
  function TitleText(title: Option<string>): string
  {
    match title
    case None => "undefined"
    case Some(t) => t
  }

  // ---------------------------------------------------------------- links

  datatype Link = Link(caption: string, href: string)

  /** `p.demo && ...`: a link survives `.filter(Boolean)` when its address is truthy. */
  predicate Present(l: Link)
  {
    l.href != ""
  }

  /** The three links the card may offer, in the order the script lists them. */
  function Candidates(p: Item): seq<Link>
  {
    [Link("Demo", p.demo), Link("Code", p.repo), Link("Case study", p.caseStudy)]
  }

  /** The links shown on the card. */
  function CardLinks(p: Item): seq<Link>
  {
    Filter(Candidates(p), Present)
  }

  /** A caption's place in the order Demo, Code, Case study. */
  function Rank(caption: string): int
  {
    if caption == "Demo" then 0 else if caption == "Code" then 1 else 2
  }

  /** The shown links are the candidates with a non-empty address, each kept or dropped on its own. */
  lemma CardLinksSpec(p: Item)
    ensures CardLinks(p)
         == (if p.demo != "" then [Link("Demo", p.demo)] else [])
          + (if p.repo != "" then [Link("Code", p.repo)] else [])
          + (if p.caseStudy != "" then [Link("Case study", p.caseStudy)] else [])
  {
    var c := Candidates(p);
    assert c == [c[0]] + [c[1]] + [c[2]];
    FilterAppend([c[0]] + [c[1]], [c[2]], Present);
    FilterAppend([c[0]], [c[1]], Present);
    FilterSingle(c[0], Present);
    FilterSingle(c[1], Present);
    FilterSingle(c[2], Present);
  }

  /** A link appears exactly when its field is non-empty, and nothing else appears. */
  lemma CardLinksMembers(p: Item)
    ensures Link("Demo", p.demo) in CardLinks(p) <==> p.demo != ""
    ensures Link("Code", p.repo) in CardLinks(p) <==> p.repo != ""
    ensures Link("Case study", p.caseStudy) in CardLinks(p) <==> p.caseStudy != ""
    ensures forall l :: l in CardLinks(p) ==> l in Candidates(p) && l.href != ""
  {
    forall l ensures l in CardLinks(p) <==> l in Candidates(p) && Present(l) {
      FilterMembers(Candidates(p), Present, l);
    }
  }

  /** The links keep the order Demo, Code, Case study. */
  lemma CardLinksOrdered(p: Item)
    ensures forall i, j :: 0 <= i < j < |CardLinks(p)| ==> Rank(CardLinks(p)[i].caption) < Rank(CardLinks(p)[j].caption)
  {
    CardLinksSpec(p);
  }

  /** `<a href="${p.demo}" target="_blank" rel="noopener">Demo</a>`: the address is not escaped. */
  function Anchor(l: Link): (r: string)
    ensures r != ""
  {
    "<a href=\"" + l.href + "\" target=\"_blank\" rel=\"noopener\">" + l.caption + "</a>"
  }

  function Anchors(ls: seq<Link>): seq<string>
  {
    seq(|ls|, i requires 0 <= i < |ls| => Anchor(ls[i]))
  }

  /** `.join(' · ')` of the shown links. */
  function LinksRow(p: Item): string
  {
    Join(Anchors(CardLinks(p)), " · ")
  }

  /** `${links ? `<p>${links}</p>` : ''}`. */
  function LinksParagraph(p: Item): string
  {
    var row := LinksRow(p);
    if row != "" then "<p>" + row + "</p>" else ""
  }

  /** The paragraph is left out exactly when the project has none of the three addresses. */
  lemma ParagraphIffLinks(p: Item)
    ensures LinksParagraph(p) == "" <==> CardLinks(p) == []
    ensures LinksParagraph(p) == "" <==> p.demo == "" && p.repo == "" && p.caseStudy == ""
  {
    var a := Anchors(CardLinks(p));
    JoinEmptyIff(a, " · ");
    CardLinksSpec(p);
  }

  // ---------------------------------------------------------------- tags and thumbnail

  /** `<span class="tag">${escapeHtml(t)}</span>`. */
  function Span(t: string): string
  {
    "<span class=\"tag\">" + Esc(t) + "</span>"
  }

  function Spans(tags: seq<string>): seq<string>
  {
    seq(|tags|, i requires 0 <= i < |tags| => Span(tags[i]))
  }

  /** `(p.tags||[]).map(...).join('')`. */
  function TagsHtml(tags: seq<string>): string
  {
    Join(Spans(tags), "")
  }

  /** One span per tag, in the order of the tags; no tags, no spans. */
  lemma TagsHtmlSnoc(tags: seq<string>, t: string)
    ensures TagsHtml([]) == ""
    ensures TagsHtml(tags + [t]) == TagsHtml(tags) + Span(t)
  {
    assert Spans([]) == [];
    var a, b := Spans(tags + [t]), Spans(tags) + [Span(t)];
    assert |a| == |b|;
    forall i | 0 <= i < |a| ensures a[i] == b[i] {
      if i < |tags| {
        assert (tags + [t])[i] == tags[i];
      }
    }
    assert a == b;
    JoinSnocPlain(Spans(tags), Span(t));
  }

  /** The text of each tag is read back from its span, and none of `& < > " '` is left raw. */
  lemma SpanReadsBack(t: string)
    ensures var e := Esc(t); Span(t) == "<span class=\"tag\">" + e + "</span>" && Unescape(e) == t
    ensures forall i :: 0 <= i < |Esc(t)| ==> Esc(t)[i] != '<' && Esc(t)[i] != '>'
  {
    EscRoundTrip(t);
    EscNoRawSpecials(t);
  }

  /** `${p.image ? `<img ...>` : ''}`: the image address is not escaped, the title in `alt` is. */
  function Thumbnail(p: Item): (r: string)
    ensures r != "" <==> p.image != ""
  {
    if p.image != "" then "<img src=\"" + p.image + "\" alt=\"" + Esc(TitleText(p.title)) + " project thumbnail\">"
    else ""
  }

  // ---------------------------------------------------------------- the card and the grid

  /** `card(p)`, without the template's indentation and line breaks. */
  function CardHtml(p: Item): string
  {
    "<article class=\"card\">" + Thumbnail(p)
    + "<div><h3>" + Esc(TitleText(p.title)) + "</h3><p>" + Esc(p.summary) + "</p></div>"
    + "<div class=\"tags\">" + TagsHtml(p.tags) + "</div>"
    + LinksParagraph(p) + "</article>"
  }

  /** Every tag of the project has its span on the card. */
  lemma CardShowsTags(p: Item, k: nat)
    requires k < |p.tags|
    ensures Includes(CardHtml(p), Span(p.tags[k]))
  {
    var spans := Spans(p.tags);
    JoinContains(spans, "", k);
    var before := "<article class=\"card\">" + Thumbnail(p)
      + "<div><h3>" + Esc(TitleText(p.title)) + "</h3><p>" + Esc(p.summary) + "</p></div>"
      + "<div class=\"tags\">";
    var after := "</div>" + LinksParagraph(p) + "</article>";
    var tags := TagsHtml(p.tags);
    assert CardHtml(p) == before + tags + after;
    assert (before + tags + after)[|before|..|before| + |tags|] == tags;
    assert OccursAt(tags, CardHtml(p), |before|);
    IncludesTransitive(Span(p.tags[k]), tags, CardHtml(p));
  }

  function Cards(items: seq<Item>): seq<string>
  {
    seq(|items|, i requires 0 <= i < |items| => CardHtml(items[i]))
  }

  /** `items.map(p => card(p)).join('')`. */
  function Grid(items: seq<Item>): string
  {
    Join(Cards(items), "")
  }

  /** One card per project, in the order of `projects.json`. */
  lemma GridSnoc(items: seq<Item>, p: Item)
    ensures Grid([]) == ""
    ensures Grid(items + [p]) == Grid(items) + CardHtml(p)
  {
    assert Cards([]) == [];
    var a, b := Cards(items + [p]), Cards(items) + [CardHtml(p)];
    assert |a| == |b|;
    forall i | 0 <= i < |a| ensures a[i] == b[i] {
      if i < |items| {
        assert (items + [p])[i] == items[i];
      }
    }
    assert a == b;
    JoinSnocPlain(Cards(items), CardHtml(p));
  }

  // ---------------------------------------------------------------- the theme button

  /** `document.documentElement.dataset.theme` and `localStorage`, as the page script sees them. */
  class ThemeSwitch {
    var theme: string
    var storage: map<string, string>

    /** `const preferred = localStorage.getItem('theme'); if (preferred) apply(preferred)`. */
    constructor(stored: map<string, string>, markup: string)
      ensures storage == stored
      ensures theme == Theme.InitialTheme(stored, markup)
    {
      storage := stored;
      theme := Theme.InitialTheme(stored, markup);
    }

    /**
     * A click: the current theme (the applied one, or the system preference when none is), then
     * its opposite, written to storage and applied.
     */
    method Toggle(systemDark: bool)
      modifies this
      ensures theme == Theme.MainToggle(old(theme), systemDark)
      ensures theme in {"dark", "light"}
      ensures theme == "light" <==> Theme.CurrentTheme(old(theme), systemDark) == "dark"
      ensures storage == old(storage)[Theme.ThemeKey := theme]
    {
      var curr := Theme.CurrentTheme(theme, systemDark);
      var next := Theme.NextMainTheme(curr);
      storage := storage[Theme.ThemeKey := next];
      theme := next;
    }
  }

  /** Two clicks from a fresh start, with nothing stored and a light system: `'dark'`, then `'light'`. */
  method TwoClicks() returns (first: string, second: string)
    ensures first == "dark" && second == "light"
  {
    var s := new ThemeSwitch(map[], "");
    s.Toggle(false);
    first := s.theme;
    s.Toggle(false);
    second := s.theme;
  }
}
