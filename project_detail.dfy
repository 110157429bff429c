/** The project detail page (src/components/Projects/ProjectDetail.jsx): the
    lookup of the project named by the route, the split of its description
    into paragraph pages, the publications and presentations pages after
    them, the page the panel shows, and wrap-around page navigation. */
module ProjectDetail {
  import opened Common
  import opened Seqs
  import opened JsText
  import opened ProjectData
  import opened Paging

  // ---------------------------------------------------------------- lookup

  /** The index `projects.find(p => p.id === n)` stops at. */
  function FindById(ps: seq<Project>, n: int): (r: Option<nat>)
    ensures r.Some? ==> r.value < |ps| && ps[r.value].id == n
    ensures r.Some? ==> forall j :: 0 <= j < r.value ==> ps[j].id != n
    ensures r.None? ==> forall j :: 0 <= j < |ps| ==> ps[j].id != n
    decreases |ps|
  {
    if ps == [] then None
    else if ps[0].id == n then Some(0)
    else match FindById(ps[1..], n)
      case None => None
      case Some(k) => Some(k + 1)
  }

  /** The project for the route parameter: the first one whose id equals
      `parseInt(id)`. A parameter that does not parse gives `NaN`, which
      equals no id. `None` is the "Project Not Found" view. */
  function Lookup(ps: seq<Project>, idParam: string): (r: Option<Project>)
    ensures r.None? <==> forall i :: 0 <= i < |ps| ==> Some(ps[i].id) != ParseInt(idParam)
    ensures r.Some? ==> Some(r.value.id) == ParseInt(idParam)
    ensures r.Some? ==>
      (exists i :: 0 <= i < |ps| && ps[i] == r.value && (forall j :: 0 <= j < i ==> Some(ps[j].id) != ParseInt(idParam)))
  {
    match ParseInt(idParam)
    case None => None
    case Some(n) =>
      match FindById(ps, n)
      case None => None
      case Some(i) => Some(ps[i])
  }

  /** The links `/projects/${id}` lead back to their project: with distinct
      ids, the parameter `${id}` (followed by anything `parseInt` stops at)
      finds exactly that project. */
  lemma RouteFindsProject(ps: seq<Project>, i: nat, rest: string)
    requires i < |ps|
    requires forall a, b :: 0 <= a < b < |ps| ==> ps[a].id != ps[b].id
    requires EndsNumber(rest)
    ensures Lookup(ps, Show(ps[i].id) + rest) == Some(ps[i])
  {
    ParseShow(ps[i].id, rest);
    var r := Lookup(ps, Show(ps[i].id) + rest);
    var k :| 0 <= k < |ps| && ps[k] == r.value;
    assert ps[k].id == ps[i].id;
  }

  // ---------------------------------------------------------------- paragraphs

  /** The end of the run of white space that starts at `i`. */
  function RunEnd(s: string, i: nat): (m: nat)
    requires i <= |s|
    ensures i <= m <= |s|
    ensures forall k :: i <= k < m ==> IsSpace(s[k])
    ensures m == |s| || !IsSpace(s[m])
    decreases |s| - i
  {
    if i == |s| || !IsSpace(s[i]) then i else RunEnd(s, i + 1)
  }

  /** The last line feed in `s[lo..hi]`. */
  function LastLineFeed(s: string, lo: nat, hi: nat): (r: Option<nat>)
    requires lo <= hi <= |s|
    ensures r.Some? ==> lo <= r.value < hi && s[r.value] == '\n'
    ensures r.Some? ==> forall k :: r.value < k < hi ==> s[k] != '\n'
    ensures r.None? ==> forall k :: lo <= k < hi ==> s[k] != '\n'
    decreases hi - lo
  {
    if lo == hi then None
    else if s[hi - 1] == '\n' then Some(hi - 1)
    else LastLineFeed(s, lo, hi - 1)
  }

  /** Two line feeds with only white space between them: a blank line. */
  ghost predicate BlankLineAt(s: string, i: nat, j: nat)
    requires i < j < |s|
  {
    s[i] == '\n' && s[j] == '\n' && forall k :: i < k < j ==> IsSpace(s[k])
  }

  /** The end of the match of `/\n\s*\n/` at `q`, if there is one there: the
      greedy `\s*` takes the whole run of white space after the first line
      feed and gives back up to the last line feed in that run. */
  function SeparatorEnd(s: string, q: nat): (r: Option<nat>)
    requires q <= |s|
    ensures r.Some? ==> q + 2 <= r.value <= |s| && BlankLineAt(s, q, r.value - 1)
    ensures r.Some? ==> forall j :: r.value <= j < |s| ==> !BlankLineAt(s, q, j)
    ensures r.None? ==> forall j :: q < j < |s| ==> !BlankLineAt(s, q, j)
  {
    if q == |s| || s[q] != '\n' then None
    else
      var m := RunEnd(s, q + 1);
      match LastLineFeed(s, q + 1, m)
      case None =>
        assert forall j :: q < j < |s| ==> !BlankLineAt(s, q, j) by {
          forall j | q < j < |s| ensures !BlankLineAt(s, q, j) {
            if s[j] == '\n' {
              assert q < m < j && !IsSpace(s[m]);
            }
          }
        }
        None
      case Some(k) =>
        assert forall j :: k + 1 <= j < |s| ==> !BlankLineAt(s, q, j) by {
          forall j | k + 1 <= j < |s| ensures !BlankLineAt(s, q, j) {
            if s[j] == '\n' {
              assert q < m < j && !IsSpace(s[m]);
            }
          }
        }
        Some(k + 1)
  }

  /** `s.split(/\n\s*\n/)` with the search at `q`: the text before the
      first match at or after `q` is the next piece, and splitting goes on
      in the text after the match. */
  function SplitFrom(s: string, q: nat): (r: seq<string>)
    requires q <= |s|
    ensures |r| >= 1
    decreases |s|, |s| - q
  {
    if q == |s| then [s]
    else match SeparatorEnd(s, q)
      case Some(e) => [s[..q]] + SplitFrom(s[e..], 0)
      case None => SplitFrom(s, q + 1)
  }

  /** `s.split(/\n\s*\n/)`: never empty, and the pieces together keep
      every visible character of the text, in order. */
  function Split(s: string): (r: seq<string>)
    ensures |r| >= 1
    ensures NonSpace(Concat(r)) == NonSpace(s)
  {
    SplitFromKeepsText(s, 0);
    SplitFrom(s, 0)
  }

  /** No two line feeds with only white space between them. */
  ghost predicate NoBlankLine(t: string) {
    forall i, j :: 0 <= i < j < |t| ==> !BlankLineAt(t, i, j)
  }

  predicate IsVisible(c: char) {
    !IsSpace(c)
  }

  /** The characters of `t` that are not white space, in order. */
  function NonSpace(t: string): string {
    Filter(t, IsVisible)
  }

  function Concat(ps: seq<string>): string
    decreases |ps|
  {
    if ps == [] then [] else ps[0] + Concat(ps[1..])
  }

  lemma {:induction false} NonSpaceOfBlank(t: string)
    requires forall i :: 0 <= i < |t| ==> IsSpace(t[i])
    ensures NonSpace(t) == []
    decreases |t|
  {
    if t != [] {
      NonSpaceOfBlank(t[1..]);
    }
  }

  /** A stretch in which no separator starts holds no blank line. */
  lemma NoSeparatorNoBlankLine(s: string, p: nat, q: nat)
    requires p <= q <= |s|
    requires forall i :: p <= i < q ==> SeparatorEnd(s, i).None?
    ensures NoBlankLine(s[p..q])
  {
    var t := s[p..q];
    forall i, j | 0 <= i < j < |t| ensures !BlankLineAt(t, i, j) {
      if t[i] == '\n' && t[j] == '\n' {
        assert SeparatorEnd(s, p + i).None?;
        assert !BlankLineAt(s, p + i, p + j) && s[p + i] == '\n' && s[p + j] == '\n';
        var k :| p + i < k < p + j && !IsSpace(s[k]);
        assert t[k - p] == s[k];
      }
    }
  }

  /** The pieces hold no blank line. */
  lemma {:induction false} SplitFromNoBlankLine(s: string, q: nat)
    requires q <= |s|
    requires forall i :: 0 <= i < q ==> SeparatorEnd(s, i).None?
    ensures forall k :: 0 <= k < |SplitFrom(s, q)| ==> NoBlankLine(SplitFrom(s, q)[k])
    decreases |s|, |s| - q
  {
    if q == |s| {
      NoSeparatorNoBlankLine(s, 0, q);
      assert s[0..q] == s;
    } else {
      match SeparatorEnd(s, q)
      case Some(e) =>
        SplitFromNoBlankLine(s[e..], 0);
        NoSeparatorNoBlankLine(s, 0, q);
        assert s[0..q] == s[..q];
      case None =>
        SplitFromNoBlankLine(s, q + 1);
    }
  }

  /** Dropping a stretch of white space keeps the visible characters. */
  lemma NonSpaceSkipsBlank(a: string, b: string, c: string)
    requires forall i :: 0 <= i < |b| ==> IsSpace(b[i])
    ensures NonSpace(a + (b + c)) == NonSpace(a) + NonSpace(c)
  {
    NonSpaceOfBlank(b);
    FilterConcat(b, c, IsVisible);
    FilterConcat(a, b + c, IsVisible);
  }

  /** Cutting a stretch of white space out of the text keeps its visible characters. */
  lemma NonSpaceAcrossSeparator(s: string, p: nat, q: nat, e: nat)
    requires p <= q <= e <= |s|
    requires forall k :: q <= k < e ==> IsSpace(s[k])
    ensures NonSpace(s[p..]) == NonSpace(s[p..q]) + NonSpace(s[e..])
  {
    var a, b, c := s[p..q], s[q..e], s[e..];
    assert s[p..] == a + (b + c);
    assert forall i :: 0 <= i < |b| ==> b[i] == s[q + i];
    NonSpaceSkipsBlank(a, b, c);
  }

  /** The pieces together hold the visible characters of the text, in order. */
  lemma {:induction false} SplitFromKeepsText(s: string, q: nat)
    requires q <= |s|
    ensures NonSpace(Concat(SplitFrom(s, q))) == NonSpace(s)
    decreases |s|, |s| - q
  {
    var r := SplitFrom(s, q);
    if q == |s| {
      assert r == [s] && r[1..] == [];
      assert Concat(r) == s;
    } else {
      match SeparatorEnd(s, q)
      case Some(e) =>
        SplitFromKeepsText(s[e..], 0);
        KeepsTextAcrossCut(s, q, e, SplitFrom(s[e..], 0));
      case None =>
        SplitFromKeepsText(s, q + 1);
    }
  }

  /** A cut at a separator keeps the visible characters, given that the
      pieces after it keep those of the rest of the text. */
  lemma KeepsTextAcrossCut(s: string, q: nat, e: nat, rest: seq<string>)
    requires q < e <= |s| && forall k :: q <= k < e ==> IsSpace(s[k])
    requires NonSpace(Concat(rest)) == NonSpace(s[e..])
    ensures NonSpace(Concat([s[..q]] + rest)) == NonSpace(s)
  {
    var r := [s[..q]] + rest;
    assert r[1..] == rest;
    assert Concat(r) == s[..q] + Concat(rest);
    FilterConcat(s[..q], Concat(rest), IsVisible);
    NonSpaceAcrossSeparator(s, 0, q, e);
    assert s[0..] == s && s[0..q] == s[..q];
  }

  /** `description.split(/\n\s*\n/).filter(p => p.trim() !== '')`. */
  function Paragraphs(description: string): (r: seq<string>)
    ensures forall i :: 0 <= i < |r| ==> NotBlank(r[i]) && r[i] in Split(description)
    ensures forall i :: 0 <= i < |Split(description)| && NotBlank(Split(description)[i]) ==>
      Split(description)[i] in r
  {
    Filter(Split(description), NotBlank)
  }

  lemma {:induction false} DropBlankKeepsText(pieces: seq<string>)
    ensures NonSpace(Concat(Filter(pieces, NotBlank))) == NonSpace(Concat(pieces))
    decreases |pieces|
  {
    if pieces != [] {
      DropBlankKeepsText(pieces[1..]);
      var x := pieces[0];
      var rest := Filter(pieces[1..], NotBlank);
      FilterConcat(x, Concat(pieces[1..]), IsVisible);
      if NotBlank(x) {
        assert ([x] + rest)[1..] == rest;
        FilterConcat(x, Concat(rest), IsVisible);
      } else {
        assert Filter(pieces, NotBlank) == rest;
        NonSpaceOfBlank(x);
      }
    }
  }

  /** Every paragraph page has text and no blank line, and the paragraphs
      read in order hold exactly the description's non-white-space
      characters in their order: nothing is lost, repeated or moved. */
  lemma ParagraphsSplitDescription(description: string)
    ensures forall i :: 0 <= i < |Paragraphs(description)| ==>
      NotBlank(Paragraphs(description)[i]) && NoBlankLine(Paragraphs(description)[i])
    ensures NonSpace(Concat(Paragraphs(description))) == NonSpace(description)
  {
    var pieces := Split(description);
    SplitFromNoBlankLine(description, 0);
    SplitFromKeepsText(description, 0);
    DropBlankKeepsText(pieces);
    forall i | 0 <= i < |Paragraphs(description)|
      ensures NoBlankLine(Paragraphs(description)[i])
    {
      var k :| 0 <= k < |pieces| && pieces[k] == Paragraphs(description)[i];
    }
  }

  /** With no separator from `q` on, the text is one piece. */
  lemma {:induction false} SplitFromNoMatch(s: string, q: nat)
    requires q <= |s|
    requires forall k :: q <= k < |s| ==> SeparatorEnd(s, k).None?
    ensures SplitFrom(s, q) == [s]
    decreases |s| - q
  {
    if q < |s| {
      SplitFromNoMatch(s, q + 1);
    }
  }

  /** The search from `q` cuts at the first separator it meets. */
  lemma {:induction false} SplitFromFirstMatch(s: string, q: nat, c: nat)
    requires q <= c < |s| && SeparatorEnd(s, c).Some?
    requires forall k :: q <= k < c ==> SeparatorEnd(s, k).None?
    ensures SplitFrom(s, q) == [s[..c]] + SplitFrom(s[SeparatorEnd(s, c).value..], 0)
    decreases c - q
  {
    if q < c {
      SplitFromFirstMatch(s, q + 1, c);
    }
  }

  /** A text with no blank line is a single piece, untrimmed. */
  lemma SplitWithoutBlankLine(d: string)
    requires NoBlankLine(d)
    ensures Split(d) == [d]
  {
    assert forall k :: 0 <= k < |d| ==> SeparatorEnd(d, k).None?;
    SplitFromNoMatch(d, 0);
  }

  /** The text is cut at the first match `c` of `/\n\s*\n/` and nowhere
      before it: the first piece is the text before the match, untouched,
      and the rest is the split of the text after the match. */
  lemma SplitAtFirstMatch(d: string, c: nat)
    requires c < |d| && SeparatorEnd(d, c).Some?
    requires forall k :: 0 <= k < c ==> SeparatorEnd(d, k).None?
    ensures Split(d) == [d[..c]] + Split(d[SeparatorEnd(d, c).value..])
  {
    SplitFromFirstMatch(d, 0, c);
  }

  // ---------------------------------------------------------------- content pages

  datatype Page = Text(text: string) | Publications(items: seq<string>) | Presentations(items: seq<string>)

  /** Text pages come first, then publications, then presentations. */
  function Rank(pg: Page): nat {
    match pg
    case Text(_) => 0
    case Publications(_) => 1
    case Presentations(_) => 2
  }

  /** The paragraph pages; an empty description is falsy and adds none. */
  function TextPages(description: string): seq<Page> {
    if description == "" then []
    else
      var ps := Paragraphs(description);
      seq(|ps|, i requires 0 <= i < |ps| => Text(ps[i]))
  }

  /** `contentPages`. */
  function ContentPages(project: Option<Project>): (r: seq<Page>)
    ensures project.None? ==> r == []
    ensures project.Some? ==>
      |r| == |TextPages(project.value.description)| +
             (if |project.value.publications| > 0 then 1 else 0) +
             (if |project.value.presentations| > 0 then 1 else 0)
    ensures project.Some? && project.value.description != "" ==>
      forall i :: 0 <= i < |Paragraphs(project.value.description)| ==>
        r[i] == Text(Paragraphs(project.value.description)[i])
    ensures project.Some? ==>
      (Publications(project.value.publications) in r <==> |project.value.publications| > 0)
    ensures project.Some? ==>
      (Presentations(project.value.presentations) in r <==> |project.value.presentations| > 0)
    ensures project.Some? ==> forall i :: 0 <= i < |r| && !r[i].Text? ==>
      r[i] == Publications(project.value.publications) || r[i] == Presentations(project.value.presentations)
    ensures forall i, j :: 0 <= i < j < |r| ==> Rank(r[i]) <= Rank(r[j])
  {
    match project
    case None => []
    case Some(p) =>
      var text := TextPages(p.description);
      var pubs := if |p.publications| > 0 then [Publications(p.publications)] else [];
      var pres := if |p.presentations| > 0 then [Presentations(p.presentations)] else [];
      text + pubs + pres
  }

  /** Every text page is non-blank. */
  lemma TextPagesNotBlank(project: Option<Project>)
    ensures forall i :: 0 <= i < |ContentPages(project)| && ContentPages(project)[i].Text? ==>
      NotBlank(ContentPages(project)[i].text)
  {
  }

  /** `contentPages` as the component builds it, with successive pushes. */
  method BuildContentPages(project: Option<Project>) returns (pages: seq<Page>)
    ensures pages == ContentPages(project)
  {
    pages := [];
    if project.None? {
      return;
    }
    var p := project.value;
    if p.description != "" {
      var paragraphs := Paragraphs(p.description);
      var i := 0;
      while i < |paragraphs|
        invariant 0 <= i <= |paragraphs|
        invariant pages == TextPages(p.description)[..i]
      {
        pages := pages + [Text(paragraphs[i])];
        i := i + 1;
      }
    }
    assert pages == TextPages(p.description);
    if |p.publications| > 0 {
      pages := pages + [Publications(p.publications)];
    }
    if |p.presentations| > 0 {
      pages := pages + [Presentations(p.presentations)];
    }
  }

  // ---------------------------------------------------------------- panel

  datatype PanelView = TextPanel(text: string) | ListPanel(title: string, items: seq<string>) | EmptyPanel

  function Render(pg: Page): PanelView {
    match pg
    case Text(t) => TextPanel(t)
    case Publications(items) => ListPanel("Publications & Seminars", items)
    case Presentations(items) => ListPanel("Presentations", items)
  }

  /** The panel as written: a page that is not a string is read for its
      `title`, so with no page at the current index the render throws
      (`None`). */
  function PanelAsWritten(pages: seq<Page>, current: nat): (r: Option<PanelView>)
    ensures r.None? <==> current >= |pages|
  {
    if current < |pages| then Some(Render(pages[current])) else None
  }

  /** A found project whose description is empty and that has no
      publications or presentations has no pages, and its detail page
      throws on its first render. */
  lemma EmptyProjectCrashes(title: string, category: string, status: string)
    ensures var p := Project(1, title, category, status, Single(""), Single(""), "", [], []);
      ContentPages(Some(p)) == [] && PanelAsWritten(ContentPages(Some(p)), 0).None?
  {
  }

  /** The panel with the missing page shown as an empty panel. */
  function Panel(pages: seq<Page>, current: nat): (r: PanelView)
    ensures current >= |pages| ==> r == EmptyPanel
  {
    if current < |pages| then Render(pages[current]) else EmptyPanel
  }

  /** The corrected panel never throws and shows what the original shows
      wherever the original renders. */
  lemma PanelAgrees(pages: seq<Page>, current: nat)
    ensures PanelAsWritten(pages, current).Some? ==> PanelAsWritten(pages, current).value == Panel(pages, current)
    ensures current < |pages| ==> Panel(pages, current) != EmptyPanel
  {
  }

  // ---------------------------------------------------------------- page state

  /** The detail page's state: its content pages and the current page. */
  class DetailView {
    const pages: seq<Page>
    var currentPage: nat

    /** The current page exists, or the view is on page 0 of no pages. */
    ghost predicate Valid()
      reads this
    {
      currentPage == 0 || currentPage < |pages|
    }

    constructor (projects: seq<Project>, idParam: string)
      ensures Valid()
      ensures pages == ContentPages(Lookup(projects, idParam)) && currentPage == 0
    {
      var built := BuildContentPages(Lookup(projects, idParam));
      pages := built;
      currentPage := 0;
    }

    /** The pager is shown only with more than one page. */
    function PagerShown(): bool
      reads this
    {
      NavigationEnabled(|pages|)
    }

    function Shown(): PanelView
      reads this
    {
      Panel(pages, currentPage)
    }

    /** A click on a pager arrow. */
    method HandlePageNavigation(dir: Direction)
      requires Valid() && PagerShown()
      modifies this
      ensures Valid()
      ensures Some(currentPage) == Navigate(old(currentPage), dir, |pages|)
      ensures Shown() == Render(pages[currentPage])
    {
      currentPage := Navigate(currentPage, dir, |pages|).value;
    }
  }
}
