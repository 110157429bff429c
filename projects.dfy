/** The project archive list (src/components/Projects/Projects.jsx): the
    filter options, the four-way filter, the pages of the filtered list, the
    fixed four-cell desktop grid, and the archive's state cells (filters,
    current page, window width) with their handlers. */
module Projects {
  import opened Common
  import opened Seqs
  import opened JsText
  import opened ProjectData
  import opened Paging

  const DesktopPageSize: nat := 4
  const MobilePageSize: nat := 6
  /** The wildcard filter value. */
  const All: string := "All"

  // ---------------------------------------------------------------- filter options

  ghost predicate StrictlySorted(s: seq<string>) {
    forall i, j :: 0 <= i < j < |s| ==> Less(s[i], s[j])
  }

  /** Inserts `x` into a strictly sorted list unless it is already there. */
  function Insert(x: string, s: seq<string>): (r: seq<string>)
    requires StrictlySorted(s)
    ensures StrictlySorted(r)
    ensures forall y :: y in r <==> y == x || y in s
    decreases |s|
  {
    if s == [] then [x]
    else if x == s[0] then s
    else if Less(x, s[0]) then
      assert forall j :: 0 < j < |s| ==> Less(x, s[j]) by {
        forall j | 0 < j < |s| ensures Less(x, s[j]) { LessTransitive(x, s[0], s[j]); }
      }
      [x] + s
    else
      LessTotal(x, s[0]);
      var rest := Insert(x, s[1..]);
      assert forall j :: 0 <= j < |rest| ==> Less(s[0], rest[j]) by {
        forall j | 0 <= j < |rest| ensures Less(s[0], rest[j]) {
          assert rest[j] in rest;
          if rest[j] != x {
            var k :| 0 <= k < |s[1..]| && s[1..][k] == rest[j];
            assert s[k + 1] == rest[j];
          }
        }
      }
      [s[0]] + rest
  }

  /** The distinct values of `xs`, sorted (`Array.from(new Set(xs)).sort()`). */
  function SortedDistinct(xs: seq<string>): (r: seq<string>)
    ensures StrictlySorted(r)
    ensures forall y :: y in r <==> y in xs
    decreases |xs|
  {
    if xs == [] then [] else Insert(xs[|xs| - 1], SortedDistinct(xs[..|xs| - 1]))
  }

  /** A strictly sorted list is determined by its elements, so the options do
      not depend on the order the values were met in or on how they are sorted. */
  lemma {:induction false} SortedListIsUnique(a: seq<string>, b: seq<string>)
    requires StrictlySorted(a) && StrictlySorted(b)
    requires forall y :: y in a <==> y in b
    ensures a == b
    decreases |a|
  {
    if a != [] && b != [] {
      if a[0] != b[0] {
        assert a[0] in b && b[0] in a;
        var i :| 0 <= i < |b| && b[i] == a[0];
        var j :| 0 <= j < |a| && a[j] == b[0];
        assert i > 0 && j > 0;
        assert Less(b[0], a[0]) && Less(a[0], b[0]);
        LessTransitive(a[0], b[0], a[0]);
        LessIrreflexive(a[0]);
      }
      forall y ensures y in a[1..] <==> y in b[1..] {
        if y in a[1..] {
          var k :| 1 <= k < |a| && a[k] == y;
          assert y != a[0] by { LessIrreflexive(a[0]); assert Less(a[0], a[k]); }
          assert y in b;
        }
        if y in b[1..] {
          var k :| 1 <= k < |b| && b[k] == y;
          assert y != b[0] by { LessIrreflexive(b[0]); assert Less(b[0], b[k]); }
          assert y in a;
        }
      }
      SortedListIsUnique(a[1..], b[1..]);
      assert a == [a[0]] + a[1..] && b == [b[0]] + b[1..];
    } else if a != [] || b != [] {
      HeadIsMember(a);
      HeadIsMember(b);
      assert false;
    }
  }

  lemma HeadIsMember(s: seq<string>)
    ensures s != [] ==> s[0] in s
  {
  }

  /** The two fields whose options are gathered from the data. */
  datatype ListedField = ScopeField | MotivationField

  function FieldOf(p: Project, k: ListedField): FieldValue {
    match k
    case ScopeField => p.scope
    case MotivationField => p.motivation
  }

  /** `item[key]` as a list: a list-valued field contributes every entry. */
  function FieldValues(v: FieldValue): seq<string> {
    match v
    case Single(s) => [s]
    case Many(vs) => vs
  }

  /** `data.flatMap(item => Array.isArray(item[key]) ? item[key] : [item[key]])`. */
  function FlatValues(ps: seq<Project>, k: ListedField): (r: seq<string>)
    ensures forall y :: y in r <==> exists p :: p in ps && y in FieldValues(FieldOf(p, k))
    decreases |ps|
  {
    if ps == [] then []
    else
      assert forall p :: p in ps <==> p == ps[0] || p in ps[1..];
      FieldValues(FieldOf(ps[0], k)) + FlatValues(ps[1..], k)
  }

  /** `useUniqueValues(data, key)`: `'All'` followed by every value the field
      takes in the data, once each, in sort order. */
  function UniqueValues(ps: seq<Project>, k: ListedField): (r: seq<string>)
    ensures |r| >= 1 && r[0] == All
    ensures StrictlySorted(r[1..])
    ensures forall y :: y in r[1..] <==> exists p :: p in ps && y in FieldValues(FieldOf(p, k))
  {
    var sorted := SortedDistinct(FlatValues(ps, k));
    assert ([All] + sorted)[1..] == sorted;
    [All] + sorted
  }

  /** The category options are a fixed table. */
  const Categories: seq<string> := ["All", "NLP", "Data", "Software", "Hardware"]
  /** The status options are a fixed table. */
  const Statuses: seq<string> := ["All", "Active", "Inactive"]

  // ---------------------------------------------------------------- filtering

  datatype Filters = Filters(category: string, status: string, scope: string, motivation: string)

  const AllFilters: Filters := Filters(All, All, All, All)

  datatype FilterKey = CategoryKey | StatusKey | ScopeKey | MotivationKey

  function Get(f: Filters, k: FilterKey): string {
    match k
    case CategoryKey => f.category
    case StatusKey => f.status
    case ScopeKey => f.scope
    case MotivationKey => f.motivation
  }

  /** `{ ...prev, [type]: value }`: the named filter takes the value; the
      other three keep theirs. */
  function WithFilter(f: Filters, k: FilterKey, v: string): (r: Filters)
    ensures Get(r, k) == v
    ensures forall k' :: k' != k ==> Get(r, k') == Get(f, k')
  {
    match k
    case CategoryKey => f.(category := v)
    case StatusKey => f.(status := v)
    case ScopeKey => f.(scope := v)
    case MotivationKey => f.(motivation := v)
  }

  /** `p.scope === filters.scope` as written: strict equality, so a
      list-valued field never equals a filter string. */
  predicate FieldEquals(v: FieldValue, s: string) {
    v == Single(s)
  }

  /** The filter as written: every filter is `'All'` or strictly equals its field. */
  predicate PassesAsWritten(f: Filters, p: Project)
    ensures PassesAsWritten(f, p) && f.scope != All ==> p.scope == Single(f.scope)
    ensures PassesAsWritten(f, p) && f.motivation != All ==> p.motivation == Single(f.motivation)
    ensures PassesAsWritten(f, p) ==> Passes(f, p)
  {
    (f.category == All || p.category == f.category) &&
    (f.status == All || p.status == f.status) &&
    (f.scope == All || FieldEquals(p.scope, f.scope)) &&
    (f.motivation == All || FieldEquals(p.motivation, f.motivation))
  }

  /** The filter key of a field whose options are gathered from the data. */
  function KeyOf(k: ListedField): FilterKey {
    match k
    case ScopeField => ScopeKey
    case MotivationField => MotivationKey
  }

  /** A project whose scope is a list offers each entry as an option, yet no
      option selects it: the option "A" is listed, and filtering by it
      leaves nothing. */
  lemma ListFieldNeverMatches(title: string)
    ensures var p := Project(1, title, "NLP", "Active", Many(["A"]), Single("M"), "", [], []);
      "A" in UniqueValues([p], ScopeField)[1..] &&
      Filter([p], (q: Project) => PassesAsWritten(WithFilter(AllFilters, ScopeKey, "A"), q)) == []
  {
    var p := Project(1, title, "NLP", "Active", Many(["A"]), Single("M"), "", [], []);
    assert "A" in FieldValues(FieldOf(p, ScopeField));
    assert p in [p];
  }

  /** The corrected field test: the filter value is the field or one of its entries. */
  predicate FieldHas(v: FieldValue, s: string) {
    s in FieldValues(v)
  }

  /** A project passes when every filter is `'All'` or is (one of the
      values of) its field. */
  predicate Passes(f: Filters, p: Project) {
    (f.category == All || p.category == f.category) &&
    (f.status == All || p.status == f.status) &&
    (f.scope == All || FieldHas(p.scope, f.scope)) &&
    (f.motivation == All || FieldHas(p.motivation, f.motivation))
  }

  /** On projects whose scope and motivation are single strings the
      corrected filter is the filter as written. */
  lemma PassesAgreesOnSingleValues(f: Filters, p: Project)
    requires p.scope.Single? && p.motivation.Single?
    ensures Passes(f, p) <==> PassesAsWritten(f, p)
  {
  }

  function Matcher(f: Filters): Project -> bool {
    p => Passes(f, p)
  }

  function FilteredProjects(ps: seq<Project>, f: Filters): (r: seq<Project>)
    ensures |r| <= |ps|
    ensures forall i :: 0 <= i < |r| ==> r[i] in ps && Passes(f, r[i])
    ensures forall i :: 0 <= i < |ps| && Passes(f, ps[i]) ==> ps[i] in r
  {
    var r := Filter(ps, Matcher(f));
    assert forall i :: 0 <= i < |r| ==> Matcher(f)(r[i]);
    assert forall i :: 0 <= i < |ps| && Passes(f, ps[i]) ==> Matcher(f)(ps[i]);
    r
  }

  /** A project is listed exactly when it is in the data and passes every filter. */
  lemma FilteredMembership(ps: seq<Project>, f: Filters, p: Project)
    ensures p in FilteredProjects(ps, f) <==> p in ps && Passes(f, p)
  {
    var r := FilteredProjects(ps, f);
    if p in r {
      var i :| 0 <= i < |r| && r[i] == p;
      assert Matcher(f)(r[i]);
    }
    if p in ps && Passes(f, p) {
      var i :| 0 <= i < |ps| && ps[i] == p;
      assert Matcher(f)(ps[i]);
    }
  }

  /** Filtering keeps the data's order: the result for two consecutive parts
      of the data is the two results one after the other. */
  lemma FilteredKeepsOrder(a: seq<Project>, b: seq<Project>, f: Filters)
    ensures FilteredProjects(a + b, f) == FilteredProjects(a, f) + FilteredProjects(b, f)
  {
    FilterConcat(a, b, Matcher(f));
  }

  /** With every filter at `'All'` the whole list is shown. */
  lemma AllFiltersShowEverything(ps: seq<Project>)
    ensures FilteredProjects(ps, AllFilters) == ps
  {
    FilterKeepsAll(ps, Matcher(AllFilters));
  }

  /** Every option offered for scope or motivation selects at least one
      project when it is the only filter set. */
  lemma EveryOptionSelectsSomething(ps: seq<Project>, k: ListedField, y: string)
    requires y in UniqueValues(ps, k)[1..]
    ensures FilteredProjects(ps, WithFilter(AllFilters, KeyOf(k), y)) != []
  {
    var p :| p in ps && y in FieldValues(FieldOf(p, k));
    var f := WithFilter(AllFilters, KeyOf(k), y);
    assert Passes(f, p);
    FilteredMembership(ps, f, p);
  }

  // ---------------------------------------------------------------- pages and grid

  /** Six projects per page below a width of 1024, four otherwise. */
  function PageSize(width: int): (r: nat)
    ensures r > 0
    ensures width < 1024 ==> r == MobilePageSize
    ensures width >= 1024 ==> r == DesktopPageSize
  {
    if width < 1024 then MobilePageSize else DesktopPageSize
  }

  /** `gridProjects`: on mobile the page itself; on desktop an `Array(4)`
      of `null` into which the page's projects are written by index (an
      index past the end would lengthen the array, so the cells are
      `max(4, |page|)`). */
  method GridCells(page: seq<Project>, isMobile: bool) returns (cells: seq<Option<Project>>)
    ensures isMobile ==> |cells| == |page|
    ensures !isMobile ==> |cells| == Max(DesktopPageSize, |page|)
    ensures !isMobile && |page| <= DesktopPageSize ==> |cells| == DesktopPageSize
    ensures forall i :: 0 <= i < |page| ==> cells[i] == Some(page[i])
    ensures forall i :: |page| <= i < |cells| ==> cells[i] == None
  {
    if isMobile {
      cells := seq(|page|, i requires 0 <= i < |page| => Some(page[i]));
      return;
    }
    var items := new Option<Project>[Max(DesktopPageSize, |page|)](_ => None);
    var index := 0;
    while index < |page|
      invariant 0 <= index <= |page|
      invariant forall i :: 0 <= i < index ==> items[i] == Some(page[i])
      invariant forall i :: index <= i < items.Length ==> items[i] == None
    {
      items[index] := Some(page[index]);
      index := index + 1;
    }
    cells := items[..];
  }

  // ---------------------------------------------------------------- state cells

  /** The archive's state: the loaded data, the filters, the current page
      and the window width it last measured. */
  class Archive {
    const projects: seq<Project>
    var filters: Filters
    var currentPage: nat
    var width: int

    function Filtered(): seq<Project>
      reads this
    {
      FilteredProjects(projects, filters)
    }

    function Size(): nat
      reads this
    {
      PageSize(width)
    }

    function Total(): nat
      reads this
    {
      TotalPages(|Filtered()|, Size())
    }

    /** `paginatedProjects`. */
    function Visible(): seq<Project>
      reads this
    {
      PageItems(Filtered(), currentPage, Size())
    }

    /** The current page is an existing page, or page 0 of an empty list. */
    ghost predicate Valid()
      reads this
    {
      currentPage == 0 || currentPage < Total()
    }

    constructor (projects: seq<Project>, width: int)
      ensures Valid()
      ensures this.projects == projects && this.width == width
      ensures filters == AllFilters && currentPage == 0
    {
      this.projects := projects;
      this.width := width;
      filters := AllFilters;
      currentPage := 0;
    }

    /** `handleFilterChange` followed by the page-reset effect, which runs
        because the filters object is replaced. */
    method HandleFilterChange(k: FilterKey, v: string)
      requires Valid()
      modifies this
      ensures Valid()
      ensures filters == WithFilter(old(filters), k, v)
      ensures currentPage == 0 && width == old(width)
    {
      filters := WithFilter(filters, k, v);
      currentPage := 0;
    }

    /** A click on an enabled pager button (enabled only with more than one page). */
    method HandleNavigation(dir: Direction)
      requires Valid() && NavigationEnabled(Total())
      modifies this
      ensures Valid()
      ensures Some(currentPage) == Navigate(old(currentPage), dir, old(Total()))
      ensures filters == old(filters) && width == old(width)
    {
      var total := Total();
      currentPage := Navigate(currentPage, dir, total).value;
    }

    /** A resize; the page-reset effect runs only when the page size changes. */
    method Resize(newWidth: int)
      requires Valid()
      modifies this
      ensures Valid()
      ensures width == newWidth && filters == old(filters)
      ensures currentPage == if PageSize(newWidth) != PageSize(old(width)) then 0 else old(currentPage)
    {
      var sizeChanged := PageSize(newWidth) != PageSize(width);
      width := newWidth;
      if sizeChanged {
        currentPage := 0;
      }
    }
  }
}
