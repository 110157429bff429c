/** The landing page (src/components/Landing.jsx): the points of interest
    and their tabs, the selection shared by the map points and the tab
    buttons, the button that enters the experience, and the status line. */
module Landing {
  import opened Common
  import opened JsText
  import opened UiStore

  datatype Point = Point(id: int, tab: string, title: string)

  /** `pointsOfInterest` (positions, texts and images are presentational). */
  const PointsOfInterest: seq<Point> := [
    Point(1, "Move", "Move"),
    Point(2, "Interact", "Interact"),
    Point(3, "Explore", "Sensor Array"),
    Point(4, "Find", "Find")
  ]

  const Tabs: seq<string> := ["Move", "Interact", "Explore", "Find"]

  /** `points.find(p => p.tab === tab)`. */
  function FindPointForTab(points: seq<Point>, tab: string): (r: Option<Point>)
    ensures r.Some? ==> r.value in points && r.value.tab == tab
    ensures r.Some? ==>
      exists k :: 0 <= k < |points| && points[k] == r.value && forall j :: 0 <= j < k ==> points[j].tab != tab
    ensures r.None? ==> forall i :: 0 <= i < |points| ==> points[i].tab != tab
    decreases |points|
  {
    if points == [] then None
    else if points[0].tab == tab then Some(points[0])
    else FindPointForTab(points[1..], tab)
  }

  /** Every tab names exactly one point, so a tab button always finds its
      point and no two points share a tab. */
  lemma EachTabNamesOnePoint()
    ensures forall t :: t in Tabs ==> FindPointForTab(PointsOfInterest, t).Some?
    ensures forall i, j :: 0 <= i < j < |PointsOfInterest| ==> PointsOfInterest[i].tab != PointsOfInterest[j].tab
    ensures forall i :: 0 <= i < |PointsOfInterest| ==> PointsOfInterest[i].tab in Tabs
  {
  }

  /** The selection after a click on `point`: clicking the selected point
      (same id) clears it, any other point becomes selected. */
  function Toggle(selected: Option<Point>, point: Point): (r: Option<Point>)
    ensures r.None? <==> selected.Some? && selected.value.id == point.id
    ensures r.Some? ==> r.value == point
  {
    if selected.Some? && selected.value.id == point.id then None else Some(point)
  }

  function TabOf(selected: Option<Point>): Option<string> {
    match selected
    case None => None
    case Some(p) => Some(p.tab)
  }

  /** The two state cells: the selected point and the highlighted tab. */
  class Selection {
    var selectedPoint: Option<Point>
    var activeTab: Option<string>

    /** The highlighted tab is the selected point's tab, or none. */
    ghost predicate Valid()
      reads this
    {
      activeTab == TabOf(selectedPoint)
    }

    constructor ()
      ensures Valid() && selectedPoint.None? && activeTab.None?
    {
      selectedPoint, activeTab := None, None;
    }

    method HandlePointClick(point: Point)
      requires Valid()
      modifies this
      ensures Valid()
      ensures selectedPoint == Toggle(old(selectedPoint), point)
    {
      if selectedPoint.Some? && selectedPoint.value.id == point.id {
        selectedPoint := None;
        activeTab := None;
      } else {
        selectedPoint := Some(point);
        activeTab := Some(point.tab);
      }
    }

    /** A tab with no point does nothing; otherwise the tab acts as a click
        on its point. */
    method HandleTabClick(tab: string)
      requires Valid()
      modifies this
      ensures Valid()
      ensures FindPointForTab(PointsOfInterest, tab).None? ==>
        selectedPoint == old(selectedPoint) && activeTab == old(activeTab)
      ensures FindPointForTab(PointsOfInterest, tab).Some? ==>
        selectedPoint == Toggle(old(selectedPoint), FindPointForTab(PointsOfInterest, tab).value)
    {
      var pointForTab := FindPointForTab(PointsOfInterest, tab);
      if pointForTab.None? {
        return;
      }
      if selectedPoint.Some? && selectedPoint.value.id == pointForTab.value.id {
        selectedPoint := None;
        activeTab := None;
      } else {
        selectedPoint := pointForTab;
        activeTab := Some(tab);
      }
    }

    method HandleClosePopup()
      modifies this
      ensures Valid()
      ensures selectedPoint.None? && activeTab.None?
    {
      selectedPoint := None;
      activeTab := None;
    }
  }

  /** The INITIATE button: marks the experience as entered and changes
      nothing else in the store. */
  method HandleEnterExperience(store: AppStore)
    modifies store
    ensures store.State() == old(store.State()).(enterExperience := true)
  {
    store.SetEnterExperience(true);
  }

  /** The INITIATE button is enabled exactly when loading has finished. */
  function InitiateEnabled(s: UiState): (r: bool)
    ensures r <==> !s.loading
  {
    !s.loading
  }

  /** `Math.round`: the nearest integer, halves rounded up. */
  function Round(x: real): (r: int)
    ensures r as real - 0.5 <= x < r as real + 0.5
  {
    (x + 0.5).Floor
  }

  /** The status line: the status text, followed by ` (<rounded progress>%)`
      while loading and below 100. */
  function StatusLine(s: UiState): (r: string)
    ensures |r| >= |s.statusText| && r[..|s.statusText|] == s.statusText
    ensures |r| > |s.statusText| <==> s.loading && s.progress < 100.0
    ensures |r| > |s.statusText| ==>
      r[|s.statusText|..] == " (" + Show(Round(s.progress)) + "%)"
  {
    var suffix := if s.loading && s.progress < 100.0 then " (" + Show(Round(s.progress)) + "%)" else "";
    assert (s.statusText + suffix)[..|s.statusText|] == s.statusText;
    assert (s.statusText + suffix)[|s.statusText|..] == suffix;
    s.statusText + suffix
  }

  /** The number in the suffix reads back as the rounded progress. */
  lemma StatusLineShowsProgress(s: UiState)
    requires s.loading && s.progress < 100.0
    ensures var r := StatusLine(s);
      ParseInt(r[|s.statusText| + 2..]) == Some(Round(s.progress))
  {
    var r := StatusLine(s);
    var n := Show(Round(s.progress));
    assert r[|s.statusText| + 2..] == n + "%)";
    ParseShow(Round(s.progress), "%)");
  }
}
