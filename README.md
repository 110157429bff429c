# SpaceTrainV2 core, modelled in Dafny

SpaceTrainV2 is a portfolio site. It has a 3D train scene, a landing page and a project archive. Under the rendering there is a small amount of discrete logic, and this project models that logic and proves its properties:

- **The train scene's view-state store** (`useTrainStore`).
  - It tracks whether the visitor is in the train, in the terminal view or in the projects view, and whether a camera transition is running.
  - It records which panels are visible, what is hovered, and the camera position saved before a close-up.
  - Its five actions are enter train, enter terminal, exit terminal, enter projects and exit projects. Each is split into the synchronous part and the tween's `onComplete` part.
  - The store, the camera and the camera-controls object are classes updated in place: `TrainStore.Store`, `TrainStore.Camera`, `TrainStore.Controls`. Every method is proved equal to a pure transition in `TrainSpec`, and the properties are proved about those transitions.
- **The scene's interaction rules** (`Train.jsx`), in `TrainScene`:
  - the per-frame walk step along the carriage, with its ramp;
  - the Escape key;
  - the cursor;
  - which hotspot is hovered and outlined;
  - which hotspots and panels are mounted in each view.
- **The project archive** (`Projects.jsx`), in `Projects` with `Paging`:
  - the filter options;
  - the four-way filter;
  - page size, page count and page slices;
  - the four-cell desktop grid, which is filled in place;
  - the archive's state cells and their handlers, including the page reset.
- **The project detail page** (`ProjectDetail.jsx`), in `ProjectDetail`:
  - the lookup of the project named by the route;
  - the split of its description into paragraph pages;
  - the publications and presentations pages;
  - the shown panel and wrap-around page navigation.
- **The project graph's data step** (`ProjectGraph.jsx`), in `ProjectGraph`: the nodes and links built from the filtered list, and the click rule.
- **The landing page** (`Landing.jsx`), in `Landing`: the point/tab selection, the INITIATE button and the status line.
- **The loading sphere's colour classifier** (`SpinningSphere.jsx`), in `SpinningSphere`.
- **The global UI store** (`useStore`), in `UiStore`.

Three modules hold shared pieces:

- `Seqs` models JavaScript's array `filter`, `slice` and `[...new Set(xs)]`.
- `JsText` models the parts of JavaScript strings that the code relies on: the `\s`/`trim` white-space set, `parseInt`, `${n}`, `toLowerCase`, `includes`, and the default `sort` order.
- `Common` holds shared basic types.

JavaScript values that the code treats as absent are modelled as `None`: `null`, `undefined`, and `NaN` from `parseInt`.

## Model

| member | source | states |
|---|---|---|
| TrainSpec.InitialStore | src/store/useTrainStore.js:8-15 | every view flag, both panel flags and the transition flag start false, nothing is hovered; `inProjects` is never declared (the state declares `inProjector`) and reads as false |
| TrainStore.Store.constructor | src/store/useTrainStore.js:8-15 | the new store is in the initial state |
| TrainSpec.Disabled | src/store/useTrainStore.js:37-41 | locking the controls turns rotation and panning off and leaves every other control field as it was |
| TrainStore.Store.DisableControls | src/store/useTrainStore.js:37-41 | with no controls object nothing happens; otherwise the controls become exactly `Disabled` of their old value |
| TrainSpec.FreeRoam | src/store/useTrainStore.js:23-32 | free roam: rotate and pan on, zoom off, polar range 0 to pi, both azimuth limits `Infinity`; target and minimum distance untouched |
| TrainStore.Store.EnableFreeRoamControls | src/store/useTrainStore.js:23-32 | with no controls object nothing happens; otherwise the controls become exactly `FreeRoam` of their old value |
| TrainStore.Store.SetHoveredObject | src/store/useTrainStore.js:18 | only the hovered object changes |
| TrainSpec.BeginEnterTrain | src/store/useTrainStore.js:47-98 | a tween is scheduled iff neither in the train nor transitioning; a rejected call changes nothing; an accepted one saves the camera position, locks the controls, sets the minimum distance to 0 and sets `inTrain` and `isTransitioning` |
| TrainSpec.CompleteEnterTrain | src/store/useTrainStore.js:61-66 | the camera and target reach the tween's end values, the transition ends and the controls are in free roam |
| TrainSpec.EnterTrainEffect | src/store/useTrainStore.js:47-98 | from outside the train, entering and completing leaves the camera at door + (0.2, 0.11, 0), the target at door + (0.21, 0.11, 0), the pre-entry camera position saved, `inTrain` set, free-roam controls with minimum distance 0 |
| TrainStore.Store.BeginEnterTrain | src/store/useTrainStore.js:47-59 | the in-place update of store, camera and controls is exactly `TrainSpec.BeginEnterTrain` |
| TrainStore.Store.CompleteEnterTrain | src/store/useTrainStore.js:61-94 | the in-place completion is exactly `TrainSpec.CompleteEnterTrain` |
| TrainSpec.BeginEnterTerminal | src/store/useTrainStore.js:103-125 | scheduled iff not in the terminal view and not transitioning (the projects view is not checked); accepted: transition on, controls locked, camera position saved; end values terminal + (0, 0.05, -0.05) and terminal + (0, 0.05, 0) |
| TrainSpec.CompleteEnterTerminal | src/store/useTrainStore.js:112-128 | camera and target at the tween's end values; `inTerminal` and `iframeVisible` set, transition over, every other store field unchanged, controls left locked |
| TrainSpec.EnterTerminalEffect | src/store/useTrainStore.js:103-130 | from outside the terminal view, entering and completing leaves the camera at terminal + (0, 0.05, -0.05), the target at terminal + (0, 0.05, 0), the pre-entry position saved, the page shown, the controls still locked |
| TrainStore.Store.BeginEnterTerminal | src/store/useTrainStore.js:103-110 | exactly `TrainSpec.BeginEnterTerminal` |
| TrainStore.Store.CompleteEnterTerminal | src/store/useTrainStore.js:112-129 | exactly `TrainSpec.CompleteEnterTerminal` |
| TrainSpec.BeginExitTerminal | src/store/useTrainStore.js:135-154 | scheduled iff in the terminal view and not transitioning; accepted: the page is hidden at once, controls locked, camera heads to the saved position and the target 0.025 beyond it in z |
| TrainSpec.CompleteExitTerminal | src/store/useTrainStore.js:155-158 | the camera reaches the tween's end (the saved position); `inTerminal` and the transition flag clear and every other store field is unchanged; the controls are in free roam |
| TrainStore.Store.BeginExitTerminal | src/store/useTrainStore.js:135-139 | exactly `TrainSpec.BeginExitTerminal` |
| TrainStore.Store.CompleteExitTerminal | src/store/useTrainStore.js:141-159 | exactly `TrainSpec.CompleteExitTerminal` |
| TrainSpec.TerminalRoundTrip | src/store/useTrainStore.js:103-160 | entering and then leaving the terminal view puts the camera back where it was, with the target 0.025 ahead, controls free and every store field as before except the saved position and the hidden page |
| TrainSpec.BeginEnterProjects | src/store/useTrainStore.js:165-187 | scheduled iff not in the projects view and not transitioning; accepted: transition on, controls locked, camera saved; end values screen + (-0.15, 0, 0) and screen + (-0.05, 0, 0) |
| TrainSpec.CompleteEnterProjects | src/store/useTrainStore.js:174-190 | camera and target at the tween's end values; `inProjects` and `projectsVisible` set, transition over, every other store field unchanged, controls left locked |
| TrainSpec.EnterProjectsEffect | src/store/useTrainStore.js:165-192 | from outside the projects view, entering and completing leaves the camera at screen + (-0.15, 0, 0), the target at screen + (-0.05, 0, 0), the pre-entry position saved, the browser shown, the controls still locked |
| TrainStore.Store.BeginEnterProjects | src/store/useTrainStore.js:165-172 | exactly `TrainSpec.BeginEnterProjects` |
| TrainStore.Store.CompleteEnterProjects | src/store/useTrainStore.js:174-191 | exactly `TrainSpec.CompleteEnterProjects` |
| TrainSpec.BeginExitProjects | src/store/useTrainStore.js:197-216 | scheduled iff in the projects view and not transitioning; accepted: the browser is hidden at once, controls locked, camera heads back to the saved position and the target 0.025 beyond it in z |
| TrainSpec.CompleteExitProjects | src/store/useTrainStore.js:217-220 | the camera reaches the tween's end (the saved position); `inProjects` and the transition flag clear and every other store field is unchanged; the controls are in free roam |
| TrainStore.Store.BeginExitProjects | src/store/useTrainStore.js:197-201 | exactly `TrainSpec.BeginExitProjects` |
| TrainStore.Store.CompleteExitProjects | src/store/useTrainStore.js:203-221 | exactly `TrainSpec.CompleteExitProjects` |
| TrainSpec.ProjectsRoundTrip | src/store/useTrainStore.js:165-222 | entering and leaving the projects view restores the camera, as for the terminal |
| TrainSpec.Serialised | src/store/useTrainStore.js:48 | while a transition runs every action is rejected and changes nothing; every accepted action sets the transition flag and locks the controls |
| TrainSpec.ViewsNotExclusive | src/store/useTrainStore.js:166 | from inside the terminal view the projects view can be entered, after which both view flags are set |
| TrainSpec.NestedEntryRestoresLatestAnchor | src/store/useTrainStore.js:57 | each entry overwrites the saved position: after entering the train and visiting the terminal, leaving the terminal returns to the spot beside the door, not to the outdoor position |
| TrainScene.WalkStep | src/components/Experience/Train.jsx:60-83 | x never changes; z drops by 0.4 only on forward above -60 and rises by 0.4 only on backward below 32; y changes only on the ramp -45 <= z <= -30, by -0.17 forward and +0.17 backward; with no applicable key nothing moves |
| TrainScene.WalkStaysInCorridor | src/components/Experience/Train.jsx:67-80 | a step never leaves the corridor -60.4 < z < 32.4 |
| TrainScene.OnFrame | src/components/Experience/Train.jsx:60-83 | the interior moves by one walk step exactly when inside the train and not in a view or a transition, and is untouched otherwise |
| TrainScene.KeyDown | src/components/Experience/Train.jsx:48-54 | other keys do nothing; Escape exits the terminal iff in it and not transitioning, and exits the projects view iff in it, not in the terminal and not transitioning; the resulting scene and tween are exactly those of the exit action |
| TrainScene.HandleKeyDown | src/components/Experience/Train.jsx:48-54 | the store, camera and controls end exactly as `KeyDown` says |
| TrainScene.CursorStyle | src/components/Experience/Train.jsx:36-38 | the pointer cursor iff something (a non-empty name) is hovered and no transition runs |
| TrainScene.Mounted | src/components/Experience/Train.jsx:94-179 | interior hotspots exist only inside the train, and each exit button only in its own view |
| TrainScene.ProjectsPanelMounted | src/components/Experience/Train.jsx:128-146 | the projects browser is only mounted together with the projects screen, inside the train |
| TrainScene.TerminalPanelMounted | src/components/Experience/Train.jsx:172-176 | the terminal page is only mounted together with the terminal screen, inside the train |
| TrainScene.VisibilityFollowsViews | src/components/Experience/Train.jsx:128-179 | an accepted exit hides its panel at once, and once its return tween completes the exit button is unmounted |
| TrainScene.Highlighted | src/components/Experience/Train.jsx:95-178 | an outlined hotspot is the hovered object, so the cursor is the pointer over it unless a transition runs |
| TrainScene.AtMostOneHighlighted | src/components/Experience/Train.jsx:95-178 | no two hotspots are outlined at once |
| TrainScene.HoverOnEnter | src/components/Experience/Train.jsx:102 | the door records itself only from outside the train; the other hotspots always record themselves |
| TrainScene.HoverOnLeave | src/components/Experience/Train.jsx:103 | leaving any hotspot clears the hovered object |
| TrainScene.OnPointerEnter | src/components/Experience/Train.jsx:102-179 | only the hovered object changes, to `HoverOnEnter` |
| TrainScene.OnPointerLeave | src/components/Experience/Train.jsx:103-179 | only the hovered object changes, to none |
| TrainScene.HoverCursor | src/components/Experience/Train.jsx:36-38 | hovering a hotspot from where it reacts gives the pointer cursor unless a transition runs; leaving gives the arrow |
| TrainScene.ClickAction | src/components/Experience/Train.jsx:101-179 | the door enters the train, each screen enters its own view and each button leaves its own view; no two hotspots start the same action |
| TrainScene.OutlinedClickStarts | src/components/Experience/Train.jsx:95-179 | a click on a mounted, outlined hotspot is accepted whenever no transition runs |
| TrainScene.RedundantClicksIgnored | src/components/Experience/Train.jsx:101-167 | clicking the door from inside, or a screen whose view is already on, changes nothing |
| Seqs.Filter | src/components/Projects/Projects.jsx:96-103 | the result keeps exactly the elements that pass, and is never longer |
| Seqs.FilterConcat | src/components/Projects/Projects.jsx:96-103 | filtering commutes with concatenation, so kept elements stay in order |
| Seqs.Slice | src/components/Projects/Projects.jsx:108-110 | `slice` with both bounds clamped to the length; an end at or before the start gives the empty list |
| Seqs.Dedup | src/components/Projects/ProjectGraph.jsx:34 | every element appears once, and nothing else appears |
| Seqs.DedupFirstAppearanceOrder | src/components/Projects/ProjectGraph.jsx:34 | distinct values come out in the order of their first appearance |
| JsText.Show | src/components/Projects/ProjectGraph.jsx:87-91 | the decimal text of an integer id: a leading minus exactly for negative numbers, digits after it |
| JsText.ParseInt | src/components/Projects/ProjectDetail.jsx:11 | after leading white space: nothing gives `NaN`; a character other than a sign or digit gives `NaN`; a leading decimal digit (not `0x`) gives a non-negative number; a negative result needs a leading minus |
| JsText.ParseShow | src/components/Projects/ProjectDetail.jsx:11 | `parseInt` reads back the decimal text of an integer id (ids are safe integers, see Left out), whatever non-digit text follows |
| JsText.LessTransitive | src/components/Projects/Projects.jsx:27 | the default sort order is transitive |
| JsText.LessTotal | src/components/Projects/Projects.jsx:27 | any two different strings are ordered one way |
| JsText.ToLower | src/components/SpinningSphere.jsx:31 | same length; each capital A-Z becomes its lower-case letter, other characters unchanged |
| Projects.UniqueValues | src/components/Projects/Projects.jsx:24-28 | `'All'` first, then strictly sorted values that are exactly the values the field takes, list fields flattened |
| Projects.SortedListIsUnique | src/components/Projects/Projects.jsx:27 | a strictly sorted list is fixed by its elements, so the options do not depend on the data's order |
| Projects.WithFilter | src/components/Projects/Projects.jsx:121 | only the named filter key changes |
| Projects.ListFieldNeverMatches | src/components/Projects/Projects.jsx:100-101 | as written, an option taken from a list-valued scope is offered but selects nothing |
| Projects.PassesAgreesOnSingleValues | src/components/Projects/Projects.jsx:96-103 | the corrected filter is the original on projects with single-string fields |
| Projects.PassesAsWritten | src/components/Projects/Projects.jsx:96-103 | as written, a project passes a non-`'All'` scope or motivation filter only if that field is the single selected string; passing as written implies passing the corrected filter |
| Projects.FilteredProjects | src/components/Projects/Projects.jsx:96-103 | never longer than the data; every listed project is in the data and passes, and every project that passes is listed |
| Projects.FilteredMembership | src/components/Projects/Projects.jsx:96-103 | a project is listed iff it is in the data and each filter is `'All'` or matches its field |
| Projects.FilteredKeepsOrder | src/components/Projects/Projects.jsx:96-103 | the filtered list keeps the data's order |
| Projects.AllFiltersShowEverything | src/components/Projects/Projects.jsx:81 | with every filter at `'All'` the whole list is shown |
| Projects.EveryOptionSelectsSomething | src/components/Projects/Projects.jsx:24-28 | every offered scope or motivation option selects at least one project |
| Projects.PageSize | src/components/Projects/Projects.jsx:86-88 | 6 below a width of 1024, otherwise 4 |
| Paging.TotalPages | src/components/Projects/Projects.jsx:107 | the smallest page count whose pages hold every item; 0 iff there are no items |
| Paging.PageItems | src/components/Projects/Projects.jsx:108-110 | page p holds items p*size up to (p+1)*size, never more than `size`; a partial last page holds the rest of the list; a page past the end is empty |
| Paging.PagesCoverList | src/components/Projects/Projects.jsx:107-110 | the pages laid end to end are exactly the list |
| Paging.Navigate | src/components/Projects/Projects.jsx:123-125 | with pages the new page is in range, wrapping last to first and first to last; with none the result is not a number |
| Paging.NavigationEnabled | src/components/Projects/Projects.jsx:141-142 | the pager is enabled exactly when a step forward from the first page reaches another page |
| Paging.NavigateUndo | src/components/Projects/Projects.jsx:123-125 | a step forward and a step back return to the same page |
| Projects.GridCells | src/components/Projects/Projects.jsx:112-119 | on mobile the page itself; on desktop exactly 4 cells for a page of at most 4, the page's projects in order and empty cells after them |
| Projects.Archive.constructor | src/components/Projects/Projects.jsx:79-81 | all filters `'All'`, page 0 |
| Projects.Archive.HandleFilterChange | src/components/Projects/Projects.jsx:105-121 | the named filter changes and the page resets to 0 |
| Projects.Archive.HandleNavigation | src/components/Projects/Projects.jsx:123-142 | with more than one page, the page moves as `Navigate` says and stays valid |
| Projects.Archive.Resize | src/components/Projects/Projects.jsx:85-105 | the page resets to 0 exactly when the page size changes |
| ProjectDetail.FindById | src/components/Projects/ProjectDetail.jsx:11 | the first project with the id, or none when no project has it |
| ProjectDetail.Lookup | src/components/Projects/ProjectDetail.jsx:11 | not found iff no id equals `parseInt` of the parameter; otherwise the first project whose id does |
| ProjectDetail.RouteFindsProject | src/components/Projects/ProjectDetail.jsx:11 | with distinct (safe-integer) ids the parameter `${id}` finds exactly that project |
| ProjectDetail.SeparatorEnd | src/components/Projects/ProjectDetail.jsx:37 | where `/\n\s*\n/` matches, the match is a blank line and is the longest one there; where it does not, no blank line starts |
| ProjectDetail.Split | src/components/Projects/ProjectDetail.jsx:37 | at least one piece, and the pieces together hold exactly the description's visible characters |
| ProjectDetail.SplitWithoutBlankLine | src/components/Projects/ProjectDetail.jsx:37 | a description with no blank line is one piece, untrimmed |
| ProjectDetail.SplitAtFirstMatch | src/components/Projects/ProjectDetail.jsx:37 | the text is cut exactly at the first match of `/\n\s*\n/`: the untrimmed text before it, then the split of what follows the match |
| ProjectDetail.Paragraphs | src/components/Projects/ProjectDetail.jsx:37-38 | the non-blank pieces of the split, kept untrimmed: every page is a non-blank piece, and every non-blank piece is a page |
| ProjectDetail.ParagraphsSplitDescription | src/components/Projects/ProjectDetail.jsx:36-38 | every paragraph page is non-blank and holds no blank line, and together, in order, the pages hold exactly the description's visible characters |
| ProjectDetail.ContentPages | src/components/Projects/ProjectDetail.jsx:33-46 | no project gives no pages; otherwise the paragraphs in order, then a publications page iff there are publications, then a presentations page iff there are presentations |
| ProjectDetail.TextPagesNotBlank | src/components/Projects/ProjectDetail.jsx:37 | every text page has visible text |
| ProjectDetail.BuildContentPages | src/components/Projects/ProjectDetail.jsx:33-46 | the successive pushes build exactly `ContentPages` |
| ProjectDetail.PanelAsWritten | src/components/Projects/ProjectDetail.jsx:103-107 | the render throws exactly when there is no page at the current index |
| ProjectDetail.EmptyProjectCrashes | src/components/Projects/ProjectDetail.jsx:33-107 | a found project with an empty description and no lists has no pages and throws on first render |
| ProjectDetail.Panel | src/components/Projects/ProjectDetail.jsx:103-107 | the corrected panel shows an empty panel when there is no page |
| ProjectDetail.PanelAgrees | src/components/Projects/ProjectDetail.jsx:103-107 | the corrected panel equals the original wherever the original renders, and is empty only with no page |
| ProjectDetail.DetailView.constructor | src/components/Projects/ProjectDetail.jsx:9-13 | the pages of the looked-up project, page 0 |
| ProjectDetail.DetailView.HandlePageNavigation | src/components/Projects/ProjectDetail.jsx:48-51 | with the pager shown (more than one page) the page moves as `Navigate` says and a real page is shown |
| ProjectGraph.BuildGraph | src/components/Projects/ProjectGraph.jsx:21-43 | an empty list gives only the message; otherwise 1 + categories + projects nodes (center radius 30, categories 20, projects 12), and a link from the center to each category followed by one from each project's category to the project |
| ProjectGraph.Categories | src/components/Projects/ProjectGraph.jsx:34 | each category once, and every project's category among them |
| ProjectGraph.CategoriesComeFromProjects | src/components/Projects/ProjectGraph.jsx:34 | every category shown belongs to some project |
| ProjectGraph.LinksClosed | src/components/Projects/ProjectGraph.jsx:35-43 | every link's source and target are node ids |
| ProjectGraph.NodeClick | src/components/Projects/ProjectGraph.jsx:87-91 | only project nodes navigate, to `/projects/<id>` |
| ProjectGraph.ClickOpensProject | src/components/Projects/ProjectGraph.jsx:87-91 | clicking a project node opens that project's detail page |
| Landing.FindPointForTab | src/components/Landing.jsx:47 | the first point with that tab, or none when no point has it |
| Landing.EachTabNamesOnePoint | src/components/Landing.jsx:12-19 | every tab finds a point, no two points share a tab, and every point's tab is a button |
| Landing.Toggle | src/components/Landing.jsx:36-44 | clicking the selected point (same id) clears the selection; any other point becomes selected |
| Landing.Selection.HandlePointClick | src/components/Landing.jsx:36-44 | the selection toggles and the highlighted tab stays the selected point's tab |
| Landing.Selection.HandleTabClick | src/components/Landing.jsx:46-57 | a tab with no point does nothing; otherwise it acts as a click on its point, keeping the tab invariant |
| Landing.Selection.HandleClosePopup | src/components/Landing.jsx:59-62 | both cells cleared |
| Landing.HandleEnterExperience | src/components/Landing.jsx:27-30 | `enterExperience` becomes true and nothing else in the store changes |
| Landing.InitiateEnabled | src/components/Landing.jsx:131 | enabled iff loading has finished |
| Landing.Round | src/components/Landing.jsx:108 | `Math.round`: the nearest integer, halves rounded up |
| Landing.StatusLine | src/components/Landing.jsx:106-108 | the status text, followed by ` (<rounded progress>%)` iff loading and progress below 100 |
| Landing.StatusLineShowsProgress | src/components/Landing.jsx:108 | the number in the suffix reads back as the rounded progress |
| SpinningSphere.Classify | src/components/SpinningSphere.jsx:30-42 | error beats everything, then ready/online, then downloading, then connecting/authenticating, else idle, all on the lower-cased text |
| SpinningSphere.Color | src/components/SpinningSphere.jsx:12-18 | each state's colour is a `#rrggbb` hex colour |
| SpinningSphere.ColorsDistinct | src/components/SpinningSphere.jsx:12-18 | no two states share a colour |
| SpinningSphere.ClassifyIgnoresCase | src/components/SpinningSphere.jsx:31-37 | a status and its lower-cased form get the same state |
| SpinningSphere.ErrorWins | src/components/SpinningSphere.jsx:31-32 | text that mentions an error is red whatever follows |
| UiStore.AppStore.constructor | src/store/useStore.js:6-18 | loading, progress 0, 'Initializing...', not entered |
| UiStore.AppStore.SetLoading | src/store/useStore.js:7 | only `loading` changes; setting the same value again is a no-op |
| UiStore.AppStore.SetProgress | src/store/useStore.js:9-11 | only `progress` changes, to the value as given; same value again is a no-op |
| UiStore.AppStore.SetStatusText | src/store/useStore.js:15 | only `statusText` changes; same value again is a no-op |
| UiStore.AppStore.SetEnterExperience | src/store/useStore.js:19 | only `enterExperience` changes; same value again is a no-op |

## Left out

- Rendering: JSX, meshes, materials, CSS, layout, the D3 force simulation and drawing, the sphere's rotation and colour fade, and the title font-shrink loop. None of these change state that the rules above read.
- Tween timing: GSAP easing, durations and timeline offsets. Each tween is one jump to its end values, followed by its `onComplete` as a separate step.
- TrainScene.OnFrame: models one step per frame with the key state of that frame. A new walk tween can start before the previous one ends, and those overlapping tweens are not modelled. When both keys are held, both tweens start from the same position and the later, backward one decides the end value.
- THREE world-matrix math: the door, terminal and screen positions are inputs. The camera's world position is taken to be its `position`, since the camera has no parent.
- The door-opening animation started by `enterTrain`.
- TrainStore.Store.BeginEnterTrain and the other action methods require a controls object. The source dereferences `controls` unconditionally in every action, so with no controls object it throws. Only the two controls helpers accept a missing object.
- Routing: `/experience`, `/projects` and `/projects/:id`, and the navigation calls. Navigation is modelled as the route text, plus the lookup it leads to.
- `src/utils/loader.js` (the asset loader that writes the UI store), `Loader.jsx`, `Popup.jsx`, `Point.jsx`, `MainContainer.jsx`, `App.jsx` and `Experience.jsx`.
- SpinningSphere.Classify: which colour each of the loader's concrete messages gets is not proved. The substring tests on those literals are too costly for the prover.
- JsText.Show: `${n}` is modelled for integers only. JavaScript numbers are doubles, which hold integers exactly only below 2^53 and print in exponent form from 1e21; project ids are assumed to be safe integers (|id| < 2^53), where the decimal form is exact.
- JsText.ParseShow and ProjectDetail.RouteFindsProject: hold for every integer in the model, but describe JavaScript only for safe-integer ids, for the reason above.
- JsText.ToLower: only lower-cases A-Z. Non-ASCII case mapping is not modelled.
- JsText.Less: compares characters. JavaScript compares UTF-16 code units, and the two orders differ only outside the Basic Multilingual Plane.
- Project records: ids are integers and text fields are strings. Missing fields, `undefined` and fractional ids are not modelled. An absent description or list behaves as the empty one. Only `scope` and `motivation` may be lists.
- UiStore.AppStore: progress is a real number. `NaN` and values of the wrong type are not modelled.
- Projects.Archive: the project list is the bundled data from the start. The first render with an empty list, before the loading effect runs, is not modelled. The window width is an input, and the resize listener is left out. The page reset after a filter or page-size change is folded into the handler; the single render in between is not modelled.
- Projects.Archive and Projects.FilteredProjects use the corrected filter (see Findings). The filter as written is `Projects.PassesAsWritten`.
- ProjectDetail.DetailView.Shown uses the corrected panel (see Findings). The panel as written is `ProjectDetail.PanelAsWritten`.
- The grid/graph toggle and the mobile filter-panel toggle. They only choose what is drawn.

## Findings

| source | as written | input that shows it | evidently intended | confidence | as-written member | corrected member |
|---|---|---|---|---|---|---|
| src/components/Projects/ProjectDetail.jsx:103-107 | with no page at the current index the panel reads `.title` of `undefined` and the page throws | a project found by id whose description is empty (or only blank lines) and whose publications and presentations are empty | show an empty panel | not executed; whether the bundled data holds such a project is not known | ProjectDetail.EmptyProjectCrashes | ProjectDetail.PanelAgrees |
| src/components/Projects/Projects.jsx:100-101 | scope and motivation are compared with `===`, so a project whose field is a list never passes, although its entries are offered as options (lines 24-28) | one project with scope `["A"]`: option `A` is offered, and choosing it lists nothing | a list-valued field matches when the option is one of its entries | not executed | Projects.ListFieldNeverMatches | Projects.EveryOptionSelectsSomething |
