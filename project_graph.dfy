/** The data step of the project graph
    (src/components/Projects/ProjectGraph.jsx): the node and link lists built
    from the filtered projects, the message shown for an empty list, and the
    click rule that opens a project's detail page. */
module ProjectGraph {
  import opened Common
  import opened Seqs
  import opened JsText
  import opened ProjectData
  import ProjectDetail

  const CenterId: string := "PROJECTS"
  const EmptyMessage: string := "No projects match the current filters."

  datatype NodeKind = Center | CategoryNode | ProjectNode(data: Project)

  datatype Node = Node(id: string, kind: NodeKind, radius: nat)

  datatype Link = Link(source: string, target: string)

  /** What the graph area shows: the message, or the nodes and links handed
      to the force layout. */
  datatype Graph = Message(text: string) | Drawn(nodes: seq<Node>, links: seq<Link>)

  /** `[...new Set(projects.map(p => p.category))]`: every category
      appears once, and exactly the categories of the projects appear. */
  function Categories(ps: seq<Project>): (r: seq<string>)
    ensures NoDuplicates(r)
    ensures forall i :: 0 <= i < |ps| ==> ps[i].category in r
  {
    var cs := seq(|ps|, i requires 0 <= i < |ps| => ps[i].category);
    var r := Dedup(cs);
    assert forall i :: 0 <= i < |ps| ==> cs[i] == ps[i].category;
    r
  }

  /** Every category shown is the category of some project. */
  lemma CategoriesComeFromProjects(ps: seq<Project>)
    ensures forall c :: c in Categories(ps) ==> exists i :: 0 <= i < |ps| && ps[i].category == c
  {
  }

  function Radius(k: NodeKind): nat {
    match k
    case Center => 30
    case CategoryNode => 20
    case ProjectNode(_) => 12
  }

  /** The data-processing block, or the message when the list is empty. */
  function BuildGraph(ps: seq<Project>): (r: Graph)
    ensures r.Message? <==> ps == []
    ensures r.Message? ==> r.text == EmptyMessage
    ensures r.Drawn? ==> |r.nodes| == 1 + |Categories(ps)| + |ps|
    ensures r.Drawn? ==> |r.links| == |Categories(ps)| + |ps|
    ensures r.Drawn? ==> r.nodes[0] == Node(CenterId, Center, 30)
    ensures r.Drawn? ==> forall i :: 0 <= i < |r.nodes| ==> r.nodes[i].radius == Radius(r.nodes[i].kind)
    ensures r.Drawn? ==> forall i :: 0 <= i < |r.nodes| ==> (r.nodes[i].kind.Center? <==> i == 0)
    ensures r.Drawn? ==> forall i :: 0 <= i < |ps| ==>
      r.nodes[1 + |Categories(ps)| + i] == Node(ps[i].title, ProjectNode(ps[i]), 12)
    ensures r.Drawn? ==> forall i :: 0 <= i < |Categories(ps)| ==>
      r.nodes[1 + i] == Node(Categories(ps)[i], CategoryNode, 20)
    ensures r.Drawn? ==> forall k :: 0 <= k < |Categories(ps)| ==>
      r.links[k] == Link(CenterId, Categories(ps)[k])
    ensures r.Drawn? ==> forall i :: 0 <= i < |ps| ==>
      r.links[|Categories(ps)| + i] == Link(ps[i].category, ps[i].title)
  {
    if ps == [] then Message(EmptyMessage)
    else
      var cs := Categories(ps);
      Drawn(seq(1 + |cs| + |ps|, i requires 0 <= i < 1 + |cs| + |ps| => NodeAt(cs, ps, i)),
            seq(|cs| + |ps|, k requires 0 <= k < |cs| + |ps| => LinkAt(cs, ps, k)))
  }

  /** Node `i` of the list: the center, then the categories, then the projects. */
  function NodeAt(cs: seq<string>, ps: seq<Project>, i: nat): Node
    requires i < 1 + |cs| + |ps|
  {
    if i == 0 then Node(CenterId, Center, 30)
    else if i <= |cs| then Node(cs[i - 1], CategoryNode, 20)
    else Node(ps[i - 1 - |cs|].title, ProjectNode(ps[i - 1 - |cs|]), 12)
  }

  /** Link `k`: the center to each category, then each project's category to the project. */
  function LinkAt(cs: seq<string>, ps: seq<Project>, k: nat): Link
    requires k < |cs| + |ps|
  {
    if k < |cs| then Link(CenterId, cs[k])
    else Link(ps[k - |cs|].category, ps[k - |cs|].title)
  }

  predicate HasNode(nodes: seq<Node>, id: string) {
    exists i :: 0 <= i < |nodes| && nodes[i].id == id
  }

  /** The spoke from the center to a category joins two nodes. */
  lemma SpokeClosed(ps: seq<Project>, k: nat)
    requires ps != [] && k < |Categories(ps)|
    ensures var g := BuildGraph(ps);
      HasNode(g.nodes, g.links[k].source) && HasNode(g.nodes, g.links[k].target)
  {
    var g := BuildGraph(ps);
    assert g.nodes[0].id == g.links[k].source;
    assert g.nodes[1 + k].id == g.links[k].target;
  }

  /** The leaf from a project's category to the project joins two nodes. */
  lemma LeafClosed(ps: seq<Project>, i: nat)
    requires ps != [] && i < |ps|
    ensures var g := BuildGraph(ps); var k := |Categories(ps)| + i;
      HasNode(g.nodes, g.links[k].source) && HasNode(g.nodes, g.links[k].target)
  {
    var g := BuildGraph(ps);
    var cs := Categories(ps);
    assert ps[i].category in cs;
    var j :| 0 <= j < |cs| && cs[j] == ps[i].category;
    assert g.nodes[1 + j].id == g.links[|cs| + i].source;
    assert g.nodes[1 + |cs| + i].id == g.links[|cs| + i].target;
  }

  /** Each link joins two nodes of the graph: the center to a category, or a
      project's category to the project. */
  lemma LinksClosed(ps: seq<Project>)
    requires ps != []
    ensures var g := BuildGraph(ps);
      forall k :: 0 <= k < |g.links| ==>
        HasNode(g.nodes, g.links[k].source) && HasNode(g.nodes, g.links[k].target)
  {
    var cs := Categories(ps);
    forall k | 0 <= k < |cs| + |ps|
      ensures var g := BuildGraph(ps);
        HasNode(g.nodes, g.links[k].source) && HasNode(g.nodes, g.links[k].target)
    {
      if k < |cs| {
        SpokeClosed(ps, k);
      } else {
        LeafClosed(ps, k - |cs|);
      }
    }
  }

  /** Only a project node navigates, to `/projects/<id>`. */
  function NodeClick(n: Node): (r: Option<string>)
    ensures r.Some? <==> n.kind.ProjectNode?
    ensures r.Some? ==> r.value == "/projects/" + Show(n.kind.data.id)
  {
    match n.kind
    case ProjectNode(p) => Some("/projects/" + Show(p.id))
    case _ => None
  }

  /** Clicking a project node opens that project's detail page: the route
      parameter after `/projects/` finds it in the bundled list when ids
      are distinct. */
  lemma ClickOpensProject(all: seq<Project>, ps: seq<Project>, i: nat)
    requires forall a, b :: 0 <= a < b < |all| ==> all[a].id != all[b].id
    requires forall k :: 0 <= k < |ps| ==> ps[k] in all
    requires ps != [] && i < |BuildGraph(ps).nodes|
    requires BuildGraph(ps).nodes[i].kind.ProjectNode?
    ensures var p := BuildGraph(ps).nodes[i].kind.data;
      p in ps &&
      NodeClick(BuildGraph(ps).nodes[i]) == Some("/projects/" + Show(p.id)) &&
      ProjectDetail.Lookup(all, Show(p.id)) == Some(p)
  {
    var g := BuildGraph(ps);
    var cs := Categories(ps);
    assert i >= 1 + |cs|;
    var k := i - 1 - |cs|;
    assert g.nodes[i] == Node(ps[k].title, ProjectNode(ps[k]), 12);
    var p := ps[k];
    var j :| 0 <= j < |all| && all[j] == p;
    assert Show(p.id) + "" == Show(p.id);
    ProjectDetail.RouteFindsProject(all, j, "");
  }
}
