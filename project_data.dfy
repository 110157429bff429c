/** One entry of the bundled project list (projects.json), with the fields
    the archive, the detail page and the graph read. */
module ProjectData {

  /** A field that is either one string or, for `scope` and `motivation`, a
      list of strings. */
  datatype FieldValue = Single(value: string) | Many(values: seq<string>)

  datatype Project = Project(
    id: int,
    title: string,
    category: string,
    status: string,
    scope: FieldValue,
    motivation: FieldValue,
    description: string,
    publications: seq<string>,
    presentations: seq<string>)
}
