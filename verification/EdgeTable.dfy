/** The rows of the edges table of the knowledge store, as layout, impact analysis and index read them. */
module EdgeTable {
  import opened Options

  datatype Edge = Edge(from: string, to: string, kind: string, text: Option<string>)

  predicate IsDependency(e: Edge) {
    e.kind != "contains" && e.kind != "constrains"
  }
}
