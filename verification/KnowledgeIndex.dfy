/**
 The node, edge and full-text tables of the knowledge store and the operations
 that change them. A table is a map from its key; an FTS row has a row id, since
 nothing in that table keeps two rows from having the same node_id. The hash in
 an edge id is taken to be injective, so an edge id is the hashed text itself.
*/
module KnowledgeIndex {
  import opened Options
  import opened EdgeTable

  type Id = string
  type EdgeId = string

  /** A property value: a string, a list (item by item as str() shows it) or anything else. */
  datatype Value = Text(text: string) | Items(items: seq<string>) | Other

  /** Properties as given: a dict, anything falsy, or a truthy value that is no dict (a list, a doubly encoded string). */
  datatype Props = Dict(values: seq<Value>) | Falsy | Misshapen

  datatype Node = Node(kind: string, name: string, description: Option<string>, props: Props)

  /** labels holds the words of extra_text that come from edges, texts those from properties. */
  datatype Row = Row(id: Id, kind: string, name: string, description: string, labels: map<EdgeId, string>, texts: seq<string>)

  datatype Db = Db(nodes: map<Id, Node>, edges: map<EdgeId, Edge>, fts: map<nat, Row>, nextRow: nat)

  datatype Op =
    | AddNode(id: Id, kind: string, name: string, description: Option<string>, props: Props)
    | UpdateNode(id: Id, description: Option<string>, given: Option<Props>, others: bool) // others: risk level or line count given
    | RemoveNode(id: Id)
    | AddEdge(from: Id, to: Id, kind: string, text: Option<string>)
    | RemoveEdge(from: Id, to: Id, kind: string)
    | Unusable  // unknown op, missing key or NULL in a NOT NULL column: refused before any row changes
    | NotADict  // op_dict.get raises outside the try

  /** How an operation ends: the affected rows of an update count, otherwise 1; or an exception. */
  datatype Outcome = Rows(count: nat) | Raised

  // ----- the index ----------------------------------------------------------------

  function EdgeIdOf(from: Id, to: Id, kind: string): EdgeId {
    from + ":" + to + ":" + kind
  }

  predicate Touches(e: Edge, id: Id) {
    e.from == id || e.to == id
  }

  function Labels(edges: map<EdgeId, Edge>, id: Id): map<EdgeId, string> {
    map k | k in edges && Touches(edges[k], id) && edges[k].text.Some? :: edges[k].text.value
  }

  function Flatten(values: seq<Value>): seq<string> {
    if values == [] then [] else Words(values[0]) + Flatten(values[1..])
  }

  function Words(v: Value): seq<string> {
    match v
    case Text(t) => [t]
    case Items(ts) => ts
    case Other => []
  }

  function Texts(props: Props): seq<string> {
    if props.Dict? then Flatten(props.values) else []
  }

  /** The texts are the strings among the values and the items of the lists among them. */
  lemma {:induction false} FlattenIs(values: seq<Value>, text: string)
    ensures text in Flatten(values) <==> exists v :: v in values && (v == Text(text) || (v.Items? && text in v.items))
  {
    if values == [] {
    } else {
      FlattenIs(values[1..], text);
      assert values == [values[0]] + values[1..];
    }
  }

  function OrEmpty(description: Option<string>): string {
    if description.Some? then description.value else ""
  }

  function RowFor(id: Id, n: Node, edges: map<EdgeId, Edge>): Row {
    Row(id, n.kind, n.name, OrEmpty(n.description), Labels(edges, id), Texts(n.props))
  }

  function DeleteRows(fts: map<nat, Row>, id: Id): map<nat, Row> {
    map r | r in fts && fts[r].id != id :: fts[r]
  }

  /** _upsert_fts with the data of a node already stored. */
  function Upsert(db: Db, id: Id): Db
    requires id in db.nodes
  {
    db.(fts := DeleteRows(db.fts, id)[db.nextRow := RowFor(id, db.nodes[id], db.edges)], nextRow := db.nextRow + 1)
  }

  // ----- the implementations, without commit or rollback ------------------------------

  /** The exception of _build_extra_text leaves the rows written before it. */
  function Reindexed(db: Db, id: Id, props: Props): (Db, Outcome)
    requires id in db.nodes
  {
    if props.Misshapen? then (db, Raised) else (Upsert(db, id), Rows(1))
  }

  function AddNodeImpl(db: Db, id: Id, n: Node): (Db, Outcome) {
    Reindexed(db.(nodes := db.nodes[id := n]), id, n.props)
  }

  function Updated(n: Node, description: Option<string>, props: Option<Props>): Node {
    n.(description := if description.Some? then description else n.description,
       props := if props.Some? then props.value else n.props)
  }

  function UpdateNodeImpl(db: Db, id: Id, description: Option<string>, props: Option<Props>, others: bool): (Db, Outcome) {
    if id !in db.nodes then (db, Rows(0))
    else if description.None? && props.None? && !others then (db, Rows(1))
    else
      var n := Updated(db.nodes[id], description, props);
      Reindexed(db.(nodes := db.nodes[id := n]), id, n.props)
  }

  function RemoveNodeImpl(db: Db, id: Id): Db {
    db.(fts := DeleteRows(db.fts, id),
        edges := map k | k in db.edges && !Touches(db.edges[k], id) :: db.edges[k],
        nodes := db.nodes - {id})
  }

  function AddEdgeImpl(db: Db, e: Edge): (Db, Outcome) {
    if e.from !in db.nodes || e.to !in db.nodes then (db, Raised)
    else (db.(edges := db.edges[EdgeIdOf(e.from, e.to, e.kind) := e]), Rows(1))
  }

  function Impl(db: Db, op: Op): (Db, Outcome) {
    match op
    case AddNode(id, kind, name, description, props) => AddNodeImpl(db, id, Node(kind, name, description, props))
    case UpdateNode(id, description, given, others) => UpdateNodeImpl(db, id, description, given, others)
    case RemoveNode(id) => (RemoveNodeImpl(db, id), Rows(1))
    case AddEdge(from, to, kind, text) => AddEdgeImpl(db, Edge(from, to, kind, text))
    case RemoveEdge(from, to, kind) => (db.(edges := db.edges - {EdgeIdOf(from, to, kind)}), Rows(1))
    case Unusable => (db, Raised)
    case NotADict => (db, Raised)
  }

  /** A public method is its own transaction. */
  function Commit(db: Db, op: Op): Db {
    var (after, outcome) := Impl(db, op);
    if outcome.Raised? then db else after
  }

  // ----- what the tables should satisfy --------------------------------------------------

  predicate Describes(row: Row, n: Node) {
    && row.kind == n.kind && row.name == n.name
    && row.description == (if n.description.Some? then n.description.value else "")
  }

  /** The row of a node, and the only one. */
  predicate IsRowOf(fts: map<nat, Row>, r: nat, id: Id) {
    r in fts && fts[r].id == id && forall r' :: r' in fts && fts[r'].id == id ==> r' == r
  }

  /** Node id has exactly one row, with its type, name and description; an id that is no node has none. */
  ghost predicate InSync(db: Db, id: Id) {
    if id in db.nodes then exists r :: IsRowOf(db.fts, r, id) && Describes(db.fts[r], db.nodes[id])
    else forall r :: r in db.fts ==> db.fts[r].id != id
  }

  ghost predicate Agrees(db: Db) {
    forall id :: InSync(db, id)
  }

  ghost predicate NoDanglingEdge(db: Db) {
    forall k :: k in db.edges ==> db.edges[k].from in db.nodes && db.edges[k].to in db.nodes
  }

  /** Row ids are handed out in increasing order. */
  ghost predicate RowsBelow(db: Db) {
    forall r :: r in db.fts ==> r < db.nextRow
  }

  ghost predicate Sound(db: Db) {
    NoDanglingEdge(db) && RowsBelow(db)
  }

  /** Every row's extra text is that of the current edges and properties. */
  ghost predicate Fresh(db: Db) {
    forall r :: r in db.fts && db.fts[r].id in db.nodes ==> db.fts[r] == RowFor(db.fts[r].id, db.nodes[db.fts[r].id], db.edges)
  }

  // ----- one operation --------------------------------------------------------------------

  lemma UpsertSyncs(db: Db, id: Id)
    requires id in db.nodes && RowsBelow(db)
    ensures InSync(Upsert(db, id), id) && RowsBelow(Upsert(db, id))
    ensures forall other :: other != id ==> InSync(Upsert(db, id), other) == InSync(db, other)
  {
    hide Labels, Texts;
    var u := Upsert(db, id);
    assert IsRowOf(u.fts, db.nextRow, id);
    forall other | other != id
      ensures InSync(u, other) == InSync(db, other)
    {
      OtherRows(db, u, other);
    }
  }

  /** Being in sync only looks at the node and at the rows with its id. */
  lemma OtherRows(db: Db, u: Db, id: Id)
    requires forall r :: (r in db.fts && db.fts[r].id == id) <==> (r in u.fts && u.fts[r].id == id)
    requires forall r :: r in db.fts && db.fts[r].id == id ==> u.fts[r] == db.fts[r]
    requires id in db.nodes <==> id in u.nodes
    requires id in db.nodes ==> Indexed(u.nodes[id]) == Indexed(db.nodes[id])
    ensures InSync(u, id) == InSync(db, id)
  {
    if id in db.nodes {
      forall r
        ensures IsRowOf(u.fts, r, id) == IsRowOf(db.fts, r, id)
      {
      }
    }
  }

  function Indexed(n: Node): (string, string, string) {
    (n.kind, n.name, OrEmpty(n.description))
  }

  /** Storing node id without indexing it keeps it in sync exactly when what is indexed did not change. */
  lemma StoringUnindexed(db: Db, id: Id, n: Node)
    requires InSync(db, id)
    ensures InSync(db.(nodes := db.nodes[id := n]), id) <==> id in db.nodes && Indexed(db.nodes[id]) == Indexed(n)
  {
    var u := db.(nodes := db.nodes[id := n]);
    if id in db.nodes {
      var r :| IsRowOf(db.fts, r, id) && Describes(db.fts[r], db.nodes[id]);
      if InSync(u, id) {
        var r' :| IsRowOf(u.fts, r', id) && Describes(u.fts[r'], n);
        assert r' == r;
      }
    }
  }

  /**
   The operation stores a node but raises before indexing it: its properties are
   truthy and no dict, and what the index shows of the node changes.
  */
  predicate LeavesStale(db: Db, op: Op) {
    match op
    case AddNode(id, kind, name, description, props) =>
      props.Misshapen? && !(id in db.nodes && Indexed(db.nodes[id]) == (kind, name, OrEmpty(description)))
    case UpdateNode(id, description, given, others) =>
      && id in db.nodes && (if given.Some? then given.value else db.nodes[id].props).Misshapen?
      && description.Some? && description.value != OrEmpty(db.nodes[id].description)
    case _ => false
  }

  lemma ReindexedStep(db: Db, id: Id, n: Node)
    requires Sound(db) && Agrees(db)
    ensures var (u, outcome) := Reindexed(db.(nodes := db.nodes[id := n]), id, n.props);
      Agrees(u) <==> !n.props.Misshapen? || (id in db.nodes && Indexed(db.nodes[id]) == Indexed(n))
  {
    hide Labels, Texts, InSync, IsRowOf;
    var stored := db.(nodes := db.nodes[id := n]);
    StoringUnindexed(db, id, n);
    forall other | other != id
      ensures InSync(stored, other)
    {
      assert InSync(db, other);
      OtherRows(db, stored, other);
    }
    UpsertSyncs(stored, id);
  }

  lemma RemoveStep(db: Db, id: Id)
    requires Sound(db) && Agrees(db)
    ensures Agrees(RemoveNodeImpl(db, id))
  {
    hide Labels, Texts, IsRowOf;
    var u := RemoveNodeImpl(db, id);
    forall other
      ensures InSync(u, other)
    {
      assert InSync(db, other);
      if other != id {
        OtherRows(db, u, other);
      }
    }
  }

  lemma EdgesDoNotMatter(db: Db, u: Db)
    requires Agrees(db) && u.nodes == db.nodes && u.fts == db.fts
    ensures Agrees(u)
  {
    hide IsRowOf;
    forall id
      ensures InSync(u, id)
    {
      assert InSync(db, id);
    }
  }

  /** No operation leaves an edge without its nodes, whatever it raises. */
  lemma ImplSound(db: Db, op: Op)
    requires Sound(db)
    ensures Sound(Impl(db, op).0)
  {
    hide Labels, Texts;
  }

  /** One operation keeps the index in agreement exactly when it does not leave a stored node unindexed. */
  lemma ImplStep(db: Db, op: Op)
    requires Sound(db) && Agrees(db)
    ensures Agrees(Impl(db, op).0) <==> !LeavesStale(db, op)
  {
    hide InSync, Agrees, Reindexed, RemoveNodeImpl;
    match op {
      case AddNode(id, kind, name, description, props) => ReindexedStep(db, id, Node(kind, name, description, props));
      case UpdateNode(id, description, given, others) =>
        if id in db.nodes {
          ReindexedStep(db, id, Updated(db.nodes[id], description, given));
        }
      case RemoveNode(id) => RemoveStep(db, id);
      case AddEdge(from, to, kind, text) => EdgesDoNotMatter(db, Impl(db, op).0);
      case RemoveEdge(from, to, kind) => EdgesDoNotMatter(db, Impl(db, op).0);
      case _ =>
    }
  }

  /** A raising operation of a public method is rolled back, so no public method leaves anything stale. */
  lemma CommitStep(db: Db, op: Op)
    requires Sound(db) && Agrees(db)
    ensures Sound(Commit(db, op)) && Agrees(Commit(db, op))
  {
    ImplStep(db, op);
    ImplSound(db, op);
    hide Sound, Agrees;
  }

  // ----- the words of extra_text ----------------------------------------------------------

  /**
   The operation changes the labels of an edge at a node other than the one it
   indexes, if any: that node's extra text is out of date until it is indexed again.
  */
  ghost predicate LeavesExtraStale(db: Db, op: Op) {
    match op
    case RemoveNode(id) => exists k :: IsLabelledAt(db, k, id) && !(db.edges[k].from == id == db.edges[k].to)
    case RemoveEdge(from, to, kind) => EdgeIdOf(from, to, kind) in db.edges && db.edges[EdgeIdOf(from, to, kind)].text.Some?
    case AddEdge(from, to, kind, text) =>
      var k := EdgeIdOf(from, to, kind);
      if k in db.edges && db.edges[k].text.Some?
      then db.edges[k].text != text || !SameEnds(db.edges[k], Edge(from, to, kind, text))
      else text.Some?
    case _ => false
  }

  predicate IsLabelledAt(db: Db, k: EdgeId, id: Id) {
    k in db.edges && db.edges[k].text.Some? && Touches(db.edges[k], id)
  }

  predicate SameEnds(e: Edge, f: Edge) {
    {e.from, e.to} == {f.from, f.to}
  }

  /** Given that the index agrees with the nodes, fresh means every node's labels and texts are in its row. */
  lemma FreshRow(db: Db, id: Id, r: nat)
    requires Fresh(db) && IsRowOf(db.fts, r, id) && id in db.nodes
    ensures db.fts[r] == RowFor(id, db.nodes[id], db.edges)
  {
  }

  lemma LabelsDiffer(db: Db, u: Db, id: Id, k: EdgeId)
    requires Agrees(db) && Fresh(db) && u.fts == db.fts && u.nodes == db.nodes && id in db.nodes
    requires Labels(u.edges, id) != Labels(db.edges, id)
    ensures !Fresh(u)
  {
    hide Labels, Texts;
    assert InSync(db, id);
    var r :| IsRowOf(db.fts, r, id);
    FreshRow(db, id, r);
  }

  lemma LabelsKept(db: Db, u: Db)
    requires Fresh(db) && u.fts == db.fts && u.nodes == db.nodes
    requires forall id :: Labels(u.edges, id) == Labels(db.edges, id)
    ensures Fresh(u)
  {
    hide Labels, Texts;
  }

  /** Replacing the edge stored under k by e, or by nothing. */
  function WithEdge(db: Db, k: EdgeId, e: Option<Edge>): Db {
    db.(edges := if e.Some? then db.edges[k := e.value] else db.edges - {k})
  }

  predicate SameLabel(was: Option<Edge>, e: Option<Edge>) {
    if was.Some? && was.value.text.Some?
    then e.Some? && e.value.text == was.value.text && SameEnds(was.value, e.value)
    else e.None? || e.value.text.None?
  }

  function EdgeAt(db: Db, k: EdgeId): Option<Edge> {
    if k in db.edges then Some(db.edges[k]) else None
  }

  lemma EdgeFresh(db: Db, k: EdgeId, e: Option<Edge>)
    requires Agrees(db) && Fresh(db) && NoDanglingEdge(db)
    requires e.Some? ==> e.value.from in db.nodes && e.value.to in db.nodes
    ensures Fresh(WithEdge(db, k, e)) <==> SameLabel(EdgeAt(db, k), e)
  {
    var u := WithEdge(db, k, e);
    if SameLabel(EdgeAt(db, k), e) {
      forall id
        ensures Labels(u.edges, id) == Labels(db.edges, id)
      {
        SameLabelSameLabels(db, k, e, id);
      }
      hide Fresh, Labels;
      LabelsKept(db, u);
    } else {
      var id := OtherLabel(db, k, e);
      hide Fresh, Labels;
      LabelsDiffer(db, u, id, k);
    }
  }

  lemma SameLabelSameLabels(db: Db, k: EdgeId, e: Option<Edge>, id: Id)
    requires SameLabel(EdgeAt(db, k), e)
    ensures Labels(WithEdge(db, k, e).edges, id) == Labels(db.edges, id)
  {
    if k in db.edges && e.Some? && db.edges[k].text.Some? {
      SameEndsTouch(db.edges[k], e.value, id);
    }
  }

  lemma SameEndsTouch(e: Edge, f: Edge, id: Id)
    requires SameEnds(e, f)
    ensures Touches(e, id) == Touches(f, id)
  {
    assert Touches(e, id) == (id in {e.from, e.to});
    assert Touches(f, id) == (id in {f.from, f.to});
  }

  /** A node at which the label stored under k changes. */
  lemma OtherLabel(db: Db, k: EdgeId, e: Option<Edge>) returns (id: Id)
    requires !SameLabel(EdgeAt(db, k), e) && NoDanglingEdge(db)
    requires e.Some? ==> e.value.from in db.nodes && e.value.to in db.nodes
    ensures id in db.nodes && Labels(WithEdge(db, k, e).edges, id) != Labels(db.edges, id)
  {
    var u := WithEdge(db, k, e);
    if k in db.edges && db.edges[k].text.Some? {
      var f := db.edges[k];
      if e.None? || e.value.text != f.text {
        id := f.from;
        assert k in Labels(db.edges, id) && Labels(db.edges, id)[k] == f.text.value;
      } else {
        id :| id in {f.from, f.to, e.value.from, e.value.to} && (id in {f.from, f.to}) != (id in {e.value.from, e.value.to});
        assert (k in Labels(db.edges, id)) != (k in Labels(u.edges, id));
      }
    } else {
      id := e.value.from;
      assert k !in Labels(db.edges, id) && k in Labels(u.edges, id);
    }
  }

  lemma NodeFresh(db: Db, id: Id, n: Node)
    requires RowsBelow(db) && Fresh(db) && !n.props.Misshapen?
    ensures Fresh(Upsert(db.(nodes := db.nodes[id := n]), id))
  {
    hide Labels, Texts;
  }

  lemma RemovalFresh(db: Db, id: Id)
    requires Agrees(db) && Fresh(db) && NoDanglingEdge(db)
    ensures Fresh(RemoveNodeImpl(db, id)) <==> !LeavesExtraStale(db, RemoveNode(id))
  {
    var u := RemoveNodeImpl(db, id);
    if k :| IsLabelledAt(db, k, id) && !(db.edges[k].from == id == db.edges[k].to) {
      var other := if db.edges[k].from == id then db.edges[k].to else db.edges[k].from;
      assert InSync(db, other);
      var r :| IsRowOf(db.fts, r, other);
      FreshRow(db, other, r);
      assert k in db.fts[r].labels && k !in Labels(u.edges, other);
      assert u.fts[r].id == other;
    } else {
      forall r | r in u.fts && u.fts[r].id in u.nodes
        ensures u.fts[r] == RowFor(u.fts[r].id, u.nodes[u.fts[r].id], u.edges)
      {
        RemovalKeepsLabels(db, id, u.fts[r].id);
      }
    }
  }

  lemma RemovalKeepsLabels(db: Db, id: Id, other: Id)
    requires other != id && !LeavesExtraStale(db, RemoveNode(id))
    ensures Labels(RemoveNodeImpl(db, id).edges, other) == Labels(db.edges, other)
  {
    forall k | k in Labels(db.edges, other)
      ensures !Touches(db.edges[k], id)
    {
      assert IsLabelledAt(db, k, other);
      assert IsLabelledAt(db, k, id) <==> Touches(db.edges[k], id);
    }
  }

  /**
   An operation that does not raise keeps every row's extra text up to date exactly
   when it changes no label at a node it does not index.
  */
  lemma ExtraTextStep(db: Db, op: Op)
    requires Sound(db) && Agrees(db) && Fresh(db) && Impl(db, op).1.Rows?
    ensures Fresh(Impl(db, op).0) <==> !LeavesExtraStale(db, op)
  {
    hide Fresh, Agrees, Labels, Texts, RemoveNodeImpl, Upsert;
    match op {
      case AddNode(id, kind, name, description, props) => NodeFresh(db, id, Node(kind, name, description, props));
      case UpdateNode(id, description, given, others) =>
        if id in db.nodes && !Updated(db.nodes[id], description, given).props.Misshapen? {
          NodeFresh(db, id, Updated(db.nodes[id], description, given));
        }
      case RemoveNode(id) => RemovalFresh(db, id);
      case AddEdge(from, to, kind, text) => EdgeFresh(db, EdgeIdOf(from, to, kind), Some(Edge(from, to, kind, text)));
      case RemoveEdge(from, to, kind) => EdgeFresh(db, EdgeIdOf(from, to, kind), None);
      case _ =>
    }
  }

  // ----- batches --------------------------------------------------------------------------

  datatype Tally = Tally(db: Db, succeeded: nat, failed: nat)

  predicate Succeeds(op: Op, outcome: Outcome) {
    outcome.Rows? && !(op.UpdateNode? && outcome.count == 0)
  }

  function BatchStep(t: Tally, op: Op): Tally {
    var (db, outcome) := Impl(t.db, op);
    if Succeeds(op, outcome) then Tally(db, t.succeeded + 1, t.failed) else Tally(db, t.succeeded, t.failed + 1)
  }

  /** The operations one after the other, each exception caught with its partial effect kept. */
  function Batch(t: Tally, ops: seq<Op>): Tally
    decreases |ops|
  {
    if ops == [] then t else Batch(BatchStep(t, ops[0]), ops[1..])
  }

  /** The batch's transaction: an element that is no dict raises outside the try, and everything is rolled back. */
  function BatchResult(db: Db, ops: seq<Op>): Option<Tally> {
    if NotADict in ops then None else Some(Batch(Tally(db, 0, 0), ops))
  }

  /** What the counters say of one operation, in terms of the tables before it. */
  lemma OpFailsIff(t: Tally, op: Op)
    ensures var u := BatchStep(t, op);
      var fails :=
        match op
        case AddNode(_, _, _, _, props) => props.Misshapen?
        case UpdateNode(id, description, given, others) =>
          || id !in t.db.nodes
          || ((description.Some? || given.Some? || others) && (if given.Some? then given.value else t.db.nodes[id].props).Misshapen?)
        case RemoveNode(_) => false
        case AddEdge(from, to, _, _) => from !in t.db.nodes || to !in t.db.nodes
        case RemoveEdge(_, _, _) => false
        case _ => true;
      u.failed == t.failed + (if fails then 1 else 0) && u.succeeded == t.succeeded + if fails then 0 else 1
  {
    hide Upsert;
  }

  lemma {:induction false} EveryOpIsCounted(t: Tally, ops: seq<Op>)
    ensures Batch(t, ops).succeeded + Batch(t, ops).failed == t.succeeded + t.failed + |ops|
    decreases |ops|
  {
    if ops == [] {
    } else {
      EveryOpIsCounted(BatchStep(t, ops[0]), ops[1..]);
    }
  }

  /** The index agrees with the nodes before, between and after the operations. */
  ghost predicate AgreesThroughout(t: Tally, ops: seq<Op>)
    decreases |ops|
  {
    Agrees(t.db) && (ops == [] || AgreesThroughout(BatchStep(t, ops[0]), ops[1..]))
  }

  predicate SomeStale(t: Tally, ops: seq<Op>)
    decreases |ops|
  {
    ops != [] && (LeavesStale(t.db, ops[0]) || SomeStale(BatchStep(t, ops[0]), ops[1..]))
  }

  /** A batch keeps the index in agreement throughout exactly when none of its operations leaves a node stale. */
  lemma {:induction false} BatchAgreesIff(t: Tally, ops: seq<Op>)
    requires Sound(t.db) && Agrees(t.db)
    ensures AgreesThroughout(t, ops) <==> !SomeStale(t, ops)
    decreases |ops|
  {
    if ops == [] {
    } else {
      ImplStep(t.db, ops[0]);
      ImplSound(t.db, ops[0]);
      hide Sound, Agrees, Impl, LeavesStale;
      if !LeavesStale(t.db, ops[0]) {
        BatchAgreesIff(BatchStep(t, ops[0]), ops[1..]);
      }
    }
  }

  lemma {:induction false} BatchSound(t: Tally, ops: seq<Op>)
    requires Sound(t.db)
    ensures Sound(Batch(t, ops).db)
    decreases |ops|
  {
    if ops == [] {
    } else {
      ImplSound(t.db, ops[0]);
      hide Sound, Impl;
      BatchSound(BatchStep(t, ops[0]), ops[1..]);
    }
  }

  // ----- rebuilding the index ----------------------------------------------------------------

  predicate AllWellShaped(db: Db) {
    forall id :: id in db.nodes ==> !db.nodes[id].props.Misshapen?
  }

  /** The emptied table after a row has been inserted for each node of order. */
  function Filled(db: Db, order: seq<Id>): Db
    requires forall id :: id in order ==> id in db.nodes
    ensures Filled(db, order).nodes == db.nodes && Filled(db, order).edges == db.edges
  {
    if order == [] then db.(fts := map[])
    else
      var id := order[|order| - 1];
      var filled := Filled(db, order[..|order| - 1]);
      filled.(fts := filled.fts[filled.nextRow := RowFor(id, db.nodes[id], db.edges)], nextRow := filled.nextRow + 1)
  }

  /** order lists the rows of the node table, each once, as SQLite returns them. */
  ghost predicate Lists(db: Db, order: seq<Id>) {
    && (forall id :: id in order <==> id in db.nodes)
    && (forall i, j :: 0 <= i < j < |order| ==> order[i] != order[j])
  }

  /** Properties that are no dict raise, and the transaction is rolled back. */
  function Rebuilt(db: Db, order: seq<Id>): Db
    requires Lists(db, order)
  {
    if AllWellShaped(db) then Filled(db, order) else db
  }

  ghost predicate RowForEach(u: Db, order: seq<Id>) {
    forall id :: id in order ==> exists r :: IsRowOf(u.fts, r, id)
  }

  predicate IsRowIn(u: Db, row: Row, order: seq<Id>) {
    row.id in order && row.id in u.nodes && row == RowFor(row.id, u.nodes[row.id], u.edges)
  }

  ghost predicate OnlyRowsFor(u: Db, order: seq<Id>) {
    forall r :: r in u.fts ==> r < u.nextRow && IsRowIn(u, u.fts[r], order)
  }

  lemma {:induction false} FilledOnly(db: Db, order: seq<Id>)
    requires forall id :: id in order ==> id in db.nodes
    ensures OnlyRowsFor(Filled(db, order), order)
    decreases |order|
  {
    if order == [] {
    } else {
      FilledOnly(db, order[..|order| - 1]);
      hide Labels, Texts;
    }
  }

  lemma {:induction false} FilledForEach(db: Db, order: seq<Id>)
    requires forall id :: id in order ==> id in db.nodes
    requires forall i, j :: 0 <= i < j < |order| ==> order[i] != order[j]
    ensures RowForEach(Filled(db, order), order)
    decreases |order|
  {
    hide Labels, Texts;
    if order == [] {
    } else {
      var rest := order[..|order| - 1];
      FilledForEach(db, rest);
      FilledOnly(db, rest);
      var before := Filled(db, rest);
      OneMoreRow(before, Filled(db, order), rest, order[|order| - 1]);
      assert order == rest + [order[|order| - 1]];
    }
  }

  lemma OneMoreRow(before: Db, u: Db, rest: seq<Id>, id: Id)
    requires RowForEach(before, rest) && OnlyRowsFor(before, rest) && id !in rest && id in before.nodes
    requires u.fts == before.fts[before.nextRow := RowFor(id, before.nodes[id], before.edges)]
    ensures RowForEach(u, rest + [id])
  {
    hide Labels, Texts;
    forall other | other in rest + [id]
      ensures exists r :: IsRowOf(u.fts, r, other)
    {
      if other == id {
        assert IsRowOf(u.fts, before.nextRow, id);
      } else {
        var r :| IsRowOf(before.fts, r, other);
        assert IsRowOf(u.fts, r, other);
      }
    }
  }

  /** A rebuild that does not raise brings back agreement and makes every row's extra text match, whatever was there before. */
  lemma RebuildRestores(db: Db, order: seq<Id>)
    requires Lists(db, order) && AllWellShaped(db) && NoDanglingEdge(db)
    ensures var u := Rebuilt(db, order);
      Sound(u) && Agrees(u) && Fresh(u) && u.nodes == db.nodes && u.edges == db.edges
  {
    FilledForEach(db, order);
    FilledOnly(db, order);
    ListedAgrees(Rebuilt(db, order), order);
  }

  lemma ListedAgrees(u: Db, order: seq<Id>)
    requires RowForEach(u, order) && OnlyRowsFor(u, order) && Lists(u, order) && NoDanglingEdge(u)
    ensures Sound(u) && Agrees(u) && Fresh(u)
  {
    hide Labels, Texts, NoDanglingEdge;
    forall id
      ensures InSync(u, id)
    {
      if id in u.nodes {
        assert id in order;
        var r :| IsRowOf(u.fts, r, id);
        assert Describes(u.fts[r], u.nodes[id]);
      }
    }
  }

  // ----- runs -------------------------------------------------------------------------------

  datatype Call =
    | Public(op: Op)
    | BatchOf(ops: seq<Op>)
    | Layout(id: Id, values: seq<Value>)  // auto_layout's UPDATE of one node's properties
    | Rebuild(order: seq<Id>)

  function LaidOut(db: Db, id: Id, values: seq<Value>): Db {
    if id in db.nodes then db.(nodes := db.nodes[id := db.nodes[id].(props := Dict(values))]) else db
  }

  ghost predicate Enabled(db: Db, call: Call) {
    call.Rebuild? ==> Lists(db, call.order)
  }

  function Next(db: Db, call: Call): Db
    requires Enabled(db, call)
  {
    match call
    case Public(op) => Commit(db, op)
    case BatchOf(ops) => if BatchResult(db, ops).Some? then BatchResult(db, ops).value.db else db
    case Layout(id, values) => LaidOut(db, id, values)
    case Rebuild(order) => Rebuilt(db, order)
  }

  ghost predicate IsRun(dbs: seq<Db>, calls: seq<Call>) {
    && |dbs| == |calls| + 1 && dbs[0] == Db(map[], map[], map[], 0)
    && forall i :: 0 <= i < |calls| ==> Enabled(dbs[i], calls[i]) && dbs[i + 1] == Next(dbs[i], calls[i])
  }

  /** Something a caller of batch_operations can check: no operation has properties that are truthy and no dict. */
  predicate WellShaped(op: Op) {
    match op
    case AddNode(_, _, _, _, props) => !props.Misshapen?
    case UpdateNode(_, _, given, _) => given.Some? ==> !given.value.Misshapen?
    case _ => true
  }

  predicate WellShapedCall(call: Call) {
    call.BatchOf? ==> forall i :: 0 <= i < |call.ops| ==> WellShaped(call.ops[i])
  }

  lemma WellShapedStep(db: Db, op: Op)
    requires Sound(db) && Agrees(db) && AllWellShaped(db) && WellShaped(op)
    ensures Sound(Impl(db, op).0) && Agrees(Impl(db, op).0) && AllWellShaped(Impl(db, op).0)
  {
    ImplSound(db, op);
    ImplStep(db, op);
    hide Agrees, Sound, Labels, Texts;
  }

  lemma {:induction false} WellShapedBatch(t: Tally, ops: seq<Op>)
    requires Sound(t.db) && Agrees(t.db) && AllWellShaped(t.db)
    requires forall i :: 0 <= i < |ops| ==> WellShaped(ops[i])
    ensures var u := Batch(t, ops).db; Sound(u) && Agrees(u) && AllWellShaped(u)
    decreases |ops|
  {
    if ops == [] {
    } else {
      WellShapedStep(t.db, ops[0]);
      hide Agrees, Sound, AllWellShaped, Impl;
      WellShapedBatch(BatchStep(t, ops[0]), ops[1..]);
    }
  }

  lemma LayoutKeeps(db: Db, id: Id, values: seq<Value>)
    requires Sound(db) && Agrees(db)
    ensures Sound(LaidOut(db, id, values)) && Agrees(LaidOut(db, id, values))
    ensures var u := LaidOut(db, id, values);
      && u.edges == db.edges && u.fts == db.fts && u.nodes.Keys == db.nodes.Keys
      && forall other :: other in db.nodes ==> u.nodes[other] == if other == id then db.nodes[id].(props := Dict(values)) else db.nodes[other]
  {
    hide InSync, Labels, Texts;
    var u := LaidOut(db, id, values);
    forall other
      ensures InSync(u, other)
    {
      assert InSync(db, other);
      OtherRows(db, u, other);
    }
  }

  /** A misshapen operation of a public method raises and is rolled back, so none is ever stored. */
  lemma CommitWellShaped(db: Db, op: Op)
    requires AllWellShaped(db)
    ensures AllWellShaped(Commit(db, op))
  {
    hide Labels, Texts;
  }

  lemma CallStep(db: Db, call: Call)
    requires Enabled(db, call) && Sound(db)
    ensures Sound(Next(db, call))
    ensures Agrees(db) && AllWellShaped(db) && WellShapedCall(call) ==> Agrees(Next(db, call)) && AllWellShaped(Next(db, call))
  {
    hide Sound, Agrees, AllWellShaped, Commit, Batch, LaidOut;
    match call {
      case Public(op) =>
        CommitSound(db, op);
        if Agrees(db) && AllWellShaped(db) {
          CommitStep(db, op);
          CommitWellShaped(db, op);
        }
      case BatchOf(ops) =>
        BatchSound(Tally(db, 0, 0), ops);
        if Agrees(db) && AllWellShaped(db) && WellShapedCall(call) {
          WellShapedBatch(Tally(db, 0, 0), ops);
        }
      case Layout(id, values) =>
        LayoutSound(db, id, values);
        if Agrees(db) && AllWellShaped(db) {
          LayoutKeeps(db, id, values);
        }
      case Rebuild(order) =>
        SoundEdges(db);
        if AllWellShaped(db) {
          RebuildRestores(db, order);
          SameNodesShaped(db, Next(db, call));
        }
    }
  }

  lemma CommitSound(db: Db, op: Op)
    requires Sound(db)
    ensures Sound(Commit(db, op))
  {
    ImplSound(db, op);
    hide Sound;
  }

  lemma LayoutSound(db: Db, id: Id, values: seq<Value>)
    requires Sound(db)
    ensures Sound(LaidOut(db, id, values)) && (AllWellShaped(db) ==> AllWellShaped(LaidOut(db, id, values)))
  {
  }

  lemma SoundEdges(db: Db)
    ensures Sound(db) ==> NoDanglingEdge(db)
  {
  }

  lemma SameNodesShaped(db: Db, u: Db)
    requires AllWellShaped(db) && u.nodes == db.nodes
    ensures AllWellShaped(u)
  {
  }

  /** In every run no edge dangles. */
  lemma {:induction false} NeverDangles(dbs: seq<Db>, calls: seq<Call>, n: nat)
    requires IsRun(dbs, calls) && n < |dbs|
    ensures Sound(dbs[n]) && NoDanglingEdge(dbs[n])
  {
    if n == 0 {
    } else {
      NeverDangles(dbs, calls, n - 1);
      CallStep(dbs[n - 1], calls[n - 1]);
    }
    hide Next;
  }

  /**
   After any sequence of adds, updates, removals, layouts, rebuilds and batches of
   well-shaped operations, the index has exactly one row per node, with its type,
   name and description.
  */
  lemma {:induction false} IndexAgrees(dbs: seq<Db>, calls: seq<Call>, n: nat)
    requires IsRun(dbs, calls) && n < |dbs|
    requires forall i :: 0 <= i < n ==> WellShapedCall(calls[i])
    ensures Agrees(dbs[n]) && AllWellShaped(dbs[n])
  {
    hide Next, Agrees, AllWellShaped;
    if n > 0 {
      IndexAgrees(dbs, calls, n - 1);
      NeverDangles(dbs, calls, n - 1);
      CallStep(dbs[n - 1], calls[n - 1]);
    } else {
      EmptyAgrees();
    }
  }

  /**
   The call leaves index and nodes in agreement, a batch that is not rolled back
   also before, between and after its operations.
  */
  ghost predicate CallAgrees(db: Db, call: Call)
    requires Enabled(db, call)
  {
    && Agrees(Next(db, call))
    && (call.BatchOf? && NotADict !in call.ops ==> AgreesThroughout(Tally(db, 0, 0), call.ops))
  }

  /** One of the operations of the batch leaves a node stale when its turn comes. */
  predicate BatchLeavesStale(db: Db, call: Call) {
    call.BatchOf? && NotADict !in call.ops && SomeStale(Tally(db, 0, 0), call.ops)
  }

  lemma {:induction false} AgreesAtEnd(t: Tally, ops: seq<Op>)
    requires AgreesThroughout(t, ops)
    ensures Agrees(Batch(t, ops).db)
    decreases |ops|
  {
    if ops == [] {
    } else {
      AgreesAtEnd(BatchStep(t, ops[0]), ops[1..]);
    }
  }

  lemma CallAgreesIff(db: Db, call: Call)
    requires Sound(db) && Agrees(db) && Enabled(db, call)
    ensures CallAgrees(db, call) <==> !BatchLeavesStale(db, call)
  {
    hide Sound, Agrees, Commit, Batch, LaidOut, SomeStale, AgreesThroughout;
    match call {
      case Public(op) => CommitStep(db, op);
      case BatchOf(ops) =>
        BatchAgreesIff(Tally(db, 0, 0), ops);
        if AgreesThroughout(Tally(db, 0, 0), ops) {
          AgreesAtEnd(Tally(db, 0, 0), ops);
        }
      case Layout(id, values) => LayoutKeeps(db, id, values);
      case Rebuild(order) =>
        SoundEdges(db);
        if AllWellShaped(db) {
          RebuildRestores(db, order);
        }
    }
  }

  ghost predicate CallAgreesAt(dbs: seq<Db>, calls: seq<Call>, i: nat)
    requires i < |calls| < |dbs|
  {
    Enabled(dbs[i], calls[i]) && CallAgrees(dbs[i], calls[i])
  }

  /**
   In every run the index agrees with the nodes at every point, inside batches
   too, if and only if no operation of a batch leaves a node stale.
  */
  lemma {:induction false} IndexAgreesIff(dbs: seq<Db>, calls: seq<Call>, n: nat)
    requires IsRun(dbs, calls) && n < |dbs| == |calls| + 1
    ensures (forall i :: 0 <= i < n ==> CallAgreesAt(dbs, calls, i)) <==> (forall i :: 0 <= i < n ==> !BatchLeavesStale(dbs[i], calls[i]))
    ensures (forall i :: 0 <= i < n ==> CallAgreesAt(dbs, calls, i)) ==> Agrees(dbs[n])
  {
    if n == 0 {
      EmptyAgrees();
    } else {
      IndexAgreesIff(dbs, calls, n - 1);
      NeverDangles(dbs, calls, n - 1);
      StepOfRun(dbs, calls, n - 1);
      hide IsRun, Next, Agrees, Sound, Enabled, BatchLeavesStale;
      if forall i :: 0 <= i < n - 1 ==> CallAgreesAt(dbs, calls, i) {
        CallAgreesIff(dbs[n - 1], calls[n - 1]);
        assert CallAgreesAt(dbs, calls, n - 1) <==> !BatchLeavesStale(dbs[n - 1], calls[n - 1]);
      }
    }
  }

  lemma StepOfRun(dbs: seq<Db>, calls: seq<Call>, n: nat)
    requires IsRun(dbs, calls) && n < |calls|
    ensures |dbs| == |calls| + 1 && Enabled(dbs[n], calls[n]) && dbs[n + 1] == Next(dbs[n], calls[n])
  {
    hide Next, Enabled;
  }

  lemma EmptyAgrees()
    ensures var db := Db(map[], map[], map[], 0); Agrees(db) && AllWellShaped(db)
  {
  }

  /**
   Without that condition the claim fails: a batch that adds a node with doubly
   encoded properties counts it as failed, and yet stores it without a row.
  */
  lemma FailedAddIsStored(db: Db, id: Id, kind: string, name: string)
    requires id !in db.nodes
    ensures var ops := [AddNode(id, kind, name, None, Misshapen)];
      && BatchResult(db, ops).Some? && BatchResult(db, ops).value.failed == 1
      && id in Next(db, BatchOf(ops)).nodes
      && (InSync(db, id) ==> !InSync(Next(db, BatchOf(ops)), id))
  {
    hide Labels, Texts;
    var ops := [AddNode(id, kind, name, None, Misshapen)];
    var t := Tally(db, 0, 0);
    assert ops[1..] == [];
    assert Batch(BatchStep(t, ops[0]), ops[1..]) == BatchStep(t, ops[0]);
  }

  /** The store: one field per table, changed in place. */
  class ClaraityStore {
    var nodes: map<Id, Node>
    var edges: map<EdgeId, Edge>
    var fts: map<nat, Row>
    var nextRow: nat

    constructor ()
      ensures Snap() == Db(map[], map[], map[], 0)
    {
      nodes, edges, fts, nextRow := map[], map[], map[], 0;
    }

    function Snap(): Db
      reads this
    {
      Db(nodes, edges, fts, nextRow)
    }

    /** raised: .values() of a truthy value that is no dict. */
    method BuildExtraText(id: Id, props: Props) returns (labels: map<EdgeId, string>, texts: seq<string>, raised: bool)
      ensures raised <==> props.Misshapen?
      ensures !raised ==> labels == Labels(edges, id) && texts == Texts(props)
    {
      labels, texts, raised := map[], [], props.Misshapen?;
      var left := edges.Keys;
      while left != {}
        invariant left <= edges.Keys
        invariant labels == map k | k in Labels(edges, id) && k !in left :: Labels(edges, id)[k]
        decreases left
      {
        var k :| k in left;
        left := left - {k};
        if Touches(edges[k], id) && edges[k].text.Some? {
          labels := labels[k := edges[k].text.value];
        }
      }
      if props.Dict? {
        texts := FlattenValues(props.values);
      }
    }

    static method FlattenValues(values: seq<Value>) returns (texts: seq<string>)
      ensures texts == Flatten(values)
    {
      texts := [];
      var todo := values;
      hide Flatten;
      NoWords(texts);
      while todo != []
        invariant texts + Flatten(todo) == Flatten(values)
      {
        MoreWords(texts, todo);
        match todo[0] {
          case Text(t) => texts := texts + [t];
          case Items(ts) => texts := texts + ts;
          case Other =>
        }
        todo := todo[1..];
      }
      NoWords(texts);
    }

    method UpsertFts(id: Id, kind: string, name: string, description: Option<string>, props: Props) returns (outcome: Outcome)
      requires id in nodes && nodes[id] == Node(kind, name, description, props)
      modifies this`fts, this`nextRow
      ensures (Snap(), outcome) == Reindexed(old(Snap()), id, props)
    {
      var labels, texts, raised := BuildExtraText(id, props);
      if raised {
        return Raised;
      }
      fts := map r | r in fts && fts[r].id != id :: fts[r];
      fts := fts[nextRow := Row(id, kind, name, OrEmpty(description), labels, texts)];
      nextRow := nextRow + 1;
      return Rows(1);
    }

    method AddNodeRow(id: Id, kind: string, name: string, description: Option<string>, props: Props) returns (outcome: Outcome)
      modifies this
      ensures (Snap(), outcome) == AddNodeImpl(old(Snap()), id, Node(kind, name, description, props))
      ensures nodes == old(nodes)[id := Node(kind, name, description, props)] && edges == old(edges)
    {
      nodes := nodes[id := Node(kind, name, description, props)];
      outcome := UpsertFts(id, kind, name, description, props);
    }

    method UpdateNodeRow(id: Id, description: Option<string>, given: Option<Props>, others: bool) returns (outcome: Outcome)
      modifies this
      ensures (Snap(), outcome) == UpdateNodeImpl(old(Snap()), id, description, given, others)
      ensures nodes.Keys == old(nodes.Keys) && edges == old(edges)
      ensures forall other :: other in nodes && other != id ==> nodes[other] == old(nodes)[other]
      ensures id in nodes ==>
        && nodes[id].kind == old(nodes)[id].kind && nodes[id].name == old(nodes)[id].name
        && nodes[id].description == (if description.Some? then description else old(nodes)[id].description)
        && nodes[id].props == (if given.Some? then given.value else old(nodes)[id].props)
    {
      if description.None? && given.None? && !others {
        return Rows(if id in nodes then 1 else 0);
      }
      if id !in nodes {
        return Rows(0);
      }
      if description.Some? {
        nodes := nodes[id := nodes[id].(description := description)];
      }
      if given.Some? {
        nodes := nodes[id := nodes[id].(props := given.value)];
      }
      assert nodes == old(nodes)[id := Updated(old(nodes)[id], description, given)];
      var n := nodes[id];
      outcome := UpsertFts(id, n.kind, n.name, n.description, n.props);
    }

    method RemoveNodeRow(id: Id) returns (deleted: bool, edgesRemoved: nat)
      modifies this
      ensures Snap() == RemoveNodeImpl(old(Snap()), id)
      ensures deleted == (id in old(nodes)) && edgesRemoved == |old(edges)| - |edges|
      ensures nodes == old(nodes) - {id}
    {
      fts := map r | r in fts && fts[r].id != id :: fts[r];
      var kept := map k | k in edges && !Touches(edges[k], id) :: edges[k];
      FewerKeys(kept, edges);
      edgesRemoved := |edges| - |kept|;
      edges := kept;
      deleted := id in nodes;
      nodes := nodes - {id};
    }

    method AddEdgeRow(e: Edge) returns (outcome: Outcome)
      modifies this`edges
      ensures (Snap(), outcome) == AddEdgeImpl(old(Snap()), e)
    {
      if e.from !in nodes || e.to !in nodes {
        return Raised;
      }
      edges := edges[EdgeIdOf(e.from, e.to, e.kind) := e];
      return Rows(1);
    }

    method Apply(op: Op) returns (outcome: Outcome)
      modifies this
      ensures (Snap(), outcome) == Impl(old(Snap()), op)
    {
      match op {
        case AddNode(id, kind, name, description, props) => outcome := AddNodeRow(id, kind, name, description, props);
        case UpdateNode(id, description, given, others) => outcome := UpdateNodeRow(id, description, given, others);
        case RemoveNode(id) =>
          var _, _ := RemoveNodeRow(id);
          outcome := Rows(1);
        case AddEdge(from, to, kind, text) => outcome := AddEdgeRow(Edge(from, to, kind, text));
        case RemoveEdge(from, to, kind) =>
          edges := edges - {EdgeIdOf(from, to, kind)};
          outcome := Rows(1);
        case _ => outcome := Raised;
      }
    }

    /** A public write: its own transaction, rolled back when it raises. */
    method Write(op: Op) returns (outcome: Outcome)
      modifies this
      ensures Snap() == Commit(old(Snap()), op) && outcome == Impl(old(Snap()), op).1
    {
      var saved := (nodes, edges, fts, nextRow);
      outcome := Apply(op);
      if outcome.Raised? {
        nodes, edges, fts, nextRow := saved.0, saved.1, saved.2, saved.3;
      }
    }

    method BatchOperations(ops: seq<Op>) returns (succeeded: nat, failed: nat, raised: bool)
      modifies this
      ensures raised <==> NotADict in ops
      ensures raised ==> Snap() == old(Snap())
      ensures !raised ==> BatchResult(old(Snap()), ops) == Some(Tally(Snap(), succeeded, failed))
      ensures !raised ==> succeeded + failed == |ops|
    {
      var saved := (nodes, edges, fts, nextRow);
      succeeded, failed, raised := 0, 0, false;
      var todo := ops;
      EveryOpIsCounted(Tally(Snap(), 0, 0), ops);
      hide Impl, RemoveNodeImpl;
      while todo != []
        invariant NotADict in ops <==> NotADict in todo
        invariant Batch(Tally(Snap(), succeeded, failed), todo) == Batch(Tally(old(Snap()), 0, 0), ops)
        decreases |todo|
      {
        if todo[0].NotADict? {
          nodes, edges, fts, nextRow := saved.0, saved.1, saved.2, saved.3;
          return 0, 0, true;
        }
        var outcome := Apply(todo[0]);
        if outcome.Rows? && !(todo[0].UpdateNode? && outcome.count == 0) {
          succeeded := succeeded + 1;
        } else {
          failed := failed + 1;
        }
        todo := todo[1..];
      }
    }

    /** order is the order in which SELECT returned the nodes. */
    method RebuildFtsIndex() returns (ghost order: seq<Id>, raised: bool)
      modifies this`fts, this`nextRow
      ensures Lists(old(Snap()), order) && Snap() == Rebuilt(old(Snap()), order)
      ensures raised <==> !AllWellShaped(old(Snap()))
    {
      var saved := (fts, nextRow);
      fts := map[];
      var left := nodes.Keys;
      ghost var done: seq<Id> := [];
      while left != {}
        invariant left <= nodes.Keys
        invariant forall id :: id in done <==> id in nodes.Keys - left
        invariant forall i, j :: 0 <= i < j < |done| ==> done[i] != done[j]
        invariant forall id :: id in done ==> !nodes[id].props.Misshapen?
        invariant Snap() == Filled(old(Snap()), done)
        decreases left
      {
        var id :| id in left;
        var labels, texts, bad := BuildExtraText(id, nodes[id].props);
        if bad {
          fts, nextRow := saved.0, saved.1;
          order := AnyOrder(nodes.Keys);
          return order, true;
        }
        left := left - {id};
        fts := fts[nextRow := Row(id, nodes[id].kind, nodes[id].name, OrEmpty(nodes[id].description), labels, texts)];
        nextRow := nextRow + 1;
        assert (done + [id])[..|done|] == done;
        done := done + [id];
      }
      return done, false;
    }
  }

  lemma MoreWords(texts: seq<string>, values: seq<Value>)
    requires values != []
    ensures texts + Flatten(values) == (if values[0].Other? then texts else texts + Words(values[0])) + Flatten(values[1..])
  {
  }

  lemma NoWords(texts: seq<string>)
    ensures texts + Flatten([]) == texts
  {
  }

  lemma FewerKeys(kept: map<EdgeId, Edge>, edges: map<EdgeId, Edge>)
    requires kept.Keys <= edges.Keys
    ensures |kept| <= |edges|
  {
    assert edges.Keys == kept.Keys + (edges.Keys - kept.Keys);
    assert |kept| == |kept.Keys| && |edges| == |edges.Keys|;
  }

  lemma {:induction false} AnyOrder(ids: set<Id>) returns (order: seq<Id>)
    ensures forall id :: id in order <==> id in ids
    ensures forall i, j :: 0 <= i < j < |order| ==> order[i] != order[j]
  {
    order := [];
    if ids == {} {
    } else {
      var id :| id in ids;
      var rest := AnyOrder(ids - {id});
      order := rest + [id];
    }
  }
}
