/** The database rows the core reads: one immutable record per table of the
    ORM models in `backend/app/models.py`. Nullable columns are `Option`s;
    timestamps and password hashes are not modelled. */
module Models {
  import opened Optional

  /** A vertex of the organisational hierarchy; children are found by
      reverse lookup on `parentId`. */
  datatype Node = Node(id: int, name: string, parentId: Option<int>, level: int)

  /** A login. The bcrypt password hash is not modelled. */
  datatype User = User(id: int, username: string, email: string, nodeId: Option<int>, level: int, isActive: bool)

  datatype Risk = Risk(
    id: int,
    title: string,
    description: Option<string>,
    nodeId: Option<int>,
    riskType: Option<string>,
    status: Option<string>)

  /** A remediation task; it reaches the hierarchy only through its risk. */
  datatype ActionItem = ActionItem(
    id: int,
    description: string,
    riskId: Option<int>,
    assignedTo: Option<int>,
    status: Option<string>)

  /** `isFinancial` is a nullable boolean column whose NULL is falsy, so a
      plain `bool` (NULL read as `false`) loses nothing the core observes. */
  datatype Incident = Incident(
    id: int,
    name: string,
    description: Option<string>,
    rootCause: Option<string>,
    lossAmount: Option<int>,
    isFinancial: bool,
    nodeId: int)

  /** SQL `column IN (ids)`: a NULL column is never in the set. */
  predicate InScope(ref: Option<int>, scope: set<int>) {
    ref.Some? && ref.value in scope
  }

  /** Python's f-string rendering of a nullable text column: `None` prints
      as the four letters "None". */
  function Show(v: Option<string>): string {
    match v
    case Some(s) => s
    case None => "None"
  }

  /** `query(Node).filter(Node.id == id).first()`: the first node with that
      id; a NULL id (`id == None` is `IS NULL`) finds nothing. */
  function FindNode(nodes: seq<Node>, id: Option<int>): (r: Option<Node>)
    ensures r.Some? ==> r.value in nodes && Some(r.value.id) == id
    ensures r.None? ==> forall n :: n in nodes ==> Some(n.id) != id
  {
    if id.None? || nodes == [] then None
    else if nodes[0].id == id.value then Some(nodes[0])
    else FindNode(nodes[1..], id)
  }
}
