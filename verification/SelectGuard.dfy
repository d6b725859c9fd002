/** internal/sqlguard/mysql.go: the guard of read-only statements, over abstract parse
    trees. The Vitess tree is reduced to what the guard looks at. */
module SelectGuard {

  datatype NodeKind =
    | Assignment
    | GTIDFunction(waits: bool)
    | LockingFunction
    | Function(name: string)
    | OtherNode

  /** Any expression or clause, with what `Walk` visits beneath it, in order. */
  datatype Node = Node(kind: NodeKind, children: seq<Node>)

  /** A select statement. Only a plain select has clauses that are walked: the guard never
      looks at a union's own ORDER BY or LIMIT, so they have no place here. */
  datatype SelectStatement =
    | Select(into: bool, lock: bool, clauses: seq<Node>)
    | Union(into: bool, lock: bool, left: SelectStatement, right: SelectStatement)
    | OtherSelect

  function UpperChar(c: char): char {
    if 'a' <= c <= 'z' then c - 'a' + 'A' else c
  }

  /** strings.ToUpper on function names, which the parser limits to ASCII here. */
  function Upper(s: string): string {
    seq(|s|, i requires 0 <= i < |s| => UpperChar(s[i]))
  }

  const CONNECTION_STATE_FUNCTIONS: set<string> :=
    {"GET_LOCK", "RELEASE_LOCK", "IS_FREE_LOCK", "IS_USED_LOCK", "SLEEP", "BENCHMARK", "LAST_INSERT_ID", "LOAD_FILE",
     "MASTER_POS_WAIT", "WAIT_FOR_EXECUTED_GTID_SET", "WAIT_UNTIL_SQL_THREAD_AFTER_GTIDS"}

  predicate IsForbidden(kind: NodeKind) {
    match kind
    case Assignment => true
    case GTIDFunction(waits) => waits
    case LockingFunction => true
    case Function(name) => Upper(name) in CONNECTION_STATE_FUNCTIONS
    case OtherNode => false
  }

  // ---------- what the guard should find ----------

  /** `path` leads from `nodes` down to a node: a child position at every level. */
  ghost predicate Reaches(nodes: seq<Node>, path: seq<nat>, node: Node)
    decreases |path|
  {
    && path != [] && path[0] < |nodes|
    && (if |path| == 1 then node == nodes[path[0]] else Reaches(nodes[path[0]].children, path[1..], node))
  }

  ghost predicate HasForbiddenBeneath(nodes: seq<Node>) {
    exists path, node :: Reaches(nodes, path, node) && IsForbidden(node.kind)
  }

  /** The statements that the guard visits: the root and, below a union, both sides. */
  ghost predicate OnSpine(root: SelectStatement, s: SelectStatement)
    decreases root
  {
    s == root || (root.Union? && (OnSpine(root.left, s) || OnSpine(root.right, s)))
  }

  ghost predicate IsOffending(s: SelectStatement) {
    match s
    case Select(into, lock, clauses) => into || lock || HasForbiddenBeneath(clauses)
    case Union(into, lock, _, _) => into || lock
    case OtherSelect => true
  }

  // ---------- the pruning walk ----------

  /** The visitor: whether the node was found unsafe. When it is, its children are skipped,
      but the walk goes on with its siblings. */
  method Visit(kind: NodeKind) returns (found: bool)
    ensures found == IsForbidden(kind)
  {
    match kind {
      case Assignment => return true;
      case GTIDFunction(waits) =>
        if waits { return true; }
      case _ =>
    }
    if kind.LockingFunction? {
      return true;
    }
    if !kind.Function? {
      return false;
    }
    return Upper(kind.name) in CONNECTION_STATE_FUNCTIONS;
  }

  lemma {:induction false} ForbiddenCons(nodes: seq<Node>)
    requires nodes != []
    ensures HasForbiddenBeneath(nodes) <==>
            IsForbidden(nodes[0].kind) || HasForbiddenBeneath(nodes[0].children) || HasForbiddenBeneath(nodes[1..])
  {
    if HasForbiddenBeneath(nodes) {
      var path, node :| Reaches(nodes, path, node) && IsForbidden(node.kind);
      if path[0] > 0 {
        assert Reaches(nodes[1..], [path[0] - 1] + path[1..], node) by {
          assert ([path[0] - 1] + path[1..])[1..] == path[1..];
        }
      } else if |path| > 1 {
        assert Reaches(nodes[0].children, path[1..], node);
      }
    }
    if IsForbidden(nodes[0].kind) {
      assert Reaches(nodes, [0], nodes[0]);
    }
    if HasForbiddenBeneath(nodes[0].children) {
      var path, node :| Reaches(nodes[0].children, path, node) && IsForbidden(node.kind);
      assert ([0] + path)[1..] == path;
      assert Reaches(nodes, [0] + path, node);
    }
    if HasForbiddenBeneath(nodes[1..]) {
      var path, node :| Reaches(nodes[1..], path, node) && IsForbidden(node.kind);
      var longer := [path[0] + 1] + path[1..];
      assert longer[1..] == path[1..];
      assert Reaches(nodes, longer, node);
    }
  }

  /** The walk with its captured flag: the flag is raised exactly when some node beneath is
      forbidden, although nothing below a forbidden node is visited. */
  method Walk(nodes: seq<Node>, flag: bool) returns (unsafe: bool)
    ensures unsafe == (flag || HasForbiddenBeneath(nodes))
    decreases nodes
  {
    unsafe := flag;
    if nodes == [] {
      return;
    }
    ForbiddenCons(nodes);
    var found := Visit(nodes[0].kind);
    if found {
      unsafe := true;
    } else {
      unsafe := Walk(nodes[0].children, unsafe);
    }
    unsafe := Walk(nodes[1..], unsafe);
  }

  ghost predicate AnyOffending(stmt: SelectStatement) {
    exists s :: OnSpine(stmt, s) && IsOffending(s)
  }

  lemma {:induction false} OffendingStep(stmt: SelectStatement)
    ensures AnyOffending(stmt) <==>
            IsOffending(stmt) || (stmt.Union? && (AnyOffending(stmt.left) || AnyOffending(stmt.right)))
  {
    assert OnSpine(stmt, stmt);
    if stmt.Union? {
      assert forall s :: OnSpine(stmt.left, s) || OnSpine(stmt.right, s) ==> OnSpine(stmt, s);
    }
  }

  /** `name` is `upper` but for the case of ASCII letters. */
  predicate IsCaseOf(name: string, upper: string) {
    |name| == |upper| && forall i :: 0 <= i < |name| ==>
      name[i] == upper[i] || (97 <= name[i] as int <= 122 && name[i] as int == upper[i] as int + 32)
  }

  lemma {:induction false} UpperIsCase(name: string, upper: string)
    requires forall i :: 0 <= i < |upper| ==> !(97 <= upper[i] as int <= 122)
    ensures Upper(name) == upper <==> IsCaseOf(name, upper)
  {
    if Upper(name) == upper {
      assert forall i :: 0 <= i < |name| ==> UpperChar(name[i]) == upper[i];
    }
    if IsCaseOf(name, upper) {
      assert forall i :: 0 <= i < |name| ==> Upper(name)[i] == upper[i];
    }
  }

  /** Which nodes are forbidden: assignments, locking functions, GTID functions that wait,
      and calls of eleven functions in any case. */
  lemma {:induction false} ForbiddenExactly(kind: NodeKind)
    ensures IsForbidden(kind) <==>
            match kind
            case Assignment => true
            case LockingFunction => true
            case GTIDFunction(waits) => waits
            case OtherNode => false
            case Function(name) =>
              || IsCaseOf(name, "GET_LOCK") || IsCaseOf(name, "RELEASE_LOCK") || IsCaseOf(name, "IS_FREE_LOCK")
              || IsCaseOf(name, "IS_USED_LOCK") || IsCaseOf(name, "SLEEP") || IsCaseOf(name, "BENCHMARK")
              || IsCaseOf(name, "LAST_INSERT_ID") || IsCaseOf(name, "LOAD_FILE") || IsCaseOf(name, "MASTER_POS_WAIT")
              || IsCaseOf(name, "WAIT_FOR_EXECUTED_GTID_SET") || IsCaseOf(name, "WAIT_UNTIL_SQL_THREAD_AFTER_GTIDS")
  {
    if kind.Function? {
      forall upper | upper in CONNECTION_STATE_FUNCTIONS
        ensures Upper(kind.name) == upper <==> IsCaseOf(kind.name, upper)
      {
        UpperIsCase(kind.name, upper);
      }
    }
  }

  /** The guard, statement by statement. */
  lemma {:induction false} OffendingExactly(into: bool, lock: bool, clauses: seq<Node>, left: SelectStatement,
                                            right: SelectStatement)
    ensures AnyOffending(Select(into, lock, clauses)) <==> into || lock || HasForbiddenBeneath(clauses)
    ensures AnyOffending(Union(into, lock, left, right)) <==> into || lock || AnyOffending(left) || AnyOffending(right)
    ensures AnyOffending(OtherSelect)
  {
    OffendingStep(Select(into, lock, clauses));
    OffendingStep(Union(into, lock, left, right));
    OffendingStep(OtherSelect);
  }

  /** The guard answers unsafe exactly when a statement on the union spine writes to a file
      or locks, is neither a select nor a union, or is a select with a forbidden node
      anywhere beneath it. */
  method HasUnsafeMySQLSelect(stmt: SelectStatement) returns (unsafe: bool)
    ensures unsafe <==> AnyOffending(stmt)
    decreases stmt
  {
    OffendingStep(stmt);
    match stmt
    case Select(into, lock, clauses) =>
      if into || lock { return true; }
      unsafe := Walk(clauses, false);
    case Union(into, lock, left, right) =>
      if into || lock { return true; }
      unsafe := HasUnsafeMySQLSelect(left);
      if unsafe { return true; }
      unsafe := HasUnsafeMySQLSelect(right);
    case OtherSelect => return true;
  }
}
