/** The SqlQuery trait: a Java literal or a plain-text file viewed as a parsed SQL
    statement, and mapSql, which deparses that statement through a caller's
    expression deparser into a fresh buffer. */
module SqlQuery {
  import opened Wrappers
  import opened Sql
  import opened SqlDetector
  import opened DeParse

  /** The tree nodes a view is asked for: a Java literal (the `toString` of its value,
      `None` for a null value), a plain-text file, or any other node. Every node has
      an id (a UUID in the framework). */
  datatype HostNode =
    | LiteralNode(id: nat, value: Option<string>)
    | PlainTextNode(id: nat, text: string)
    | OtherNode(id: nat)

  /** Why no view was made: the node is not a literal or plain text whose text passes
      the keyword gate, or the text does not parse. */
  datatype TraitError = InvalidTraitCreationType | FailedToParse

  /** SqlQueryBase: the node, the SQL text the view was made from, and its parse. */
  datatype View = View(tree: HostNode, sql: string, query: Statement)

  /** The text a node offers to the gate: a literal's value or a plain text's text. */
  function TextOf(node: HostNode): Option<string> {
    match node
    case LiteralNode(_, value) => value
    case PlainTextNode(_, text) => Some(text)
    case OtherNode(_) => None
  }

  /** SqlQueryBase.viewOf: the view of `tree` as `sql`, or the parse failure. */
  function BaseViewOf(parse: Parser, tree: HostNode, sql: string): (r: Result<View, TraitError>)
    ensures r.Success? <==> parse(sql).Some?
    ensures r.Success? ==> r.value.tree == tree && r.value.sql == sql && Some(r.value.query) == parse(sql)
    ensures r.Failure? ==> r.error == FailedToParse
  {
    match parse(sql)
    case Some(query) => Success(View(tree, sql, query))
    case None => Failure(FailedToParse)
  }

  /** SqlQuery.Factory.viewOf. The package-local SqlDetector.probablySql of the trait's
      file is the same keyword gate as SqlDetector.probablySql, so it is reused. A view
      exists exactly when the node is a literal or plain text whose text passes the gate
      and parses; it then holds the node, that very text and its parse. */
  function ViewOf(parse: Parser, node: HostNode): (r: Result<View, TraitError>)
    ensures r.Success? <==> ProbablySql(TextOf(node)) && parse(TextOf(node).value).Some?
    ensures r.Success? ==> r.value.tree == node && Some(r.value.sql) == TextOf(node)
                           && Some(r.value.query) == parse(r.value.sql)
    ensures r.Failure? ==> (r.error == FailedToParse <==> ProbablySql(TextOf(node)))
  {
    match node
    case LiteralNode(_, value) =>
      if ProbablySql(value) then BaseViewOf(parse, node, value.value) else Failure(InvalidTraitCreationType)
    case PlainTextNode(_, text) =>
      if ProbablySql(Some(text)) then BaseViewOf(parse, node, text) else Failure(InvalidTraitCreationType)
    case OtherNode(_) => Failure(InvalidTraitCreationType)
  }

  /** getId: the id of the node the view was made of. */
  function GetId(v: View): nat {
    v.tree.id
  }

  /** A view carries the id of the node it was asked for. */
  lemma ViewId(parse: Parser, node: HostNode)
    requires ViewOf(parse, node).Success?
    ensures GetId(ViewOf(parse, node).value) == node.id
  {
  }

  /** Nodes that are neither literals nor plain text, and null literals, never have a
      view, whatever the parser does. */
  lemma NoViewWithoutText(parse: Parser, node: HostNode)
    requires node.OtherNode? || node == LiteralNode(node.id, None)
    ensures ViewOf(parse, node) == Failure(InvalidTraitCreationType)
  {
  }

  /** A view while a recipe holds it: the statement is a reference that the deparser
      can change in place (ChangeFunctionName's setName). */
  class QueryView {
    const tree: HostNode
    const sql: string
    var query: Statement

    constructor(v: View)
      ensures tree == v.tree && sql == v.sql && query == v.query
    {
      tree := v.tree;
      sql := v.sql;
      query := v.query;
    }

    /** mapSql: the deparser's buffer is replaced by a fresh empty one, the statement is
        deparsed into it, and exactly its contents are returned. The rows and the found
        flag the deparser has gathered so far are kept and added to; the statement the
        view holds is left renamed. */
    method MapSql(deparser: DeParser) returns (text: string)
      modifies this, deparser
      ensures text == StmtDeparsed(deparser.hook, old(query))
      ensures deparser.State() == After(deparser.hook, old(deparser.State()).(buffer := ""), text, StmtMatched(deparser.hook, old(query)))
      ensures query == StmtRenamed(deparser.hook, old(query))
    {
      deparser.ResetBuffer();
      var renamed := deparser.DeparseStatement(query);
      query := renamed;
      text := deparser.buffer;
    }
  }
}
