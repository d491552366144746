/** A slice of JSqlParser's statement tree: the parts the core inspects or rewrites
    that selects, updates and deletes share. Joins, sub-selects, LIMIT, WITH and the
    other parts JSqlParser holds are not modelled.
    Parsing itself is foreign: every operation that parses takes a `Parser`, an
    arbitrary function from text to an optional statement (`None` stands for a
    JSQLParserException). */
module Sql {
  import opened Wrappers

  /** Expressions: column references, `*` wildcards, function calls (whose arguments
      are visited in order), binary operators and any other leaf (literals, parameters). */
  datatype Expr =
    | Column(columnName: string)
    | AllColumns(text: string)
    | Call(name: string, args: seq<Expr>)
    | BinOp(left: Expr, op: string, right: Expr)
    | Literal(text: string)

  /** The FROM item of a plain select: a table, anything else (a sub-select, a join
      source, a function), or no FROM at all. */
  datatype FromItem = FromTable(tableName: string) | FromOther(text: string) | NoFrom

  /** A select body: a plain select with its WHERE, GROUP BY, HAVING and ORDER BY
      clauses; a set operation (UNION, INTERSECT, EXCEPT, MINUS) between two bodies
      with the ORDER BY that applies to the whole, where a list of n selects joined by
      n - 1 operators is nested to the left; or anything else (VALUES, ...). */
  datatype SelectBody =
    | PlainSelect(items: seq<Expr>, from: FromItem, where: Option<Expr>,
                  groupBy: seq<Expr>, having: Option<Expr>, orderBy: seq<Expr>)
    | SetOperation(left: SelectBody, op: string, right: SelectBody, orderBy: seq<Expr>)
    | OtherSelect(text: string)

  /** One `SET c1, c2 = v1, v2` group of an UPDATE. */
  datatype UpdateSet = UpdateSet(columns: seq<string>, values: seq<Expr>)

  /** `Delete.tables` is the table list (DELETE t1, t2 FROM ...); `primary` is the table
      the statement deletes from, when there is one. */
  datatype Statement =
    | Select(body: SelectBody)
    | Update(table: string, sets: seq<UpdateSet>, where: Option<Expr>)
    | Delete(tables: seq<string>, primary: Option<string>, where: Option<Expr>)
    | OtherStatement(text: string)

  /** CCJSqlParserUtil.parse: `None` when the text is not a statement the parser accepts. */
  type Parser = string -> Option<Statement>
}
