/** FindSql: finds SQL in the string literals of Java sources, in YAML scalars and in
    whole `.sql` plain-text files, and reports the tables and columns each statement
    reads or writes, at the line where its text starts. The visitors keep that line
    by counting line feeds in everything they pass. */
module FindSql {
  import opened Wrappers
  import opened Strings
  import opened Sql
  import opened Tables
  import opened SqlDetector

  // ---------------------------------------------------------------------------
  // countLines
  // ---------------------------------------------------------------------------

  /** countLines(String): no lines for null, otherwise the line feeds, which is one
      fewer than the lines of the text. */
  function CountLines(s: Option<string>): (n: nat)
    ensures s.Some? ==> n + 1 == |Lines(s.value)|
    ensures n == 0 <==> s.None? || '\n' !in s.value
  {
    if s.None? then 0
    else
      CountCharSplitOn(s.value, '\n');
      CountCharAbsent(s.value, '\n');
      CountChar(s.value, '\n')
  }

  /** Counting lines is additive over concatenation. */
  lemma CountLinesConcat(a: string, b: string)
    ensures CountLines(Some(a + b)) == CountLines(Some(a)) + CountLines(Some(b))
  {
    CountCharConcat(a, b, '\n');
  }

  /** The comments of a Java space: text comments, Javadoc comments (rendered by their
      `toString`), and every other kind; each has a suffix. */
  datatype Comment =
    | TextComment(text: string, suffix: string)
    | DocComment(rendered: string, suffix: string)
    | OtherComment(suffix: string)

  /** A Java space: whitespace, then comments. */
  datatype Space = Space(whitespace: string, comments: seq<Comment>)

  /** The part of a comment whose line feeds count: the text of a text comment, the
      rendering of a Javadoc comment, nothing of any other comment; then its suffix. */
  function CountedText(c: Comment): string {
    match c
    case TextComment(text, suffix) => text + suffix
    case DocComment(rendered, suffix) => rendered + suffix
    case OtherComment(suffix) => suffix
  }

  function CountedComments(comments: seq<Comment>): string {
    if comments == [] then "" else CountedComments(comments[..|comments| - 1]) + CountedText(Last(comments))
  }

  /** The lines a space spans: the line feeds of its whitespace followed by the
      counted text of its comments. */
  function SpaceLines(space: Space): nat {
    CountLines(Some(space.whitespace + CountedComments(space.comments)))
  }

  /** countLines(Space): the line feeds of the whitespace, then, comment by comment,
      those of its text or rendering and those of its suffix. */
  method CountLinesSpace(space: Space) returns (n: nat)
    ensures n == SpaceLines(space)
  {
    n := CountLines(Some(space.whitespace));
    assert space.whitespace + CountedComments(space.comments[..0]) == space.whitespace;
    for i := 0 to |space.comments|
      invariant n == SpaceLines(Space(space.whitespace, space.comments[..i]))
    {
      ghost var before := n;
      var comment := space.comments[i];
      match comment {
        case TextComment(text, _) =>
          n := n + CountLines(Some(text));
        case DocComment(rendered, _) =>
          n := n + CountLines(Some(rendered));
        case OtherComment(_) =>
      }
      n := n + CountLines(Some(comment.suffix));
      assert n == before + CountLines(Some(CountedText(comment))) by {
        CountedTextLines(comment);
      }
      assert SpaceLines(Space(space.whitespace, space.comments[..i + 1])) == before + CountLines(Some(CountedText(comment))) by {
        TakeSnoc(space.comments, i);
        SpaceLinesSnoc(space.whitespace, space.comments[..i], comment);
      }
    }
    assert space.comments[..|space.comments|] == space.comments;
  }

  /** The counted lines of a comment: those of its text or rendering, then those of its
      suffix. */
  lemma CountedTextLines(c: Comment)
    ensures CountLines(Some(CountedText(c)))
         == (match c
             case TextComment(text, _) => CountLines(Some(text))
             case DocComment(rendered, _) => CountLines(Some(rendered))
             case OtherComment(_) => 0) + CountLines(Some(c.suffix))
  {
    match c {
      case TextComment(text, suffix) => CountLinesConcat(text, suffix);
      case DocComment(rendered, suffix) => CountLinesConcat(rendered, suffix);
      case OtherComment(_) =>
    }
  }

  /** A comment appended to a space adds its counted lines. */
  lemma SpaceLinesSnoc(whitespace: string, comments: seq<Comment>, c: Comment)
    ensures SpaceLines(Space(whitespace, comments + [c]))
         == SpaceLines(Space(whitespace, comments)) + CountLines(Some(CountedText(c)))
  {
    assert (comments + [c])[..|comments|] == comments;
    assert whitespace + CountedComments(comments + [c]) == (whitespace + CountedComments(comments)) + CountedText(c);
    CountLinesConcat(whitespace + CountedComments(comments), CountedText(c));
  }

  // ---------------------------------------------------------------------------
  // The precondition
  // ---------------------------------------------------------------------------

  // HasSourcePath with the glob `**` `/*.sql` is not part of this model; it is taken
  // to hold when the path, with Unix separators, ends in `.sql`.
  predicate HasSqlPath(sourcePath: string) {
    EndsWith(SeparatorsToUnix(sourcePath), ".sql")
  }

  /** A source file as a precondition sees it: plain text or not, its path, and the
      number of search markers on it. */
  datatype Source = Source(isPlainText: bool, sourcePath: string, searchMarkers: nat)

  /** SearchResult.found: one more search marker, so the result differs from the source. */
  function Found(src: Source): (r: Source)
    ensures r != src && r.isPlainText == src.isPlainText && r.sourcePath == src.sourcePath
  {
    src.(searchMarkers := src.searchMarkers + 1)
  }

  /** The visitors a precondition is built from: the anonymous PlainTextVisitor whose
      visitText returns SearchResult.found(text), HasSourcePath with the `.sql` glob,
      Preconditions.not and Preconditions.or. */
  datatype Precondition =
    | MarkPlainText
    | HasSqlSourcePath
    | Not(inner: Precondition)
    | Or(first: Precondition, second: Precondition)

  /** What a precondition visitor returns for a source. A PlainTextVisitor only visits
      plain text. `not` marks the source when its visitor left it as it was and
      otherwise returns it unchanged; `or` returns the first result that differs from
      the source. */
  function Visit(p: Precondition, src: Source): Source {
    match p
    case MarkPlainText => if src.isPlainText then Found(src) else src
    case HasSqlSourcePath => if HasSqlPath(src.sourcePath) then Found(src) else src
    case Not(q) => if Visit(q, src) == src then Found(src) else src
    case Or(a, b) => var t := Visit(a, src); if t != src then t else Visit(b, src)
  }

  /** Preconditions.check runs the recipe's visitor only on a source the precondition
      changes. */
  predicate Passes(p: Precondition, src: Source) {
    Visit(p, src) != src
  }

  /** The PlainTextVisitor passes exactly the plain-text sources. */
  lemma MarkPlainTextPasses(src: Source)
    ensures Passes(MarkPlainText, src) <==> src.isPlainText
  {
  }

  /** `not(v)` passes exactly the sources `v` does not pass. */
  lemma NotPasses(q: Precondition, src: Source)
    ensures Passes(Not(q), src) <==> !Passes(q, src)
  {
  }

  /** `or(a, b)` passes exactly the sources one of `a` and `b` passes. */
  lemma OrPasses(a: Precondition, b: Precondition, src: Source)
    ensures Passes(Or(a, b), src) <==> Passes(a, src) || Passes(b, src)
  {
  }

  /** FindSql's precondition: `or(not(<mark every plain text>), HasSourcePath)`. */
  const FindSqlPrecondition := Or(Not(MarkPlainText), HasSqlSourcePath)

  /** Every source that is not plain text is scanned; plain text only under a `.sql`
      path. */
  lemma {:induction false} ScannedSources(src: Source)
    ensures !src.isPlainText ==> Passes(FindSqlPrecondition, src)
    ensures src.isPlainText ==> (Passes(FindSqlPrecondition, src) <==> EndsWith(SeparatorsToUnix(src.sourcePath), ".sql"))
  {
    MarkPlainTextPasses(src);
    NotPasses(MarkPlainText, src);
    OrPasses(Not(MarkPlainText), HasSqlSourcePath, src);
  }

  // ---------------------------------------------------------------------------
  // find
  // ---------------------------------------------------------------------------

  /** The enclosing source file: its path, and the commit of its Git provenance. */
  datatype SourceInfo = SourceInfo(sourcePath: string, commitHash: Option<string>)

  /** The rows `find` reports for `text` seen at `lineNumber`: none without an
      enclosing source file, otherwise what the detector reports. */
  function FoundRows(parse: Parser, sourceFile: Option<SourceInfo>, lineNumber: int, text: string): seq<Row> {
    if sourceFile.None? then []
    else RowsOf(parse, Location(SeparatorsToUnix(sourceFile.value.sourcePath), lineNumber, sourceFile.value.commitHash), Some(text))
  }

  /** Without an enclosing source file nothing is reported; a text that does not pass
      the keyword gate never yields a row. */
  lemma FoundRowsNeedSql(parse: Parser, sourceFile: Option<SourceInfo>, lineNumber: int, text: string)
    ensures FoundRows(parse, sourceFile, lineNumber, text) != [] ==>
              sourceFile.Some? && ProbablySql(Some(text)) && parse(text).Some?
  {
  }

  /** The recipe's scanning visitor, with the DatabaseColumnsUsed table its runs fill. */
  class SqlFinder {
    var used: seq<Row>

    constructor()
      ensures used == []
    {
      used := [];
    }

    /** find: every row the detector reports is inserted, in order, and the node is
        marked once per row, so it comes back marked exactly when there was one. */
    method Find<T>(parse: Parser, sourceFile: Option<SourceInfo>, lineNumber: int, node: T, text: string)
      returns (result: Marked<T>)
      modifies this
      ensures used == old(used) + FoundRows(parse, sourceFile, lineNumber, text)
      ensures result == Marked(node, FoundRows(parse, sourceFile, lineNumber, text) != [])
    {
      if sourceFile.None? {
        return Marked(node, false);
      }
      var rows := Rows(parse, sourceFile.value.sourcePath, sourceFile.value.commitHash, lineNumber, Some(text));
      result := Marked(node, false);
      for i := 0 to |rows|
        invariant used == old(used) + rows[..i]
        invariant result == Marked(node, i > 0)
      {
        used := used + [rows[i]];
        result := Marked(node, true);
        TakeSnoc(rows, i);
      }
      assert rows[..|rows|] == rows;
    }

    /** A whole plain-text file is one piece of SQL, reported at line 1. */
    method VisitText(parse: Parser, sourceFile: Option<SourceInfo>, text: string) returns (result: Marked<string>)
      modifies this
      ensures used == old(used) + FoundRows(parse, sourceFile, 1, text)
      ensures result == Marked(text, FoundRows(parse, sourceFile, 1, text) != [])
    {
      result := Find(parse, sourceFile, 1, text, text);
    }
  }

  // ---------------------------------------------------------------------------
  // Java sources
  // ---------------------------------------------------------------------------

  /** A literal's value: a String, or anything else (a number, a char, null). */
  datatype LiteralValue = StringValue(text: string) | OtherValue

  /** A Java literal and the space before it. */
  datatype JavaLiteral = JavaLiteral(prefix: Space, value: LiteralValue)

  /** The Java visitor's line counter. */
  class JavaLineCounter {
    var lineNumber: int

    constructor()
      ensures lineNumber == 1
    {
      lineNumber := 1;
    }

    method VisitSpace(space: Space)
      modifies this
      ensures lineNumber == old(lineNumber) + SpaceLines(space)
    {
      var n := CountLinesSpace(space);
      lineNumber := lineNumber + n;
    }

    /** A String literal is looked at on the line its prefix ends on; the counter then
        moves past the literal's own line feeds. Other literals only move the counter
        past their prefix. */
    method VisitLiteral(finder: SqlFinder, parse: Parser, sourceFile: Option<SourceInfo>, literal: JavaLiteral)
      returns (result: Marked<JavaLiteral>)
      modifies this, finder
      ensures var at := old(lineNumber) + SpaceLines(literal.prefix);
              if literal.value.StringValue? then
                var rows := FoundRows(parse, sourceFile, at, literal.value.text);
                finder.used == old(finder.used) + rows
                && result == Marked(literal, rows != [])
                && lineNumber == at + CountLines(Some(literal.value.text))
              else
                finder.used == old(finder.used) && result == Marked(literal, false) && lineNumber == at
    {
      VisitSpace(literal.prefix);
      result := Marked(literal, false);
      if literal.value.StringValue? {
        result := finder.Find(parse, sourceFile, lineNumber, literal, literal.value.text);
        lineNumber := lineNumber + CountLines(Some(literal.value.text));
      }
    }
  }

  // ---------------------------------------------------------------------------
  // YAML sources
  // ---------------------------------------------------------------------------

  /** A YAML scalar: the text before it and its value. */
  datatype Scalar = Scalar(prefix: string, value: string)

  /** A YAML mapping; the brace prefixes are absent for a block mapping. */
  datatype Mapping = Mapping(prefix: string, openingBracePrefix: Option<string>, closingBracePrefix: Option<string>)

  /** A YAML sequence; the bracket prefixes are absent for a block sequence. */
  datatype Sequence = Sequence(prefix: string, openingBracketPrefix: Option<string>, closingBracketPrefix: Option<string>)

  /** A flow delimiter with its prefix, or nothing in block style. */
  function Delimited(prefix: Option<string>, delimiter: string): string {
    if prefix.None? then "" else prefix.value + delimiter
  }

  function MappingText(m: Mapping, entries: string): string {
    m.prefix + Delimited(m.openingBracePrefix, "{") + entries + Delimited(m.closingBracePrefix, "}")
  }

  function SequenceText(s: Sequence, entries: string): string {
    s.prefix + Delimited(s.openingBracketPrefix, "[") + entries + Delimited(s.closingBracketPrefix, "]")
  }

  /** How far the visitor moves the counter over a mapping whose entries move it by
      `entries`: its prefix, the opening brace's prefix, the entries, the closing
      brace's prefix. */
  function MappingAdvance(m: Mapping, entries: nat): nat {
    CountLines(Some(m.prefix)) + CountLines(m.openingBracePrefix) + entries + CountLines(m.closingBracePrefix)
  }

  /** As written: after the entries the opening bracket's prefix is counted a second
      time, and the closing bracket's prefix never. */
  function SequenceAdvance(s: Sequence, entries: nat): nat {
    CountLines(Some(s.prefix)) + CountLines(s.openingBracketPrefix) + entries + CountLines(s.openingBracketPrefix)
  }

  /** As intended: the closing bracket's prefix after the entries. */
  function SequenceAdvanceIntended(s: Sequence, entries: nat): nat {
    CountLines(Some(s.prefix)) + CountLines(s.openingBracketPrefix) + entries + CountLines(s.closingBracketPrefix)
  }

  lemma DelimitedLines(prefix: Option<string>, delimiter: string)
    requires '\n' !in delimiter
    ensures CountLines(Some(Delimited(prefix, delimiter))) == CountLines(prefix)
  {
    if prefix.Some? {
      CountLinesConcat(prefix.value, delimiter);
    }
  }

  /** Over a mapping the counter moves by exactly the line feeds of the mapping's
      text, when it moved by those of the entries' text over the entries. */
  lemma MappingAdvanceCounts(m: Mapping, entries: string)
    ensures MappingAdvance(m, CountLines(Some(entries))) == CountLines(Some(MappingText(m, entries)))
  {
    var open, close := Delimited(m.openingBracePrefix, "{"), Delimited(m.closingBracePrefix, "}");
    DelimitedLines(m.openingBracePrefix, "{");
    DelimitedLines(m.closingBracePrefix, "}");
    CountLinesConcat(m.prefix, open);
    CountLinesConcat(m.prefix + open, entries);
    CountLinesConcat(m.prefix + open + entries, close);
  }

  /** The intended sequence count has the same property. */
  lemma SequenceAdvanceIntendedCounts(s: Sequence, entries: string)
    ensures SequenceAdvanceIntended(s, CountLines(Some(entries))) == CountLines(Some(SequenceText(s, entries)))
  {
    var open, close := Delimited(s.openingBracketPrefix, "["), Delimited(s.closingBracketPrefix, "]");
    DelimitedLines(s.openingBracketPrefix, "[");
    DelimitedLines(s.closingBracketPrefix, "]");
    CountLinesConcat(s.prefix, open);
    CountLinesConcat(s.prefix + open, entries);
    CountLinesConcat(s.prefix + open + entries, close);
  }

  /** The count as written is off for a flow sequence whose bracket prefixes differ in
      line feeds: `[a` then `\n]` is one line feed, counted as none; `\n[a]` is one,
      counted as two. Everything after such a sequence is reported on a wrong line. */
  lemma SequenceAdvanceMiscounts()
    ensures var s := Sequence("", Some(""), Some("\n"));
            SequenceAdvance(s, 0) == 0 && CountLines(Some(SequenceText(s, "a"))) == 1
    ensures var s := Sequence("", Some("\n"), Some(""));
            SequenceAdvance(s, 0) == 2 && CountLines(Some(SequenceText(s, "a"))) == 1
  {
    SequenceAdvanceIntendedCounts(Sequence("", Some(""), Some("\n")), "a");
    SequenceAdvanceIntendedCounts(Sequence("", Some("\n"), Some("")), "a");
    assert CountLines(Some("a")) == 0;
    assert CountLines(Some("\n")) == 1 by {
      assert Lines("\n") == ["", ""];
    }
    assert CountLines(Some("")) == 0;
  }

  /** The YAML visitor's line counter. */
  class YamlLineCounter {
    var lineNumber: int

    constructor()
      ensures lineNumber == 1
    {
      lineNumber := 1;
    }

    /** A scalar is looked at on the line its prefix ends on; the counter then moves
        past the value's line feeds. */
    method VisitScalar(finder: SqlFinder, parse: Parser, sourceFile: Option<SourceInfo>, scalar: Scalar)
      returns (result: Marked<Scalar>)
      modifies this, finder
      ensures var at := old(lineNumber) + CountLines(Some(scalar.prefix));
              var rows := FoundRows(parse, sourceFile, at, scalar.value);
              finder.used == old(finder.used) + rows
              && result == Marked(scalar, rows != [])
              && lineNumber == at + CountLines(Some(scalar.value))
    {
      lineNumber := lineNumber + CountLines(Some(scalar.prefix));
      result := finder.Find(parse, sourceFile, lineNumber, scalar, scalar.value);
      lineNumber := lineNumber + CountLines(Some(scalar.value));
    }

    /** The prefix of the documents, of a document, of a sequence entry, of an alias or
        of an anchor. */
    method VisitPrefix(prefix: string)
      modifies this
      ensures lineNumber == old(lineNumber) + CountLines(Some(prefix))
    {
      lineNumber := lineNumber + CountLines(Some(prefix));
    }

    method VisitMappingEntry(prefix: string, beforeMappingValueIndicator: Option<string>)
      modifies this
      ensures lineNumber == old(lineNumber) + CountLines(Some(prefix)) + CountLines(beforeMappingValueIndicator)
    {
      lineNumber := lineNumber + CountLines(Some(prefix));
      lineNumber := lineNumber + CountLines(beforeMappingValueIndicator);
    }

    /** A mapping, around the visit of its entries, which moves the counter by
        `entries` (the framework's traversal is not part of this model). */
    method VisitMapping(m: Mapping, entries: nat)
      modifies this
      ensures lineNumber == old(lineNumber) + MappingAdvance(m, entries)
    {
      lineNumber := lineNumber + CountLines(Some(m.prefix));
      lineNumber := lineNumber + CountLines(m.openingBracePrefix);
      lineNumber := lineNumber + entries;
      lineNumber := lineNumber + CountLines(m.closingBracePrefix);
    }

    /** A sequence, as written: the opening bracket's prefix again after the entries. */
    method VisitSequence(s: Sequence, entries: nat)
      modifies this
      ensures lineNumber == old(lineNumber) + SequenceAdvance(s, entries)
    {
      lineNumber := lineNumber + CountLines(Some(s.prefix));
      lineNumber := lineNumber + CountLines(s.openingBracketPrefix);
      lineNumber := lineNumber + entries;
      lineNumber := lineNumber + CountLines(s.openingBracketPrefix);
    }
  }
}
