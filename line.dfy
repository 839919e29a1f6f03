/** A line of input (src/entities/mod.rs): either a definition or an
    expression, decided by the kind of the `line` node's first child. */
module Lines {
  import opened Int64
  import opened Errors
  import opened ParseTrees
  import opened Ast
  import opened Interpreter
  import opened Expressions
  import opened Definitions

  /** The `line` nodes `Line::parse` accepts: a first child that is a
      parsable definition or expression (anything else is
      `unreachable!`). */
  predicate ParsableLine(p: Pair) {
    && p.children != []
    && var inner := p.children[0];
       || (inner.rule == DefinitionRule && ParsableDefinition(inner))
       || (inner.rule == ExpressionRule && ParsableExpression(inner))
  }

  /** `Line::parse` (mod.rs:17-26). */
  function LineParse(p: Pair, parseStatement: StatementParser): (l: Line)
    requires ParsableLine(p)
    ensures l.ExpressionLine? <==> p.children[0].rule == ExpressionRule
    ensures l.DefinitionLine? <==> p.children[0].rule == DefinitionRule
    ensures l.DefinitionLine? ==> l.definition == DefinitionParse(p.children[0], parseStatement)
    ensures l.ExpressionLine? ==> l.expression == ExpressionOf(p.children[0])
    ensures l.ExpressionLine? ==> |l.expression.elements| == |p.children[0].children|
  {
    var inner := p.children[0];
    if inner.rule == DefinitionRule then DefinitionLine(DefinitionParse(inner, parseStatement))
    else ExpressionLine(ExpressionOf(inner))
  }

  /** `Line::execute` (mod.rs:28-36): a definition line defines and
      succeeds; an expression line runs its elements in order and returns
      the first error. */
  method ExecuteLine(line: Line, interp: ForthInterpreter, identStep: IdentStep)
    returns (r: Result<()>)
    modifies interp, interp.stack
    ensures line.DefinitionLine? ==> r == Ok(()) && Applied(line.definition, interp)
    ensures line.ExpressionLine? ==>
      && Effect(interp.State(), r) == Run(line.expression.elements, old(interp.State()), identStep)
      && interp.nativeWords == old(interp.nativeWords)
      && interp.variableSlots == old(interp.variableSlots)
  {
    match line
    case DefinitionLine(d) =>
      r := ExecuteDefinition(d, interp);
    case ExpressionLine(e) =>
      r := Execute(e, interp, identStep);
  }

  /** A line of numbers, such as `1 2 3`, is read as an expression line that
      pushes those numbers in order and succeeds. */
  lemma NumberLinePushes(vs: seq<I64>, lineText: string, text: string, s: Snapshot,
                         parseStatement: StatementParser, identStep: IdentStep)
    ensures
      var p := Pair(LineRule, lineText, [Pair(ExpressionRule, text, NumberNodes(vs))]);
      && ParsableLine(p)
      && LineParse(p, parseStatement).ExpressionLine?
      && Run(LineParse(p, parseStatement).expression.elements, s, identStep)
         == Effect(s.(stack := s.stack + Integers(vs)), Ok(()))
  {
    NumbersArePushed(vs, text, s, identStep);
  }
}
