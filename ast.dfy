/** The syntax tree the interpreter executes (src/entities): expressions,
    definitions, word bodies and lines. `Statement` mirrors the shapes of
    src/entities/complex/statement.rs; how statements run and are parsed is
    not part of this model, so the execution layer takes those steps as
    parameters. */
module Ast {
  import opened Errors
  import opened Literals
  import opened ParseTrees

  /** An identifier: the text of its token (src/entities/simple/ident.rs). */
  datatype Ident = Ident(name: string)

  /** `Ident::parse`: the node's text, verbatim. */
  function IdentParse(p: Pair): (i: Ident)
    ensures i.name == p.text
  {
    Ident(p.text)
  }

  datatype Statement =
    | IfThen(trueExpr: Expression)
    | IfElseThen(trueExpr: Expression, falseExpr: Expression)
    | DoLoop(counter: Ident, body: Expression)

  /** src/entities/complex/expression.rs:6-10. */
  datatype ExpressionElement =
    | LiteralElement(lit: Literal)
    | IdentElement(ident: Ident)

  datatype Expression = Expression(elements: seq<ExpressionElement>)

  /** The body of a user word (src/entities/complex/definition.rs:107-111). */
  datatype WordElement =
    | StatementBody(stmt: Statement)
    | ExpressionBody(expr: Expression)

  datatype VariableDefinition = VariableDefinition(name: Ident, value: Option<Literal>)

  datatype ConstantDefinition = ConstantDefinition(name: Ident, value: Literal)

  datatype WordDefinition = WordDefinition(name: Ident, body: WordElement)

  /** src/entities/complex/definition.rs:7-12. */
  datatype Definition =
    | VariableDef(variable: VariableDefinition)
    | ConstantDef(constant: ConstantDefinition)
    | WordDef(word: WordDefinition)

  /** src/entities/mod.rs:11-15. */
  datatype Line =
    | DefinitionLine(definition: Definition)
    | ExpressionLine(expression: Expression)
}
