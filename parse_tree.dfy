/** The structural output of the grammar front-end that the `parse`
    functions consume: a pest `Pair` reduced to its rule tag (`as_rule`), its
    matched text (`as_str`) and its ordered children (`into_inner`).
    The grammar itself (src/parser/forth.pest) is not part of this model. */
module ParseTrees {

  datatype Rule =
    | IntegerRule
    | StringRule
    | IdentRule
    | LiteralRule
    | ExpressionRule
    | StatementRule
    | IfThenRule
    | IfElseThenRule
    | DoLoopRule
    | VariableDefinitionRule
    | ConstantDefinitionRule
    | WordDefinitionRule
    | DefinitionRule
    | LineRule

  datatype Pair = Pair(rule: Rule, text: string, children: seq<Pair>)
}
