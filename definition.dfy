/** Definitions (src/entities/complex/definition.rs): `variable NAME`,
    `NAME constant` with its value, and `: NAME body ;`, how each is built
    from its parse node, and what defining it does to the interpreter.

    `Statement::parse` and `Statement::execute` (statement.rs) are not part
    of this model: word bodies that are statements are built and run by
    functions passed in as parameters. */
module Definitions {
  import opened Int64
  import opened Errors
  import opened Literals
  import opened ParseTrees
  import opened Ast
  import opened Variables
  import opened Interpreter
  import opened Expressions

  /** How a `statement` node is turned into a `Statement`. */
  type StatementParser = Pair -> Statement

  /** How a statement runs against the interpreter's state. */
  type StatementStep = (Snapshot, Statement) -> Effect<Snapshot>

  /** `Variable::parse` (definition.rs:49-57): the name is the first child;
      no value is attached yet. */
  function VariableParse(p: Pair): (d: VariableDefinition)
    requires p.children != []
    ensures d.name.name == p.children[0].text
    ensures d.value.None?
  {
    VariableDefinition(IdentParse(p.children[0]), None)
  }

  /** The last child carrying `rule`, if any. */
  function LastOfRule(children: seq<Pair>, rule: Rule): (r: Option<Pair>)
    ensures r.None? <==> forall i | 0 <= i < |children| :: children[i].rule != rule
    ensures r.Some? ==>
      exists i | 0 <= i < |children| ::
        && children[i] == r.value
        && r.value.rule == rule
        && forall j | i < j < |children| :: children[j].rule != rule
  {
    if children == [] then None
    else if children[|children| - 1].rule == rule then Some(children[|children| - 1])
    else LastOfRule(children[..|children| - 1], rule)
  }

  /** The nodes `Constant::parse` accepts: only identifier and literal
      children (anything else is `unreachable!`), at least one of each
      (both `unwrap`s succeed). */
  predicate ParsableConstant(p: Pair) {
    && (forall i | 0 <= i < |p.children| ::
          p.children[i].rule == IdentRule || p.children[i].rule == LiteralRule)
    && LastOfRule(p.children, IdentRule).Some?
    && LastOfRule(p.children, LiteralRule).Some?
  }

  function NameOf(o: Option<Pair>): Option<Ident> {
    match o
    case Some(p) => Some(IdentParse(p))
    case None => None
  }

  function TextValueOf(o: Option<Pair>): Option<Literal> {
    match o
    case Some(p) => Some(FromStr(p.text))
    case None => None
  }

  /** What `Constant::parse` builds: the last identifier child names the
      constant and the last literal child's text, as a string, is its
      value. */
  function ConstantOf(p: Pair): (c: ConstantDefinition)
    requires ParsableConstant(p)
    ensures exists i | 0 <= i < |p.children| ::
      && p.children[i].rule == IdentRule && c.name.name == p.children[i].text
      && forall j | i < j < |p.children| :: p.children[j].rule != IdentRule
    ensures exists i | 0 <= i < |p.children| ::
      && p.children[i].rule == LiteralRule && c.value == Str(p.children[i].text)
      && forall j | i < j < |p.children| :: p.children[j].rule != LiteralRule
  {
    ConstantDefinition(
      IdentParse(LastOfRule(p.children, IdentRule).value),
      FromStr(LastOfRule(p.children, LiteralRule).value.text))
  }

  /** `Constant::parse` (definition.rs:74-96): a scan over the children in
      which each identifier replaces the name found so far and each literal
      replaces the value. */
  method ConstantParse(p: Pair) returns (c: ConstantDefinition)
    requires ParsableConstant(p)
    ensures c == ConstantOf(p)
  {
    var value: Option<Literal> := None;
    var name: Option<Ident> := None;
    for i := 0 to |p.children|
      invariant name == NameOf(LastOfRule(p.children[..i], IdentRule))
      invariant value == TextValueOf(LastOfRule(p.children[..i], LiteralRule))
    {
      assert p.children[..i + 1][..i] == p.children[..i];
      var inner := p.children[i];
      if inner.rule == IdentRule {
        name := Some(IdentParse(inner));
      } else {
        value := Some(FromStr(inner.text));
      }
    }
    assert p.children[..|p.children|] == p.children;
    c := ConstantDefinition(name.value, value.value);
  }

  /** A constant's value keeps the literal's text as a string: a number
      written as the value of a constant is not parsed into an integer, as
      it is everywhere else a literal node is read. */
  lemma ConstantNumberStaysText(v: I64, name: string, text: string)
    ensures
      var number := Pair(LiteralRule, IntegerText(v), [Pair(IntegerRule, IntegerText(v), [])]);
      var p := Pair(ConstantDefinitionRule, text, [number, Pair(IdentRule, name, [])]);
      && ParsableConstant(p)
      && ConstantOf(p) == ConstantDefinition(Ident(name), Str(IntegerText(v)))
      && ParsableLiteral(number) && Literals.Parse(number) == Integer(v)
      && ConstantOf(p).value != Literals.Parse(number)
  {
    ParseIntegerText(v, []);
    var number := Pair(LiteralRule, IntegerText(v), [Pair(IntegerRule, IntegerText(v), [])]);
    var p := Pair(ConstantDefinitionRule, text, [number, Pair(IdentRule, name, [])]);
    assert p.children[..1] == [number];
    assert LastOfRule(p.children, IdentRule) == Some(Pair(IdentRule, name, []));
    assert LastOfRule(p.children, LiteralRule) == Some(number);
  }

  /** The word bodies `Word::parse` accepts: an `expression` node of
      parsable elements, or a `statement` node. */
  predicate ParsableBody(p: Pair) {
    || (p.rule == ExpressionRule && ParsableExpression(p))
    || p.rule == StatementRule
  }

  /** `Word::parse` (definition.rs:133-151): the first child names the
      word, the second is its body. */
  function WordParse(p: Pair, parseStatement: StatementParser): (w: WordDefinition)
    requires |p.children| >= 2 && ParsableBody(p.children[1])
    ensures w.name.name == p.children[0].text
    ensures w.body.ExpressionBody? <==> p.children[1].rule == ExpressionRule
    ensures w.body.ExpressionBody? ==> w.body.expr == ExpressionOf(p.children[1])
    ensures w.body.ExpressionBody? ==> |w.body.expr.elements| == |p.children[1].children|
    ensures w.body.StatementBody? ==> w.body.stmt == parseStatement(p.children[1])
  {
    var body := p.children[1];
    WordDefinition(
      IdentParse(p.children[0]),
      if body.rule == ExpressionRule then ExpressionBody(ExpressionOf(body))
      else StatementBody(parseStatement(body)))
  }

  /** A word defined as a row of numbers, such as `: three 1 2 3 ;`, is
      named by its first child, and running its body pushes exactly those
      numbers, in order, whatever the identifier and statement steps. */
  lemma NumberWordPushes(vs: seq<I64>, name: string, text: string, bodyText: string, s: Snapshot,
                         parseStatement: StatementParser, identStep: IdentStep,
                         statementStep: StatementStep)
    ensures
      var p := Pair(WordDefinitionRule, text,
                    [Pair(IdentRule, name, []), Pair(ExpressionRule, bodyText, NumberNodes(vs))]);
      && |p.children| >= 2 && ParsableBody(p.children[1])
      && WordParse(p, parseStatement).name == Ident(name)
      && BodyRun(WordParse(p, parseStatement).body, s, identStep, statementStep)
         == Effect(s.(stack := s.stack + Integers(vs)), Ok(()))
  {
    NumbersArePushed(vs, bodyText, s, identStep);
  }

  /** The nodes `Definition::parse` accepts in its first child. */
  predicate ParsableDefinitionKind(p: Pair) {
    || (p.rule == VariableDefinitionRule && p.children != [])
    || (p.rule == ConstantDefinitionRule && ParsableConstant(p))
    || (p.rule == WordDefinitionRule && |p.children| >= 2 && ParsableBody(p.children[1]))
  }

  predicate ParsableDefinition(p: Pair) {
    p.children != [] && ParsableDefinitionKind(p.children[0])
  }

  /** `Definition::parse` (definition.rs:14-24): the kind of the first child
      decides the kind of definition. */
  function DefinitionParse(p: Pair, parseStatement: StatementParser): (d: Definition)
    requires ParsableDefinition(p)
    ensures d.VariableDef? <==> p.children[0].rule == VariableDefinitionRule
    ensures d.ConstantDef? <==> p.children[0].rule == ConstantDefinitionRule
    ensures d.WordDef? <==> p.children[0].rule == WordDefinitionRule
    ensures d.VariableDef? ==> d.variable.value.None?
    ensures d.VariableDef? ==> d.variable == VariableParse(p.children[0])
    ensures d.ConstantDef? ==> d.constant == ConstantOf(p.children[0])
    ensures d.WordDef? ==> d.word == WordParse(p.children[0], parseStatement)
    ensures d.ConstantDef? ==> d.constant.value.Str?
  {
    var inner := p.children[0];
    match inner.rule
    case VariableDefinitionRule => VariableDef(VariableParse(inner))
    case ConstantDefinitionRule => ConstantDef(ConstantOf(inner))
    case WordDefinitionRule => WordDef(WordParse(inner, parseStatement))
  }

  /** What running definition `d` does: it touches neither the stack, the
      variable store nor the native words, and
      - a variable appends one new, empty record with its name to the
        variable records;
      - a constant binds its name to its value, replacing any earlier
        binding;
      - a word binds its name to its body, replacing any earlier body. */
  twostate predicate Applied(d: Definition, interp: ForthInterpreter)
    reads interp, interp.stack, interp.variableSlots
  {
    && interp.stack.items == old(interp.stack.items)
    && interp.variables == old(interp.variables)
    && interp.nativeWords == old(interp.nativeWords)
    && match d
       case VariableDef(v) =>
         && interp.constants == old(interp.constants)
         && interp.userWords == old(interp.userWords)
         && |interp.variableSlots| == |old(interp.variableSlots)| + 1
         && interp.variableSlots[..|old(interp.variableSlots)|] == old(interp.variableSlots)
         && var slot := interp.variableSlots[|old(interp.variableSlots)|];
            fresh(slot) && slot.name == v.name.name && slot.value == None
       case ConstantDef(c) =>
         && interp.constants == old(interp.constants)[c.name.name := c.value]
         && interp.userWords == old(interp.userWords)
         && interp.variableSlots == old(interp.variableSlots)
       case WordDef(w) =>
         && interp.userWords == old(interp.userWords)[w.name.name := w.body]
         && interp.constants == old(interp.constants)
         && interp.variableSlots == old(interp.variableSlots)
  }

  /** `Variable::execute` (definition.rs:59-67). */
  method ExecuteVariable(d: VariableDefinition, interp: ForthInterpreter) returns (r: Result<()>)
    modifies interp
    ensures r == Ok(())
    ensures Applied(VariableDef(d), interp)
  {
    var slot := new Variable(d.name.name, None);
    interp.variableSlots := interp.variableSlots + [slot];
    r := Ok(());
  }

  /** `Constant::execute` (definition.rs:98-105). */
  method ExecuteConstant(d: ConstantDefinition, interp: ForthInterpreter) returns (r: Result<()>)
    modifies interp
    ensures r == Ok(())
    ensures Applied(ConstantDef(d), interp)
  {
    interp.constants := interp.constants[d.name.name := d.value];
    r := Ok(());
  }

  /** `Word::execute` (definition.rs:153-160). */
  method ExecuteWord(d: WordDefinition, interp: ForthInterpreter) returns (r: Result<()>)
    modifies interp
    ensures r == Ok(())
    ensures Applied(WordDef(d), interp)
  {
    interp.userWords := interp.userWords[d.name.name := d.body];
    r := Ok(());
  }

  /** `Definition::execute` (definition.rs:26-41): defining never fails. */
  method ExecuteDefinition(d: Definition, interp: ForthInterpreter) returns (r: Result<()>)
    modifies interp
    ensures r == Ok(())
    ensures Applied(d, interp)
  {
    match d
    case VariableDef(v) => r := ExecuteVariable(v, interp);
    case ConstantDef(c) => r := ExecuteConstant(c, interp);
    case WordDef(w) => r := ExecuteWord(w, interp);
  }

  /** A second word definition with the same name replaces the first: only
      the later body is left. */
  method RedefineWord(first: WordDefinition, second: WordDefinition, interp: ForthInterpreter)
    requires first.name == second.name
    modifies interp
    ensures interp.userWords == old(interp.userWords)[second.name.name := second.body]
    ensures interp.constants == old(interp.constants)
  {
    var _ := ExecuteWord(first, interp);
    var _ := ExecuteWord(second, interp);
  }

  /** Declaring the same variable twice is not refused: it leaves two
      distinct, empty records with that name. */
  method DeclareTwice(d: VariableDefinition, interp: ForthInterpreter)
    modifies interp
    ensures |interp.variableSlots| == |old(interp.variableSlots)| + 2
    ensures interp.variableSlots[..|old(interp.variableSlots)|] == old(interp.variableSlots)
    ensures
      var n := |old(interp.variableSlots)|;
      && interp.variableSlots[n] != interp.variableSlots[n + 1]
      && interp.variableSlots[n].name == interp.variableSlots[n + 1].name == d.name.name
      && interp.variableSlots[n].value == interp.variableSlots[n + 1].value == None
  {
    var _ := ExecuteVariable(d, interp);
    var _ := ExecuteVariable(d, interp);
  }

  /** `WordElement::execute` (definition.rs:113-125) on a state: the body
      runs as a statement or as an expression, and its result is passed
      on. */
  function BodyRun(we: WordElement, s: Snapshot, identStep: IdentStep,
                   statementStep: StatementStep): Effect<Snapshot>
  {
    match we
    case StatementBody(st) => statementStep(s, st)
    case ExpressionBody(e) => Run(e.elements, s, identStep)
  }

  /** `WordElement::execute`, in place. */
  method ExecuteWordElement(we: WordElement, interp: ForthInterpreter, identStep: IdentStep,
                            statementStep: StatementStep) returns (r: Result<()>)
    modifies interp, interp.stack
    ensures Effect(interp.State(), r) == BodyRun(we, old(interp.State()), identStep, statementStep)
    ensures interp.nativeWords == old(interp.nativeWords)
    ensures interp.variableSlots == old(interp.variableSlots)
  {
    match we
    case StatementBody(st) =>
      var e := statementStep(interp.State(), st);
      interp.Restore(e.after);
      r := e.result;
    case ExpressionBody(expr) =>
      r := Execute(expr, interp, identStep);
  }
}
