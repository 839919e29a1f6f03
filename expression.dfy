/** Expressions (src/entities/complex/expression.rs): a sequence of literals
    and identifiers, built from the children of an `expression` node and run
    left to right, stopping at the first element that fails.

    Running an identifier (`Ident::execute`) is not part of this model: the
    execution layer takes it as a parameter, a step from one interpreter
    state to the next with a result. */
module Expressions {
  import opened Int64
  import opened Errors
  import opened Literals
  import opened ParseTrees
  import opened Ast
  import opened Interpreter

  /** How an identifier runs against the interpreter's state. */
  type IdentStep = (Snapshot, Ident) -> Effect<Snapshot>

  /** The children `ExpressionElement::parse` accepts: a well-formed literal
      node or an identifier node (anything else is `unreachable!`). */
  predicate ParsableElement(p: Pair) {
    || (p.rule == LiteralRule && ParsableLiteral(p))
    || p.rule == IdentRule
  }

  /** `ExpressionElement::parse` (expression.rs:12-20). */
  function ElementParse(p: Pair): (e: ExpressionElement)
    requires ParsableElement(p)
    ensures e.LiteralElement? <==> p.rule == LiteralRule
    ensures e.IdentElement? ==> e.ident.name == p.text
    ensures e.LiteralElement? ==> e.lit == Literals.Parse(p)
    ensures e.LiteralElement? && p.children[0].rule == StringRule ==> e.lit == Str(p.children[0].text)
  {
    if p.rule == LiteralRule then LiteralElement(Literals.Parse(p))
    else IdentElement(IdentParse(p))
  }

  predicate ParsableExpression(p: Pair) {
    forall i | 0 <= i < |p.children| :: ParsableElement(p.children[i])
  }

  /** The elements built from a run of children: one per child, in order. */
  function ElementsOf(children: seq<Pair>): (es: seq<ExpressionElement>)
    requires forall i | 0 <= i < |children| :: ParsableElement(children[i])
    ensures |es| == |children|
    ensures forall i | 0 <= i < |children| :: es[i] == ElementParse(children[i])
  {
    if children == [] then []
    else ElementsOf(children[..|children| - 1]) + [ElementParse(children[|children| - 1])]
  }

  /** What `Expression::parse` builds from an `expression` node. */
  function ExpressionOf(p: Pair): (e: Expression)
    requires ParsableExpression(p)
    ensures |e.elements| == |p.children|
    ensures forall i | 0 <= i < |p.children| :: e.elements[i] == ElementParse(p.children[i])
  {
    Expression(ElementsOf(p.children))
  }

  /** `Expression::parse` (expression.rs:41-57): one element per child of
      the node, in the children's order. */
  method Parse(p: Pair) returns (e: Expression)
    requires ParsableExpression(p)
    ensures e == ExpressionOf(p)
    ensures |e.elements| == |p.children|
    ensures forall i | 0 <= i < |p.children| :: e.elements[i] == ElementParse(p.children[i])
  {
    var elements: seq<ExpressionElement> := [];
    for i := 0 to |p.children|
      invariant elements == ElementsOf(p.children[..i])
    {
      var inner := p.children[i];
      assert p.children[..i + 1][..i] == p.children[..i];
      if inner.rule == LiteralRule {
        elements := elements + [LiteralElement(Literals.Parse(inner))];
      } else {
        elements := elements + [IdentElement(IdentParse(inner))];
      }
    }
    assert p.children[..|p.children|] == p.children;
    e := Expression(elements);
  }

  /** `Literal::execute` (src/entities/simple/literal.rs:41-46) on a state:
      the literal goes on top of the stack and nothing else changes. */
  function LiteralRun(l: Literal, s: Snapshot): Effect<Snapshot> {
    Effect(s.(stack := s.stack + [l]), Ok(()))
  }

  /** `ExpressionElement::execute` (expression.rs:22-34) on a state. */
  function Step(el: ExpressionElement, s: Snapshot, identStep: IdentStep): Effect<Snapshot> {
    match el
    case LiteralElement(l) => LiteralRun(l, s)
    case IdentElement(i) => identStep(s, i)
  }

  /** `Expression::execute` (expression.rs:59-66) on a state: the elements
      run in order; the first error is returned at once, with the effects of
      the elements before it (and of the failing one) kept. */
  function Run(elements: seq<ExpressionElement>, s: Snapshot, identStep: IdentStep): (r: Effect<Snapshot>)
    ensures elements == [] ==> r == Effect(s, Ok(()))
    ensures elements != [] && Step(elements[0], s, identStep).result.Err? ==> r == Step(elements[0], s, identStep)
    decreases elements
  {
    if elements == [] then Effect(s, Ok(()))
    else
      var e := Step(elements[0], s, identStep);
      if e.result.Err? then e else Run(elements[1..], e.after, identStep)
  }

  /** `Literal::execute`, in place: the literal is pushed and the call
      succeeds. */
  method ExecuteLiteral(l: Literal, interp: ForthInterpreter) returns (r: Result<()>)
    modifies interp.stack
    ensures Effect(interp.State(), r) == LiteralRun(l, old(interp.State()))
  {
    interp.Push(l);
    r := Ok(());
  }

  /** `ExpressionElement::execute`, in place. */
  method ExecuteElement(el: ExpressionElement, interp: ForthInterpreter, identStep: IdentStep)
    returns (r: Result<()>)
    modifies interp, interp.stack
    ensures Effect(interp.State(), r) == Step(el, old(interp.State()), identStep)
    ensures interp.nativeWords == old(interp.nativeWords)
    ensures interp.variableSlots == old(interp.variableSlots)
  {
    match el
    case LiteralElement(l) =>
      r := ExecuteLiteral(l, interp);
    case IdentElement(i) =>
      var e := identStep(interp.State(), i);
      interp.Restore(e.after);
      r := e.result;
  }

  /** `Expression::execute`, in place: the loop over the elements with the
      early return on the first error. */
  method Execute(expr: Expression, interp: ForthInterpreter, identStep: IdentStep)
    returns (r: Result<()>)
    modifies interp, interp.stack
    ensures Effect(interp.State(), r) == Run(expr.elements, old(interp.State()), identStep)
    ensures expr.elements == [] ==> r == Ok(()) && interp.State() == old(interp.State())
    ensures interp.nativeWords == old(interp.nativeWords)
    ensures interp.variableSlots == old(interp.variableSlots)
  {
    var i := 0;
    while i < |expr.elements|
      invariant 0 <= i <= |expr.elements|
      invariant Run(expr.elements, old(interp.State()), identStep)
        == Run(expr.elements[i..], interp.State(), identStep)
      invariant interp.nativeWords == old(interp.nativeWords)
      invariant interp.variableSlots == old(interp.variableSlots)
    {
      assert expr.elements[i..][1..] == expr.elements[i + 1..];
      r := ExecuteElement(expr.elements[i], interp, identStep);
      if r.Err? {
        return;
      }
      i := i + 1;
    }
    r := Ok(());
  }

  /** Running two element sequences one after the other is running their
      concatenation: the second runs from where the first left off, and not
      at all when the first failed. */
  lemma {:induction false} RunAppend(xs: seq<ExpressionElement>, ys: seq<ExpressionElement>,
                                     s: Snapshot, identStep: IdentStep)
    ensures Run(xs + ys, s, identStep) ==
      var e := Run(xs, s, identStep);
      if e.result.Err? then e else Run(ys, e.after, identStep)
    decreases xs
  {
    if xs == [] {
      assert xs + ys == ys;
    } else {
      assert (xs + ys)[0] == xs[0];
      assert (xs + ys)[1..] == xs[1..] + ys;
      var e := Step(xs[0], s, identStep);
      if e.result.Ok? {
        RunAppend(xs[1..], ys, e.after, identStep);
      }
    }
  }

  /** The first failing element ends the run: its error is the result, the
      state is the one it left, and the elements after it never run. */
  lemma FirstFailureAborts(xs: seq<ExpressionElement>, bad: ExpressionElement,
                           zs: seq<ExpressionElement>, s: Snapshot, identStep: IdentStep)
    requires Run(xs, s, identStep).result.Ok?
    requires Step(bad, Run(xs, s, identStep).after, identStep).result.Err?
    ensures Run(xs + [bad] + zs, s, identStep) == Step(bad, Run(xs, s, identStep).after, identStep)
  {
    RunAppend(xs, [bad] + zs, s, identStep);
    assert xs + [bad] + zs == xs + ([bad] + zs);
    assert ([bad] + zs)[0] == bad;
  }

  /** The literal payloads of a run of literal elements. */
  predicate AllLiterals(elements: seq<ExpressionElement>) {
    forall i | 0 <= i < |elements| :: elements[i].LiteralElement?
  }

  function LiteralsOf(elements: seq<ExpressionElement>): (ls: seq<Literal>)
    requires AllLiterals(elements)
    ensures |ls| == |elements|
    ensures forall i | 0 <= i < |elements| :: ls[i] == elements[i].lit
  {
    if elements == [] then [] else [elements[0].lit] + LiteralsOf(elements[1..])
  }

  /** An expression made only of literals pushes them in order and succeeds,
      whatever the identifier step: nothing else in the state changes. */
  lemma {:induction false} LiteralsArePushedInOrder(elements: seq<ExpressionElement>, s: Snapshot,
                                                    identStep: IdentStep)
    requires AllLiterals(elements)
    ensures Run(elements, s, identStep) ==
      Effect(s.(stack := s.stack + LiteralsOf(elements)), Ok(()))
    decreases elements
  {
    if elements == [] {
      assert s.stack + [] == s.stack;
    } else {
      var t := s.(stack := s.stack + [elements[0].lit]);
      LiteralsArePushedInOrder(elements[1..], t, identStep);
      assert s.stack + [elements[0].lit] + LiteralsOf(elements[1..]) == s.stack + LiteralsOf(elements);
    }
  }

  /** The `literal` nodes for the printed forms of `vs`. */
  function NumberNodes(vs: seq<I64>): (ps: seq<Pair>)
    ensures |ps| == |vs|
    ensures forall i | 0 <= i < |vs| ::
      ps[i] == Pair(LiteralRule, IntegerText(vs[i]), [Pair(IntegerRule, IntegerText(vs[i]), [])])
  {
    if vs == [] then []
    else
      [Pair(LiteralRule, IntegerText(vs[0]), [Pair(IntegerRule, IntegerText(vs[0]), [])])]
      + NumberNodes(vs[1..])
  }

  /** The integer literals holding `vs`, in order. */
  function Integers(vs: seq<I64>): (ls: seq<Literal>)
    ensures |ls| == |vs|
    ensures forall i | 0 <= i < |vs| :: ls[i] == Integer(vs[i])
  {
    if vs == [] then [] else [Integer(vs[0])] + Integers(vs[1..])
  }

  /** Each printed number parses back into the literal element of that
      number. */
  lemma NumberNodesParse(vs: seq<I64>)
    ensures forall i | 0 <= i < |vs| :: ParsableElement(NumberNodes(vs)[i])
    ensures forall i | 0 <= i < |vs| :: ElementParse(NumberNodes(vs)[i]) == LiteralElement(Integer(vs[i]))
  {
    forall i | 0 <= i < |vs|
      ensures ParsableElement(NumberNodes(vs)[i])
      ensures ElementParse(NumberNodes(vs)[i]) == LiteralElement(Integer(vs[i]))
    {
      ParseIntegerText(vs[i], []);
    }
  }

  /** An expression written as a row of numbers, such as `1 2 3`, parses
      and runs to push exactly those numbers, in order. */
  lemma NumbersArePushed(vs: seq<I64>, text: string, s: Snapshot, identStep: IdentStep)
    ensures ParsableExpression(Pair(ExpressionRule, text, NumberNodes(vs)))
    ensures Run(ExpressionOf(Pair(ExpressionRule, text, NumberNodes(vs))).elements, s, identStep) ==
      Effect(s.(stack := s.stack + Integers(vs)), Ok(()))
  {
    NumberNodesParse(vs);
    var es := ExpressionOf(Pair(ExpressionRule, text, NumberNodes(vs))).elements;
    assert AllLiterals(es);
    LiteralsArePushedInOrder(es, s, identStep);
    assert LiteralsOf(es) == Integers(vs);
  }
}
