/** The interpreter's state and its native words (src/lib.rs).

    Each word is stated twice. First, a function computes, from the stack
    before the word (and, for the variable words, the variable map), the
    stack after it and the result. Second, a method of the
    `ForthInterpreter` class performs the word step by step on the stack
    object and is proved to match that function. The lemmas after the
    functions prove what the words mean: the shuffles' algebra, the
    comparison words' symmetry, the boolean algebra of the logic words on
    flags, and the round trip through a variable.

    Integer overflow and division by zero panic in the source. Here they
    are preconditions, as are the `unwrap` of an unset variable and the
    `unreachable!` of the boolean coercion. */
module Interpreter {
  import opened Int64
  import opened Errors
  import opened Literals
  import opened Stacks
  import opened Variables
  import opened Ast
  import Words

  /** The variable map of src/lib.rs:38: name to value, absent until
      stored. */
  type Store = map<string, Option<Literal>>

  // ---------------------------------------------------------------------
  // Stack words as functions of the stack (bottom first, top last)
  // ---------------------------------------------------------------------

  /** One `Stack::pop`. */
  function PopTop(s: seq<Literal>): (seq<Literal>, Option<Literal>) {
    if s == [] then (s, None) else (s[..|s| - 1], Some(s[|s| - 1]))
  }

  /** `get_binary_operands` (src/lib.rs:68-72): pops `b`, then `a`, and
      returns `(a, b)`; each missing item is `StackUnderflow`, and whatever
      was popped stays popped. */
  function BinaryOperands(s: seq<Literal>): (r: (seq<Literal>, Result<(Literal, Literal)>))
    ensures |s| >= 2 ==> r == (s[..|s| - 2], Ok((s[|s| - 2], s[|s| - 1])))
    ensures |s| < 2 ==> r == ([], Err(StackUnderflow))
  {
    var (s1, b) := PopTop(s);
    if b.None? then (s1, Err(StackUnderflow))
    else
      var (s2, a) := PopTop(s1);
      if a.None? then (s2, Err(StackUnderflow))
      else
        assert s2 == s[..|s| - 2] && a.value == s[|s| - 2];
        (s2, Ok((a.value, b.value)))
  }

  /** Taking two operands from a stack with two literals pushed on top
      gives back exactly those literals, deeper one first. */
  lemma OperandsOfPushed(s: seq<Literal>, a: Literal, b: Literal)
    ensures BinaryOperands(s + [a, b]) == (s, Ok((a, b)))
  {
    var t := s + [a, b];
    assert t[..|t| - 2] == s && t[|t| - 2] == a && t[|t| - 1] == b;
  }

  datatype ArithOp = Plus | Minus | Times | Divide

  /** The i64 operators on values in range: `/` truncates toward zero. */
  function Apply(op: ArithOp, a: int, b: int): int
    requires op == Divide ==> b != 0
  {
    match op
    case Plus => a + b
    case Minus => a - b
    case Times => a * b
    case Divide => TruncDiv(a, b)
  }

  /** What Rust needs in order not to panic: no zero divisor, and a result
      in the i64 range. */
  predicate ArithDefined(op: ArithOp, a: int, b: int) {
    (op == Divide ==> b != 0) && InRange(Apply(op, a, b))
  }

  /** The arithmetic words' precondition: when the two top items are
      integers, the operation on them is defined. */
  predicate ArithSafe(op: ArithOp, s: seq<Literal>) {
    |s| >= 2 && s[|s| - 2].Integer? && s[|s| - 1].Integer? ==>
      ArithDefined(op, s[|s| - 2].i, s[|s| - 1].i)
  }

  /** `add`, `sub`, `mul` and `div` (src/lib.rs:94-136). */
  function Arith(op: ArithOp, s: seq<Literal>): (e: Effect<seq<Literal>>)
    requires ArithSafe(op, s)
    ensures |s| < 2 ==> e == Effect([], Err(StackUnderflow))
    ensures |s| >= 2 && s[|s| - 2].Integer? && s[|s| - 1].Integer? ==>
      e == Effect(s[..|s| - 2] + [Integer(Apply(op, s[|s| - 2].i, s[|s| - 1].i))], Ok(()))
    ensures |s| >= 2 && !(s[|s| - 2].Integer? && s[|s| - 1].Integer?) ==>
      e == Effect(s[..|s| - 2], Err(InvalidOperands))
  {
    var (rest, operands) := BinaryOperands(s);
    match operands
    case Err(err) => Effect(rest, Err(err))
    case Ok((a, b)) =>
      if a.Integer? && b.Integer? then Effect(rest + [Integer(Apply(op, a.i, b.i))], Ok(()))
      else Effect(rest, Err(InvalidOperands))
  }

  /** `get_last_literal` (src/lib.rs:74-76). */
  function LastLiteral(s: seq<Literal>): (r: Result<Literal>)
    ensures r.Ok? <==> s != []
    ensures r.Ok? ==> r.value == s[|s| - 1]
    ensures r.Err? ==> r.error == StackUnderflow
  {
    match PopTop(s).1
    case Some(l) => Ok(l)
    case None => Err(StackUnderflow)
  }

  /** `dup` (src/lib.rs:138-141). */
  function DupWord(s: seq<Literal>): (e: Effect<seq<Literal>>)
    ensures s == [] ==> e == Effect(s, Err(StackUnderflow))
    ensures s != [] ==> e == Effect(s + [s[|s| - 1]], Ok(()))
  {
    match LastLiteral(s)
    case Ok(l) => Effect(s + [l], Ok(()))
    case Err(err) => Effect(s, Err(err))
  }

  /** `drop` (src/lib.rs:143-146). */
  function DropWord(s: seq<Literal>): (e: Effect<seq<Literal>>)
    ensures s == [] ==> e == Effect(s, Err(StackUnderflow))
    ensures s != [] ==> e == Effect(s[..|s| - 1], Ok(()))
  {
    var (rest, top) := PopTop(s);
    if top.None? then Effect(rest, Err(StackUnderflow)) else Effect(rest, Ok(()))
  }

  /** `swap` (src/lib.rs:148-153): `[.. a b]` becomes `[.. b a]`; with fewer
      than two items the popped ones are lost. */
  function SwapWord(s: seq<Literal>): (e: Effect<seq<Literal>>)
    ensures |s| >= 2 ==> e == Effect(s[..|s| - 2] + [s[|s| - 1], s[|s| - 2]], Ok(()))
    ensures |s| < 2 ==> e == Effect([], Err(StackUnderflow))
  {
    var (rest, operands) := BinaryOperands(s);
    match operands
    case Err(err) => Effect(rest, Err(err))
    case Ok((a, b)) =>
      assert rest + [b] + [a] == rest + [b, a];
      Effect(rest + [b] + [a], Ok(()))
  }

  /** `over` (src/lib.rs:155-162): `[.. a b]` becomes `[.. a b a]`; a shorter
      stack is left as it was. */
  function OverWord(s: seq<Literal>): (e: Effect<seq<Literal>>)
    ensures |s| >= 2 ==> e == Effect(s + [s[|s| - 2]], Ok(()))
    ensures |s| < 2 ==> e == Effect(s, Err(StackUnderflow))
  {
    var length := |s|;
    if length >= 2 then Effect(s + [s[length - 2]], Ok(())) else Effect(s, Err(StackUnderflow))
  }

  /** `rot` (src/lib.rs:164-172): removes the third item from the top and
      pushes it, so `[.. a b c]` becomes `[.. b c a]`; a shorter stack is
      left as it was. */
  function RotWord(s: seq<Literal>): (e: Effect<seq<Literal>>)
    ensures |s| >= 3 ==>
      e == Effect(s[..|s| - 3] + [s[|s| - 2], s[|s| - 1], s[|s| - 3]], Ok(()))
    ensures |s| < 3 ==> e == Effect(s, Err(StackUnderflow))
  {
    var length := |s|;
    if length >= 3 then
      var i := length - 3;
      assert s[..i] + s[i + 1..] + [s[i]] == s[..|s| - 3] + [s[|s| - 2], s[|s| - 1], s[|s| - 3]];
      Effect(s[..i] + s[i + 1..] + [s[i]], Ok(()))
    else Effect(s, Err(StackUnderflow))
  }

  /** The flag a comparison pushes: -1 for true, 0 for false. */
  function Flag(b: bool): Literal {
    Integer(if b then -1 else 0)
  }

  datatype Relation = EqualTo | LessThan | GreaterThan

  /** `a == b`, `a < b` and `a > b` on literals. */
  predicate Holds(rel: Relation, a: Literal, b: Literal) {
    match rel
    case EqualTo => Eq(a, b)
    case LessThan => Lt(a, b)
    case GreaterThan => Gt(a, b)
  }

  /** `equal`, `less_than` and `greater_than` (src/lib.rs:192-208). */
  function Compare(rel: Relation, s: seq<Literal>): (e: Effect<seq<Literal>>)
    ensures |s| >= 2 ==> e == Effect(s[..|s| - 2] + [Flag(Holds(rel, s[|s| - 2], s[|s| - 1]))], Ok(()))
    ensures |s| < 2 ==> e == Effect([], Err(StackUnderflow))
  {
    var (rest, operands) := BinaryOperands(s);
    match operands
    case Err(err) => Effect(rest, Err(err))
    case Ok((a, b)) => Effect(rest + [Flag(Holds(rel, a, b))], Ok(()))
  }

  /** A literal counts as true in `and` and `or` when it differs from
      `Integer(0)`. */
  predicate Truthy(l: Literal) {
    !Eq(l, Integer(0))
  }

  datatype Connective = Conjunction | Disjunction

  /** `and` and `or` (src/lib.rs:210-220). */
  function Logic(op: Connective, s: seq<Literal>): (e: Effect<seq<Literal>>)
    ensures |s| >= 2 ==>
      var a, b := s[|s| - 2], s[|s| - 1];
      e == Effect(s[..|s| - 2] + [Flag(if op == Conjunction then Truthy(a) && Truthy(b) else Truthy(a) || Truthy(b))], Ok(()))
    ensures |s| < 2 ==> e == Effect([], Err(StackUnderflow))
  {
    var (rest, operands) := BinaryOperands(s);
    match operands
    case Err(err) => Effect(rest, Err(err))
    case Ok((a, b)) =>
      var holds := match op
        case Conjunction => Truthy(a) && Truthy(b)
        case Disjunction => Truthy(a) || Truthy(b);
      Effect(rest + [Flag(holds)], Ok(()))
  }

  /** `invert` (src/lib.rs:222-226): replaces the top by -1 when it equals
      `Integer(0)` and by 0 otherwise. */
  function InvertWord(s: seq<Literal>): (e: Effect<seq<Literal>>)
    ensures s == [] ==> e == Effect(s, Err(StackUnderflow))
    ensures s != [] ==> e == Effect(s[..|s| - 1] + [Flag(Eq(s[|s| - 1], Integer(0)))], Ok(()))
  {
    var (rest, top) := PopTop(s);
    match top
    case None => Effect(rest, Err(StackUnderflow))
    case Some(a) => Effect(rest + [Flag(Eq(a, Integer(0)))], Ok(()))
  }

  // ---------------------------------------------------------------------
  // Variable words, on the stack and the variable map. The map key is the
  // printed form of the name literal (`to_string`), passed in as `render`.
  // ---------------------------------------------------------------------

  datatype VarState = VarState(stack: seq<Literal>, variables: Store)

  /** `variable` (src/lib.rs:228-232): pops the name and declares it
      unset, replacing any earlier value. */
  function DeclareVariable(st: VarState, render: Literal -> string): (e: Effect<VarState>)
    ensures st.stack == [] ==> e == Effect(st, Err(StackUnderflow))
    ensures st.stack != [] ==>
      var name := render(st.stack[|st.stack| - 1]);
      e == Effect(VarState(st.stack[..|st.stack| - 1], st.variables[name := None]), Ok(()))
  {
    var (rest, top) := PopTop(st.stack);
    match top
    case None => Effect(VarState(rest, st.variables), Err(StackUnderflow))
    case Some(name) => Effect(VarState(rest, st.variables[render(name) := None]), Ok(()))
  }

  /** `store_variable` (src/lib.rs:234-243): pops the name (top) and the
      value under it; an undeclared name is `VariableNotExist` with both
      consumed; otherwise exactly that entry becomes `Some(value)`. */
  function StoreVariable(st: VarState, render: Literal -> string): (e: Effect<VarState>)
    ensures |st.stack| < 2 ==> e == Effect(VarState([], st.variables), Err(StackUnderflow))
    ensures |st.stack| >= 2 ==>
      var rest, value, name := st.stack[..|st.stack| - 2], st.stack[|st.stack| - 2], render(st.stack[|st.stack| - 1]);
      e == if name in st.variables
        then Effect(VarState(rest, st.variables[name := Some(value)]), Ok(()))
        else Effect(VarState(rest, st.variables), Err(VariableNotExist))
  {
    var (rest, operands) := BinaryOperands(st.stack);
    match operands
    case Err(err) => Effect(VarState(rest, st.variables), Err(err))
    case Ok((value, name)) =>
      var key := render(name);
      if key !in st.variables then Effect(VarState(rest, st.variables), Err(VariableNotExist))
      else Effect(VarState(rest, st.variables[key := Some(value)]), Ok(()))
  }

  /** `get_variable` needs a stored value for a declared name: it unwraps
      the entry. */
  predicate FetchDefined(st: VarState, render: Literal -> string) {
    st.stack != [] && render(st.stack[|st.stack| - 1]) in st.variables ==>
      st.variables[render(st.stack[|st.stack| - 1])].Some?
  }

  /** `get_variable` (src/lib.rs:245-252): pops the name and pushes its
      value. An empty stack is `VariableNotExist`, not `StackUnderflow`, and
      so is an undeclared name, which stays popped. The map never changes. */
  function FetchVariable(st: VarState, render: Literal -> string): (e: Effect<VarState>)
    requires FetchDefined(st, render)
    ensures e.after.variables == st.variables
    ensures st.stack == [] ==> e == Effect(st, Err(VariableNotExist))
    ensures st.stack != [] ==>
      var rest, name := st.stack[..|st.stack| - 1], render(st.stack[|st.stack| - 1]);
      e == if name in st.variables
        then Effect(VarState(rest + [st.variables[name].value], st.variables), Ok(()))
        else Effect(VarState(rest, st.variables), Err(VariableNotExist))
  {
    var (rest, top) := PopTop(st.stack);
    match top
    case None => Effect(VarState(rest, st.variables), Err(VariableNotExist))
    case Some(name) =>
      var key := render(name);
      if key !in st.variables then Effect(VarState(rest, st.variables), Err(VariableNotExist))
      else Effect(VarState(rest + [st.variables[key].value], st.variables), Ok(()))
  }

  // ---------------------------------------------------------------------
  // What the words mean
  // ---------------------------------------------------------------------

  /** Taking the operands and pushing them back, deeper one first, restores
      any stack of two or more items. */
  lemma OperandsPushedBack(s: seq<Literal>)
    requires |s| >= 2
    ensures BinaryOperands(s).1.Ok?
    ensures BinaryOperands(s).0 + [BinaryOperands(s).1.value.0, BinaryOperands(s).1.value.1] == s
  {
    assert s[..|s| - 2] + [s[|s| - 2], s[|s| - 1]] == s;
  }

  /** The deeper item is the left operand: `a b -` pushes `a - b` and
      `a b /` pushes `a / b` rounded toward zero, whose remainder has the
      sign of `a` and is smaller than `b` in magnitude. */
  lemma ArithOperandOrder(s: seq<Literal>, a: I64, b: I64, op: ArithOp)
    requires ArithDefined(op, a, b)
    ensures ArithSafe(op, s + [Integer(a), Integer(b)])
    ensures Arith(op, s + [Integer(a), Integer(b)]) == Effect(s + [Integer(Apply(op, a, b))], Ok(()))
    ensures op == Divide ==>
      var r := a - Apply(op, a, b) * b;
      Abs(r) < Abs(b) && (a >= 0 ==> r >= 0) && (a <= 0 ==> r <= 0)
  {
    OperandsOfPushed(s, Integer(a), Integer(b));
    if op == Divide {
      TruncDivRemainder(a, b);
    }
  }

  /** `+` and `*` do not depend on the order of their operands; `-` does. */
  lemma ArithCommutes(s: seq<Literal>, a: I64, b: I64)
    requires ArithSafe(Plus, s + [Integer(a), Integer(b)]) && ArithSafe(Times, s + [Integer(a), Integer(b)])
    ensures ArithSafe(Plus, s + [Integer(b), Integer(a)]) && ArithSafe(Times, s + [Integer(b), Integer(a)])
    ensures Arith(Plus, s + [Integer(a), Integer(b)]) == Arith(Plus, s + [Integer(b), Integer(a)])
    ensures Arith(Times, s + [Integer(a), Integer(b)]) == Arith(Times, s + [Integer(b), Integer(a)])
    ensures a != b && ArithDefined(Minus, a, b) && ArithDefined(Minus, b, a) ==>
      Arith(Minus, s + [Integer(a), Integer(b)]) != Arith(Minus, s + [Integer(b), Integer(a)])
  {
    OperandsOfPushed(s, Integer(a), Integer(b));
    OperandsOfPushed(s, Integer(b), Integer(a));
    assert a * b == b * a;
    if a != b && ArithDefined(Minus, a, b) && ArithDefined(Minus, b, a) {
      assert Arith(Minus, s + [Integer(a), Integer(b)]).after[|s|] == Integer(a - b);
    }
  }

  /** A non-integer operand is `InvalidOperands`, and both operands are
      gone. */
  lemma ArithRejectsNonIntegers(op: ArithOp, s: seq<Literal>, a: Literal, b: Literal)
    requires !a.Integer? || !b.Integer?
    ensures ArithSafe(op, s + [a, b])
    ensures Arith(op, s + [a, b]) == Effect(s, Err(InvalidOperands))
  {
    OperandsOfPushed(s, a, b);
  }

  /** `swap` twice is the identity on stacks of two or more items. */
  lemma SwapInvolution(s: seq<Literal>)
    requires |s| >= 2
    ensures SwapWord(SwapWord(s).after) == Effect(s, Ok(()))
  {
    var t := SwapWord(s).after;
    assert t[..|t| - 2] == s[..|s| - 2];
    assert s[..|s| - 2] + [s[|s| - 2], s[|s| - 1]] == s;
  }

  /** `rot` three times is the identity on stacks of three or more items. */
  lemma RotThrice(s: seq<Literal>)
    requires |s| >= 3
    ensures RotWord(RotWord(RotWord(s).after).after) == Effect(s, Ok(()))
  {
    var n := |s|;
    var p := s[..n - 3];
    var a, b, c := s[n - 3], s[n - 2], s[n - 1];
    assert s == p + [a, b, c];
    var t1 := p + [b, c, a];
    assert RotWord(s).after == t1;
    assert t1[..n - 3] == p;
    var t2 := p + [c, a, b];
    assert RotWord(t1).after == t2;
    assert t2[..n - 3] == p;
    assert RotWord(t2).after == p + [a, b, c];
  }

  /** `over` then `drop`, and `dup` then `drop`, leave a stack as it was. */
  lemma PushThenDropRestores(s: seq<Literal>)
    requires |s| >= 2
    ensures DropWord(OverWord(s).after) == Effect(s, Ok(()))
    ensures DropWord(DupWord(s).after) == Effect(s, Ok(()))
  {
    assert (s + [s[|s| - 2]])[..|s|] == s;
    assert (s + [s[|s| - 1]])[..|s|] == s;
  }

  /** A cross-variant or `Unknown` comparison always pushes 0. */
  lemma CompareIncomparable(rel: Relation, s: seq<Literal>, a: Literal, b: Literal)
    requires Tag(a) != Tag(b) || a.Unknown? || b.Unknown?
    requires rel != EqualTo || Tag(a) != Tag(b)
    ensures Compare(rel, s + [a, b]) == Effect(s + [Integer(0)], Ok(()))
  {
    OperandsOfPushed(s, a, b);
    CmpUndefinedCases(a, b);
    EqualityByVariant(a, b);
  }

  /** `a b <` pushes the same flag as `b a >`, and `=` is symmetric. */
  lemma CompareDuality(s: seq<Literal>, a: Literal, b: Literal)
    ensures Compare(LessThan, s + [a, b]) == Compare(GreaterThan, s + [b, a])
    ensures Compare(EqualTo, s + [a, b]) == Compare(EqualTo, s + [b, a])
  {
    OperandsOfPushed(s, a, b);
    OperandsOfPushed(s, b, a);
    PartialCmpAntisymmetric(a, b);
    EqIsEquality(a, b);
    EqIsEquality(b, a);
  }

  /** On integers the comparison words follow the i64 order. */
  lemma CompareIntegers(s: seq<Literal>, a: I64, b: I64)
    ensures Compare(EqualTo, s + [Integer(a), Integer(b)]).after == s + [Flag(a == b)]
    ensures Compare(LessThan, s + [Integer(a), Integer(b)]).after == s + [Flag(a < b)]
    ensures Compare(GreaterThan, s + [Integer(a), Integer(b)]).after == s + [Flag(a > b)]
  {
    OperandsOfPushed(s, Integer(a), Integer(b));
  }

  /** Flags coerce back to the boolean they encode, and are truthy exactly
      when true. */
  lemma FlagMeaning(b: bool)
    ensures ToBool(Flag(b)) == b
    ensures Truthy(Flag(b)) == b
  {}

  /** The two notions of truth differ: `bool` accepts only -1 among the
      integers, while `and` and `or` accept every integer but 0. They agree
      on the flags the comparison words push. */
  lemma TruthNotionsDiffer(i: I64)
    ensures ToBool(Integer(i)) ==> Truthy(Integer(i))
    ensures i != 0 && i != -1 ==> Truthy(Integer(i)) && !ToBool(Integer(i))
    ensures (i == 0 || i == -1) ==> (ToBool(Integer(i)) <==> Truthy(Integer(i)))
  {}

  /** On flags, `and`, `or` and `invert` are conjunction, disjunction and
      negation. */
  lemma LogicOnFlags(s: seq<Literal>, x: bool, y: bool)
    ensures Logic(Conjunction, s + [Flag(x), Flag(y)]) == Effect(s + [Flag(x && y)], Ok(()))
    ensures Logic(Disjunction, s + [Flag(x), Flag(y)]) == Effect(s + [Flag(x || y)], Ok(()))
    ensures InvertWord(s + [Flag(x)]) == Effect(s + [Flag(!x)], Ok(()))
  {
    OperandsOfPushed(s, Flag(x), Flag(y));
    assert (s + [Flag(x)])[..|s|] == s;
  }

  /** `invert` after a comparison negates it: `a b < invert` pushes the flag
      of `!(a < b)`. */
  lemma InvertNegatesComparison(rel: Relation, s: seq<Literal>, a: Literal, b: Literal)
    ensures InvertWord(Compare(rel, s + [a, b]).after) == Effect(s + [Flag(!Holds(rel, a, b))], Ok(()))
  {
    OperandsOfPushed(s, a, b);
    LogicOnFlags(s, Holds(rel, a, b), false);
  }

  /** Storing a value under a declared name and fetching that name pushes
      the value back and records it in the map. */
  lemma StoreThenFetch(s: seq<Literal>, vars: Store, value: Literal, name: Literal, render: Literal -> string)
    requires render(name) in vars
    ensures
      var stored := StoreVariable(VarState(s + [value, name], vars), render);
      && stored == Effect(VarState(s, vars[render(name) := Some(value)]), Ok(()))
      && FetchDefined(VarState(s + [name], stored.after.variables), render)
      && FetchVariable(VarState(s + [name], stored.after.variables), render)
           == Effect(VarState(s + [value], stored.after.variables), Ok(()))
  {
    OperandsOfPushed(s, value, name);
    assert (s + [name])[..|s|] == s;
  }

  /** The script of src/bin.rs:6-8, `variable user_var`, `123 user_var !`,
      `user_var @`, ends with 123 on the stack and in the map, whatever
      the stack and map held before. */
  lemma DeclareStoreFetchScript(s: seq<Literal>, vars: Store, name: Literal, render: Literal -> string)
    ensures
      var declared := DeclareVariable(VarState(s + [name], vars), render);
      var stored := StoreVariable(VarState(declared.after.stack + [Integer(123), name], declared.after.variables), render);
      && declared.result == Ok(()) && stored.result == Ok(())
      && FetchDefined(VarState(stored.after.stack + [name], stored.after.variables), render)
      && FetchVariable(VarState(stored.after.stack + [name], stored.after.variables), render)
           == Effect(VarState(s + [Integer(123)], vars[render(name) := Some(Integer(123))]), Ok(()))
  {
    assert (s + [name])[..|s|] == s;
    StoreThenFetch(s, vars[render(name) := None], Integer(123), name, render);
    assert vars[render(name) := None][render(name) := Some(Integer(123))] == vars[render(name) := Some(Integer(123))];
  }

  /** Fetching an undeclared name, or from an empty stack, is
      `VariableNotExist`; storing to an undeclared name consumes both
      operands and changes no variable. */
  lemma UndeclaredVariable(s: seq<Literal>, vars: Store, value: Literal, name: Literal, render: Literal -> string)
    requires render(name) !in vars
    ensures FetchVariable(VarState([], vars), render) == Effect(VarState([], vars), Err(VariableNotExist))
    ensures FetchDefined(VarState(s + [name], vars), render)
    ensures FetchVariable(VarState(s + [name], vars), render) == Effect(VarState(s, vars), Err(VariableNotExist))
    ensures StoreVariable(VarState(s + [value, name], vars), render) == Effect(VarState(s, vars), Err(VariableNotExist))
  {
    OperandsOfPushed(s, value, name);
    assert (s + [name])[..|s|] == s;
  }

  // ---------------------------------------------------------------------
  // The scripts of the source's tests, as far as the words shown run them
  // ---------------------------------------------------------------------

  /** src/tests/easy_forth/stack_manipulating.rs:9-41. */
  lemma StackWordExamples()
    ensures DupWord([Integer(1), Integer(2), Integer(3)]).after == [Integer(1), Integer(2), Integer(3), Integer(3)]
    ensures DropWord([Integer(1), Integer(2), Integer(3)]).after == [Integer(1), Integer(2)]
    ensures SwapWord([Integer(1), Integer(2), Integer(3), Integer(4)]).after == [Integer(1), Integer(2), Integer(4), Integer(3)]
    ensures OverWord([Integer(1), Integer(2), Integer(3)]).after == [Integer(1), Integer(2), Integer(3), Integer(2)]
    ensures RotWord([Integer(1), Integer(2), Integer(3)]).after == [Integer(2), Integer(3), Integer(1)]
  {
    var s := [Integer(1), Integer(2), Integer(3)];
    assert s[..2] == [Integer(1), Integer(2)];
    assert s[..0] == [] && s[1..] == [Integer(2), Integer(3)];
    var t := [Integer(1), Integer(2), Integer(3), Integer(4)];
    assert t[..2] == [Integer(1), Integer(2)];
  }

  /** src/tests/easy_forth/adding_some_numbers.rs:9-24: `123 456 +`,
      `5 2 + 10 *`, and `1 2 3 + + +`, whose last `+` underflows. */
  lemma ArithExamples()
    ensures Arith(Plus, [Integer(123), Integer(456)]) == Effect([Integer(579)], Ok(()))
    ensures Arith(Times, Arith(Plus, [Integer(5), Integer(2)]).after + [Integer(10)]) == Effect([Integer(70)], Ok(()))
    ensures Arith(Plus, Arith(Plus, [Integer(1), Integer(2), Integer(3)]).after).after == [Integer(6)]
    ensures Arith(Plus, Arith(Plus, Arith(Plus, [Integer(1), Integer(2), Integer(3)]).after).after)
      == Effect([], Err(StackUnderflow))
  {
    ArithOperandOrder([], 123, 456, Plus);
    assert [] + [Integer(123), Integer(456)] == [Integer(123), Integer(456)];
    ArithOperandOrder([], 5, 2, Plus);
    assert [] + [Integer(5), Integer(2)] == [Integer(5), Integer(2)];
    ArithOperandOrder([], 7, 10, Times);
    assert [] + [Integer(7), Integer(10)] == [Integer(7)] + [Integer(10)];
    ArithOperandOrder([Integer(1)], 2, 3, Plus);
    assert [Integer(1)] + [Integer(2), Integer(3)] == [Integer(1), Integer(2), Integer(3)];
    ArithOperandOrder([], 1, 5, Plus);
    assert [] + [Integer(1), Integer(5)] == [Integer(1), Integer(5)];
    assert [] + [Integer(579)] == [Integer(579)] && [] + [Integer(70)] == [Integer(70)];
    assert [] + [Integer(7)] == [Integer(7)] && [] + [Integer(6)] == [Integer(6)];
  }

  /** src/tests/easy_forth/conditionals_and_loops.rs:9-29. */
  lemma BooleanExamples()
    ensures Compare(EqualTo, [Integer(3), Integer(4)]).after == [Integer(0)]
    ensures Compare(EqualTo, [Integer(5), Integer(5)]).after == [Integer(-1)]
    ensures Compare(LessThan, [Integer(3), Integer(4)]).after == [Integer(-1)]
    ensures Compare(GreaterThan, [Integer(3), Integer(4)]).after == [Integer(0)]
    ensures Logic(Conjunction, Compare(LessThan, [Integer(3), Integer(4)]).after
      + Compare(LessThan, [Integer(20), Integer(30)]).after).after == [Integer(-1)]
    ensures Logic(Disjunction, Compare(LessThan, [Integer(3), Integer(4)]).after
      + Compare(GreaterThan, [Integer(20), Integer(30)]).after).after == [Integer(-1)]
    ensures InvertWord(Compare(LessThan, [Integer(3), Integer(4)]).after).after == [Integer(0)]
  {
    CompareIntegers([], 3, 4);
    CompareIntegers([], 5, 5);
    CompareIntegers([], 20, 30);
    LogicOnFlags([], true, true);
    LogicOnFlags([], true, false);
  }

  // ---------------------------------------------------------------------
  // The interpreter object
  // ---------------------------------------------------------------------

  /** The part of the interpreter's state that running words and
      expressions can change. */
  datatype Snapshot = Snapshot(
    stack: seq<Literal>,
    variables: Store,
    constants: map<string, Literal>,
    userWords: map<string, WordElement>)

  /** `ForthInterpreter` (src/lib.rs:36-43). `variableSlots` is the sequence
      of variable records the definition layer appends to
      (src/entities/complex/definition.rs:61), which the native words do not
      use; `variables` is the map of src/lib.rs:38. */
  class ForthInterpreter {
    const stack: Stack<Literal>
    var variables: Store
    var variableSlots: seq<Variable>
    var constants: map<string, Literal>
    var nativeWords: map<string, Words.WordFn>
    var userWords: map<string, WordElement>

    /** `ForthInterpreter::new` (src/lib.rs:46-66). */
    constructor()
      ensures fresh(stack)
      ensures State() == Snapshot([], map[], map[], map[])
      ensures variableSlots == []
      ensures nativeWords == Words.InterpreterWords()
    {
      stack := new Stack<Literal>();
      variables := map[];
      variableSlots := [];
      constants := map[];
      nativeWords := Words.InterpreterWords();
      userWords := map[];
    }

    function State(): Snapshot
      reads this, stack
    {
      Snapshot(stack.items, variables, constants, userWords)
    }

    /** A helper of this model, not a method of `ForthInterpreter`: it puts
        the interpreter in state `s`, the one an abstract identifier or
        statement step computed. The native table and the variable records
        stay. */
    method Restore(s: Snapshot)
      modifies this, stack
      ensures State() == s
      ensures nativeWords == old(nativeWords) && variableSlots == old(variableSlots)
    {
      stack.items := s.stack;
      variables := s.variables;
      constants := s.constants;
      userWords := s.userWords;
    }

    /** `push` (src/lib.rs:254-256). */
    method Push(value: Literal)
      modifies stack
      ensures stack.items == old(stack.items) + [value]
    {
      stack.Push(value);
    }

    /** `get_last_literal` (src/lib.rs:74-76): reads only. */
    function GetLastLiteral(): (r: Result<Literal>)
      reads this, stack
      ensures r == LastLiteral(stack.items)
    {
      match stack.Last()
      case Some(l) => Ok(l)
      case None => Err(StackUnderflow)
    }

    method GetBinaryOperands() returns (r: Result<(Literal, Literal)>)
      modifies stack
      ensures (stack.items, r) == BinaryOperands(old(stack.items))
    {
      var b := stack.Pop();
      if b.None? {
        r := Err(StackUnderflow);
        return;
      }
      var a := stack.Pop();
      if a.None? {
        r := Err(StackUnderflow);
        return;
      }
      r := Ok((a.value, b.value));
    }

    /** `add`, `sub`, `mul` and `div`. */
    method Arithmetic(op: ArithOp) returns (r: Result<()>)
      requires ArithSafe(op, stack.items)
      modifies stack
      ensures Effect(stack.items, r) == Arith(op, old(stack.items))
    {
      ghost var s := stack.items;
      var operands := GetBinaryOperands();
      if operands.Ok? {
        var (a, b) := operands.value;
        if a.Integer? && b.Integer? {
          assert a == s[|s| - 2] && b == s[|s| - 1];
          Push(Integer(Apply(op, a.i, b.i)));
          r := Ok(());
          return;
        }
      }
      r := if operands.Err? then Err(operands.error) else Err(InvalidOperands);
    }

    method Dup() returns (r: Result<()>)
      modifies stack
      ensures Effect(stack.items, r) == DupWord(old(stack.items))
    {
      var last := GetLastLiteral();
      if last.Err? {
        r := Err(last.error);
        return;
      }
      Push(last.value);
      r := Ok(());
    }

    method Drop() returns (r: Result<()>)
      modifies stack
      ensures Effect(stack.items, r) == DropWord(old(stack.items))
    {
      var top := stack.Pop();
      r := if top.None? then Err(StackUnderflow) else Ok(());
    }

    method Swap() returns (r: Result<()>)
      modifies stack
      ensures Effect(stack.items, r) == SwapWord(old(stack.items))
    {
      var operands := GetBinaryOperands();
      if operands.Err? {
        r := Err(operands.error);
        return;
      }
      var (a, b) := operands.value;
      Push(b);
      Push(a);
      r := Ok(());
    }

    method Over() returns (r: Result<()>)
      modifies stack
      ensures Effect(stack.items, r) == OverWord(old(stack.items))
    {
      var length := stack.Length();
      if length >= 2 {
        Push(stack.Get(length - 2));
        r := Ok(());
      } else {
        r := Err(StackUnderflow);
      }
    }

    method Rot() returns (r: Result<()>)
      modifies stack
      ensures Effect(stack.items, r) == RotWord(old(stack.items))
    {
      var length := stack.Length();
      if length >= 3 {
        var element := stack.Remove(length - 3);
        stack.Push(element);
        r := Ok(());
      } else {
        r := Err(StackUnderflow);
      }
    }

    /** `equal`, `less_than` and `greater_than`. */
    method CompareTop(rel: Relation) returns (r: Result<()>)
      modifies stack
      ensures Effect(stack.items, r) == Compare(rel, old(stack.items))
    {
      var operands := GetBinaryOperands();
      if operands.Err? {
        r := Err(operands.error);
        return;
      }
      var (a, b) := operands.value;
      var holds := match rel
        case EqualTo => Eq(a, b)
        case LessThan => PartialCmp(a, b) == Some(Less)
        case GreaterThan => PartialCmp(a, b) == Some(Greater);
      stack.Push(Integer(if holds then -1 else 0));
      r := Ok(());
    }

    /** `and` and `or`. */
    method Connect(op: Connective) returns (r: Result<()>)
      modifies stack
      ensures Effect(stack.items, r) == Logic(op, old(stack.items))
    {
      var operands := GetBinaryOperands();
      if operands.Err? {
        r := Err(operands.error);
        return;
      }
      var (a, b) := operands.value;
      var holds := match op
        case Conjunction => !Eq(a, Integer(0)) && !Eq(b, Integer(0))
        case Disjunction => !Eq(a, Integer(0)) || !Eq(b, Integer(0));
      stack.Push(Integer(if holds then -1 else 0));
      r := Ok(());
    }

    method InvertTop() returns (r: Result<()>)
      modifies stack
      ensures Effect(stack.items, r) == InvertWord(old(stack.items))
    {
      var top := stack.Pop();
      if top.None? {
        r := Err(StackUnderflow);
        return;
      }
      stack.Push(Integer(if Eq(top.value, Integer(0)) then -1 else 0));
      r := Ok(());
    }

    method Variable(render: Literal -> string) returns (r: Result<()>)
      modifies this, stack
      ensures Effect(VarState(stack.items, variables), r)
        == DeclareVariable(VarState(old(stack.items), old(variables)), render)
      ensures constants == old(constants) && userWords == old(userWords)
      ensures nativeWords == old(nativeWords) && variableSlots == old(variableSlots)
    {
      var name := stack.Pop();
      if name.None? {
        r := Err(StackUnderflow);
        return;
      }
      variables := variables[render(name.value) := None];
      r := Ok(());
    }

    method Store(render: Literal -> string) returns (r: Result<()>)
      modifies this, stack
      ensures Effect(VarState(stack.items, variables), r)
        == StoreVariable(VarState(old(stack.items), old(variables)), render)
      ensures constants == old(constants) && userWords == old(userWords)
      ensures nativeWords == old(nativeWords) && variableSlots == old(variableSlots)
    {
      var operands := GetBinaryOperands();
      if operands.Err? {
        r := Err(operands.error);
        return;
      }
      var (value, name) := operands.value;
      var key := render(name);
      if key !in variables {
        r := Err(VariableNotExist);
        return;
      }
      variables := variables[key := Some(value)];
      r := Ok(());
    }

    method Fetch(render: Literal -> string) returns (r: Result<()>)
      requires FetchDefined(VarState(stack.items, variables), render)
      modifies stack
      ensures Effect(VarState(stack.items, variables), r)
        == FetchVariable(VarState(old(stack.items), variables), render)
    {
      var name := stack.Pop();
      if name.None? {
        r := Err(VariableNotExist);
        return;
      }
      var key := render(name.value);
      if key !in variables {
        r := Err(VariableNotExist);
        return;
      }
      stack.Push(variables[key].value);
      r := Ok(());
    }
  }
}
