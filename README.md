# Forth interpreter core, modelled in Dafny

This project models the core of a small Forth interpreter written in Rust.
That interpreter keeps a stack of literals (integers, strings, pointers,
arrays and an `Unknown` value), tables of variables, constants and
user-defined words, and a table of native words. A line of input is parsed
into an expression or a definition and then executed against that state.

The model covers the following parts, one Dafny module each:

- **`Interpreter`** (`src/lib.rs`): the native words.
  - The words are `+ - * /`, `dup drop swap over rot`, `= < >`, `and or invert`, and the variable words.
  - Each word is stated twice. First, a function gives the stack (and variable map) after the word, with its result. Second, a method of the `ForthInterpreter` class performs the word in place and is proved to match that function.
  - Lemmas prove what the words mean: operand order, commutativity, `swap` twice and `rot` three times being identities, the comparison duality, boolean algebra on flags, and the store-then-fetch round trip. Further lemmas replay the scripts of the repository's own tests.
- **`Literals`** (`src/entities/simple/literal.rs`): the `Literal` value.
  - Its hand-written equality is proved to be exactly structural equality.
  - Its partial order is proved antisymmetric. It is reflexive exactly when no `Unknown` occurs in the value. String comparison is proved to be dictionary order.
  - Also covered: boolean coercion, the `From` conversions, and building a literal from a parse node, including the round trip from an integer's printed form back to the integer.
- **`Stacks`** (`src/stack.rs`) and **`Arrays`** (`src/entities/complex/array.rs`): classes whose fields the methods update in place.
  - The array is also described by functions on its value. Lemmas prove its invariant, and that a fresh array of capacity `n` accepts exactly `n` pushes.
- **`Variables`** (`src/entities/complex/variable.rs`): the variable record and the in-place access that `get_mut` lends.
- **`Words`** (`src/words/mod.rs`): the five word groups and their composition into one table.
  - Later entries win in the combined table, so `!` ends up as `store_variable`.
  - The standard table has 26 names from 27 entries. The table `ForthInterpreter::new` installs has 18 names.
- **`DecimalParser`** (`src/parser/literal.rs`): the nom decimal-integer parser.
  - It takes the longest digit prefix. It accepts no sign and rejects values beyond the i64 range.
  - Rendering a number and parsing it back round-trips.
- **`Expressions`**, **`Definitions`**, **`Lines`** (`src/entities`): parsing from a parse tree and execution against the interpreter.
  - Expressions run left to right and stop at the first error.
  - Definitions append a variable record or rebind a constant or word name.
  - A line is one or the other.

Supporting modules:

- `Errors` holds the four error kinds, including `IndexOutOfBound`.
- `Int64` holds the i64 range and Rust's truncating division.
- `ParseTrees` is the abstract parse-tree node: a rule tag, the matched text and the children.
- `Ast` holds the syntax-tree datatypes.

The source holds variables in two ways:

- The native variable words (`src/lib.rs:38`, `228-252`) use a map from name to optional value. In the model that is the `variables` field.
- Executing a `variable` definition (`src/entities/complex/definition.rs:59-67`) appends a `Variable` record to a list. In the model that is the `variableSlots` field.

Both live on the `ForthInterpreter` class.

Where the repository's own test disagrees with the code, the model follows the code:

- `Constant::parse` stores the literal's source text as a string (`src/entities/complex/definition.rs:85`).
- So `42 constant answer` binds `answer` to the string `"42"`, not to the integer 42 that `src/tests/easy_forth/variables_and_constants.rs:32-41` expects.
- `Definitions.ConstantNumberStaysText` proves this.

Other modelling choices:

- Strings compare by code point, which is the order Rust's byte-wise UTF-8 comparison gives.
- `Array::push` appends after the `capacity` pre-filled slots, so the storage holds `capacity + size` slots. The model keeps that as written.

## Model

| member | source | states |
|---|---|---|
| Int64.TruncDiv | src/lib.rs:127-136 | Rust's `/`: the quotient's magnitude is the floor of the magnitudes' quotient, and it is negative only when the operands' signs differ, positive only when they agree |
| Int64.TruncDivRemainder | src/lib.rs:127-136 | Rust's `/` truncates toward zero: the remainder is smaller than the divisor in magnitude and has the dividend's sign |
| DecimalParser.FromDecimal | src/parser/literal.rs:11-13 | only an optional `+` or `-` followed by a non-empty digit run is accepted, everything else fails; the digits read as their base-10 value, negated after `-`, and a value outside the i64 range fails |
| DecimalParser.FromDecimalExamples | src/parser/literal.rs:11-13 | `-5`, `+5`, `007` and `-0` read as -5, 5, 7 and 0 |
| DecimalParser.FromDecimalRefusals | src/parser/literal.rs:11-13 | `-`, `+-1`, `1a` and ` 1` are refused |
| DecimalParser.TakeWhileDigits | src/parser/literal.rs:15-21 | splits the input into a digit prefix and a remainder that together rebuild it; the remainder does not start with a digit |
| DecimalParser.DecimalNumber | src/parser/literal.rs:19-24 | on success it consumed a non-empty, maximal digit prefix and returns its base-10 value with the rest; it fails exactly when there is no leading digit or the digits exceed the i64 maximum, and then reports the original input |
| DecimalParser.ParseInteger | src/parser/literal.rs:26-29 | `integer` succeeds exactly when the input starts with a digit run whose value fits an i64, returning `Integer` of that value and the text after the run; a failure reports the original input |
| DecimalParser.ParseLiteral | src/parser/literal.rs:31-33 | `literal` succeeds on exactly the same inputs; a failure is the original input wrapped in `ParseError` |
| DecimalParser.SignRejected | src/parser/literal.rs:15-24 | input starting with `+` or `-` is rejected by `decimal_number` and by `literal` |
| DecimalParser.LiteralIsInteger | src/parser/literal.rs:26-33 | `literal` succeeds exactly when `integer` does, with the same remainder and value; its failure is `integer`'s error wrapped in `ParseError` |
| DecimalParser.IntegerParsesExample | src/parser/literal.rs:37-42 | `integer("381283")` is `("", Integer(381283))` |
| DecimalParser.DecimalStringValue | src/parser/literal.rs:11-13 | the base-10 reading of a number's printed digits is that number |
| DecimalParser.TakeWhileAllDigits | src/parser/literal.rs:15-21 | a digit run followed by a non-digit splits exactly there |
| DecimalParser.DecimalNumberRoundTrip | src/parser/literal.rs:19-33 | printing any natural in the i64 range and parsing it back yields the number, leaving the non-digit text that followed |
| Literals.FromInt | src/entities/simple/literal.rs:161-165 | `From<i64>` gives `Integer` holding the value |
| Literals.FromStr | src/entities/simple/literal.rs:167-177 | `From<&str>` and `From<String>` give `String` holding the text |
| Literals.Eq | src/entities/simple/literal.rs:81-117 | the hand-written `eq` never holds between different variants |
| Literals.PartialCmp | src/entities/simple/literal.rs:119-158 | `partial_cmp` only orders two literals of the same variant, never `Unknown` |
| Literals.ConversionsKeepPayload | src/entities/simple/literal.rs:161-177 | `From<i64>` builds `Integer` and `From<&str>`/`From<String>` build `String` with the payload kept; equal literals come from equal payloads and the two kinds never compare equal |
| Literals.EqIsEquality | src/entities/simple/literal.rs:81-117 | the hand-written `eq` holds exactly when the two literals are the same variant with the same payload, array contents compared element by element |
| Literals.SeqEqIsEquality | src/entities/simple/literal.rs:105-111 | element-wise equality of array storage is sequence equality |
| Literals.EqualityByVariant | src/entities/simple/literal.rs:81-117 | literals of different variants are never equal; `Unknown == Unknown` |
| Literals.CmpUndefinedCases | src/entities/simple/literal.rs:119-158 | `partial_cmp` is `None` across variants and whenever `Unknown` is involved, `Unknown` against itself included |
| Literals.ScalarOrders | src/entities/simple/literal.rs:11-15 | integers order as i64 values; pointers order by address, then offset, as the derived ordering on the field order gives |
| Literals.StringCmpIsLexicographic | src/entities/simple/literal.rs:136-142 | string comparison is dictionary order: `Less` iff the first string is a proper prefix or smaller at the first difference, `Equal` iff equal, `Greater` symmetrically |
| Literals.LexLessCons | src/entities/simple/literal.rs:136-142 | dictionary order unfolds over the first characters |
| Literals.PartialCmpAntisymmetric | src/entities/simple/literal.rs:119-158 | swapping the operands reverses the ordering and keeps incomparable pairs incomparable |
| Literals.PartialCmpReflexive | src/entities/simple/literal.rs:119-158 | a literal compares `Equal` to itself exactly when no `Unknown` occurs in it, and is otherwise incomparable to itself |
| Literals.CmpEqualImpliesEqual | src/entities/simple/literal.rs:119-158 | comparing `Equal` implies the literals are equal |
| Literals.ToBool | src/entities/simple/literal.rs:190-198 | the coercion is true exactly for strings and for `Integer(-1)`; other variants are outside its domain |
| Literals.Parse | src/entities/simple/literal.rs:48-57 | a string child gives `String` of its text verbatim; an integer child gives `Integer` of the value `str::parse::<i64>` reads from its text |
| Literals.ParseIntegerText | src/entities/simple/literal.rs:48-64 | the printed form of any i64, read back as an integer node, parses to that same integer |
| Stacks.Stack.constructor | src/stack.rs:7-11 | a new stack is empty: length 0, no last element |
| Stacks.Stack.Push | src/stack.rs:13-15 | the value is appended; it is now `last()` and the length grew by one |
| Stacks.Stack.Pop | src/stack.rs:17-19 | an empty stack yields `None` and stays empty; otherwise the former last element is returned and only it is removed |
| Stacks.Stack.Last | src/stack.rs:21-23 | `None` exactly on an empty stack, else the last element; reads only |
| Stacks.Stack.Length | src/stack.rs:25-27 | the number of elements, zero exactly when there is no last element |
| Stacks.Stack.Swap | src/stack.rs:29-31 | the two in-range positions exchange their elements, every other position is unchanged, and the contents are a permutation of the old |
| Stacks.Stack.Get | src/stack.rs:33-35 | an in-range index `a` yields the item at position `a` from the bottom, so the last one at the top index; reads only |
| Stacks.Stack.Remove | src/stack.rs:37-39 | returns the element at the index; the later elements shift down by one and the length shrinks by one |
| Stacks.PushThenPop | src/stack.rs:13-19 | pushing then popping returns the pushed value and restores the stack |
| Arrays.NewValue | src/entities/complex/array.rs:12-19 | `new(n)` has capacity `n`, size 0 and exactly `n` slots holding `Integer(0)`, and satisfies the array invariant |
| Arrays.GetValue | src/entities/complex/array.rs:21-24 | `Some(storage[i])` exactly when `i` is within the storage, else `None` |
| Arrays.PushValue | src/entities/complex/array.rs:26-35 | full (size equal to capacity) is `IndexOutOfBound` with the array unchanged; otherwise the value is appended and the size grows by one; the capacity never changes |
| Arrays.SetValue | src/entities/complex/array.rs:37-45 | an index below the capacity replaces only that slot; any other index is `IndexOutOfBound` with the array unchanged |
| Arrays.UpdatesKeepWellFormed | src/entities/complex/array.rs:4-45 | `push` and `set` keep `size <= capacity` and `|storage| == capacity + size`, and keep the capacity |
| Arrays.SetThenGet | src/entities/complex/array.rs:21-45 | a value set below the capacity reads back; every other slot reads as before |
| Arrays.PushThenGet | src/entities/complex/array.rs:21-35 | a successful push is readable behind the pre-filled slots and earlier pushes, and every earlier slot is unchanged |
| Arrays.FreshArrayAcceptsCapacityPushes | src/entities/complex/array.rs:12-35 | a fresh array of capacity `n` accepts `n` pushes, which land after the `n` zero slots, and refuses the next with `IndexOutOfBound` |
| Arrays.PushAllBelowCapacity | src/entities/complex/array.rs:26-35 | pushes that fit the remaining capacity all succeed and append in order |
| Arrays.Array.constructor | src/entities/complex/array.rs:12-19 | the new object's fields are those of `new(n)` |
| Arrays.Array.Get | src/entities/complex/array.rs:21-24 | reads slot `i` as `GetValue` does, without changing the array |
| Arrays.Array.Capacity | src/entities/complex/array.rs:47-50 | the capacity field |
| Arrays.Array.Push | src/entities/complex/array.rs:26-35 | the in-place push has exactly the result and new fields of `PushValue`, and keeps the invariant |
| Arrays.Array.Set | src/entities/complex/array.rs:37-45 | the in-place set has exactly the result and new fields of `SetValue`, and keeps the invariant |
| Arrays.Array.At | src/entities/complex/array.rs:53-58 | indexing requires an index within the storage and yields what `get` yields there |
| Arrays.Array.AssignAt | src/entities/complex/array.rs:60-64 | a write through mutable indexing requires an index within the storage and replaces that slot only |
| Variables.Variable.constructor | src/entities/complex/variable.rs:3-7 | a record with the given name and value |
| Variables.Variable.GetMut | src/entities/complex/variable.rs:10-12 | `None` exactly when no value is stored, else the stored value |
| Variables.Variable.WriteThrough | src/entities/complex/variable.rs:10-12 | writing through the borrowed reference replaces the value and changes nothing else, the name included |
| Ast.IdentParse | src/entities/simple/ident.rs:7-13 | an identifier is its node's text |
| Words.CollectKeys | src/words/mod.rs:107-118 | `Collect`, the `collect` of the chained entries into a `HashMap`, keeps exactly the names the entries mention |
| Words.CollectLastWins | src/words/mod.rs:107-118 | in `Collect`'s map a name is bound to the procedure of its last entry |
| Words.NamesOfConcat | src/words/mod.rs:109-117 | chaining entry lists unites their names |
| Words.GroupNames | src/words/mod.rs:9-103 | the five groups contribute exactly `. emit cr`, `+ - * / mod negate abs max min`, `= > < ! and or`, `dup drop swap over rot @` and `! cells allot` |
| Words.StandardWordsKeys | src/words/mod.rs:107-118 | the names of `StandardWords` (the map `get_words` collects) are the union of the five groups' names |
| Words.BangIsStoreVariable | src/words/mod.rs:61-98 | `!` is listed as `not` and as `store_variable`, and the combined table maps it to `store_variable` |
| Words.StandardWordsNames | src/words/mod.rs:107-118 | the combined table's names, spelled out |
| Words.StandardNamesCount | src/words/mod.rs:9-103 | the groups mention 26 distinct names |
| Words.StandardWordsSize | src/words/mod.rs:9-118 | 27 entries give 26 names, `!` being the only duplicate |
| Words.InterpreterNamesCount | src/lib.rs:53-63 | the table `ForthInterpreter::new` installs has 18 names |
| Words.InterpreterWordsMissing | src/lib.rs:53-63 | that table has no `!`, `@` or `variable` |
| Words.InterpreterWordsContents | src/lib.rs:53-63 | `InterpreterWords`, the table `new` collects, has 18 names, maps `invert` and `<` to their procedures, and lacks `!`, `@` and `variable` |
| Interpreter.BinaryOperands | src/lib.rs:68-72 | with two or more items the top is `b` and the next `a`, both removed, `(a, b)` returned; with fewer, `StackUnderflow` with whatever was popped gone |
| Interpreter.OperandsOfPushed | src/lib.rs:68-72 | the operands of a stack with `a` then `b` pushed are `(a, b)` and the rest is the stack below |
| Interpreter.OperandsPushedBack | src/lib.rs:68-72 | pushing the operands back, deeper first, restores the stack |
| Interpreter.Arith | src/lib.rs:94-136 | two integers are replaced by `a op b`, the deeper item on the left; a non-integer operand is `InvalidOperands` with both consumed; a short stack is `StackUnderflow` |
| Interpreter.ArithOperandOrder | src/lib.rs:94-136 | `a b op` pushes `a op b`; division rounds toward zero with a remainder smaller than `b` and of `a`'s sign |
| Interpreter.ArithCommutes | src/lib.rs:94-125 | `+` and `*` give the same result for either operand order; `-` of distinct operands does not |
| Interpreter.ArithRejectsNonIntegers | src/lib.rs:94-136 | any non-integer operand is `InvalidOperands` and both operands stay consumed |
| Interpreter.LastLiteral | src/lib.rs:74-76 | the top item when there is one, else `StackUnderflow` |
| Interpreter.DupWord | src/lib.rs:138-141 | a copy of the top is pushed; an empty stack is `StackUnderflow` and unchanged |
| Interpreter.DropWord | src/lib.rs:143-146 | exactly the top is removed; an empty stack is `StackUnderflow` |
| Interpreter.SwapWord | src/lib.rs:148-153 | `[.. a b]` becomes `[.. b a]`; a short stack is `StackUnderflow` with its items consumed |
| Interpreter.OverWord | src/lib.rs:155-162 | `[.. a b]` becomes `[.. a b a]`; a short stack is `StackUnderflow` and unchanged |
| Interpreter.RotWord | src/lib.rs:164-172 | `[.. a b c]` becomes `[.. b c a]`; a short stack is `StackUnderflow` and unchanged |
| Interpreter.SwapInvolution | src/lib.rs:148-153 | `swap swap` is the identity on stacks of two or more |
| Interpreter.RotThrice | src/lib.rs:164-172 | `rot rot rot` is the identity on stacks of three or more |
| Interpreter.PushThenDropRestores | src/lib.rs:138-162 | `over drop` and `dup drop` restore the stack |
| Interpreter.Compare | src/lib.rs:192-208 | the two operands are replaced by -1 when the relation holds under literal equality or ordering and by 0 otherwise; a short stack is `StackUnderflow` |
| Interpreter.CompareIncomparable | src/lib.rs:192-208 | operands of different variants, or `Unknown` under an ordering, always give 0 |
| Interpreter.CompareDuality | src/lib.rs:192-208 | `a b <` equals `b a >`, and `=` is symmetric |
| Interpreter.CompareIntegers | src/lib.rs:192-208 | on integers `=`, `<` and `>` push the flag of the i64 relation |
| Interpreter.Logic | src/lib.rs:210-220 | `and`/`or` replace the operands by the flag of the conjunction/disjunction of "differs from `Integer(0)`" |
| Interpreter.InvertWord | src/lib.rs:222-226 | the top is replaced by -1 exactly when it equals `Integer(0)`, else by 0; an empty stack is `StackUnderflow` |
| Interpreter.FlagMeaning | src/lib.rs:82-92 | the flags -1 and 0 coerce back to true and false, and count as true in `and`/`or` exactly when true |
| Interpreter.TruthNotionsDiffer | src/lib.rs:82-92 | `bool` is true only for -1 among the integers, while `and`/`or` treat every non-zero integer as true; the two agree on flags |
| Interpreter.LogicOnFlags | src/lib.rs:210-226 | on flags `and`, `or` and `invert` are conjunction, disjunction and negation |
| Interpreter.InvertNegatesComparison | src/lib.rs:192-226 | a comparison followed by `invert` pushes the negated flag |
| Interpreter.DeclareVariable | src/lib.rs:228-232 | the popped name becomes a declared, unset variable, replacing any earlier value; an empty stack is `StackUnderflow` |
| Interpreter.StoreVariable | src/lib.rs:234-243 | name (top) and value are consumed; a declared name gets `Some(value)` and no other entry changes; an undeclared name is `VariableNotExist` with the map unchanged |
| Interpreter.FetchVariable | src/lib.rs:245-252 | the name is consumed and its value pushed; an empty stack or an undeclared name is `VariableNotExist`; the map never changes |
| Interpreter.StoreThenFetch | src/lib.rs:234-252 | storing then fetching a declared name pushes the stored value back |
| Interpreter.DeclareStoreFetchScript | src/bin.rs:6-8 | `variable user_var`, `123 user_var !`, `user_var @` leaves 123 on the stack and in the map |
| Interpreter.UndeclaredVariable | src/lib.rs:234-252 | fetching from an empty stack or an undeclared name, and storing to an undeclared name, are `VariableNotExist` with the map unchanged |
| Interpreter.StackWordExamples | src/tests/easy_forth/stack_manipulating.rs:9-41 | the stacks the stack-word test expects |
| Interpreter.ArithExamples | src/tests/easy_forth/adding_some_numbers.rs:9-24 | `123 456 +` gives 579, `5 2 + 10 *` gives 70, `1 2 3 + + +` underflows on the last `+` |
| Interpreter.BooleanExamples | src/tests/easy_forth/conditionals_and_loops.rs:9-29 | the flags the boolean test expects |
| Interpreter.ForthInterpreter.constructor | src/lib.rs:46-66 | empty stack and tables, and the 18-entry native table |
| Interpreter.ForthInterpreter.Push | src/lib.rs:254-256 | the value is appended to the stack |
| Interpreter.ForthInterpreter.GetLastLiteral | src/lib.rs:74-76 | the top of the stack as `LastLiteral` gives it; reads only |
| Interpreter.ForthInterpreter.GetBinaryOperands | src/lib.rs:68-72 | the in-place pops have exactly the stack and result of `BinaryOperands` |
| Interpreter.ForthInterpreter.Arithmetic | src/lib.rs:94-136 | the in-place word has exactly the stack and result of `Arith` |
| Interpreter.ForthInterpreter.Dup | src/lib.rs:138-141 | exactly the stack and result of `DupWord` |
| Interpreter.ForthInterpreter.Drop | src/lib.rs:143-146 | exactly the stack and result of `DropWord` |
| Interpreter.ForthInterpreter.Swap | src/lib.rs:148-153 | exactly the stack and result of `SwapWord` |
| Interpreter.ForthInterpreter.Over | src/lib.rs:155-162 | exactly the stack and result of `OverWord` |
| Interpreter.ForthInterpreter.Rot | src/lib.rs:164-172 | exactly the stack and result of `RotWord` |
| Interpreter.ForthInterpreter.CompareTop | src/lib.rs:192-208 | exactly the stack and result of `Compare` |
| Interpreter.ForthInterpreter.Connect | src/lib.rs:210-220 | exactly the stack and result of `Logic` |
| Interpreter.ForthInterpreter.InvertTop | src/lib.rs:222-226 | exactly the stack and result of `InvertWord` |
| Interpreter.ForthInterpreter.Variable | src/lib.rs:228-232 | exactly the stack, map and result of `DeclareVariable`; the other tables are unchanged |
| Interpreter.ForthInterpreter.Store | src/lib.rs:234-243 | exactly the stack, map and result of `StoreVariable`; the other tables are unchanged |
| Interpreter.ForthInterpreter.Fetch | src/lib.rs:245-252 | exactly the stack, map and result of `FetchVariable` |
| Expressions.ElementParse | src/entities/complex/expression.rs:12-20 | a literal node gives a literal element holding what `Literal::parse` builds from the node (a string child keeping its text), an identifier node an identifier element with its text |
| Expressions.ElementsOf | src/entities/complex/expression.rs:41-57 | one element per child, the `i`-th built from the `i`-th child |
| Expressions.ExpressionOf | src/entities/complex/expression.rs:41-57 | the expression built from a node has one element per child, the `i`-th parsed from the `i`-th child |
| Expressions.Parse | src/entities/complex/expression.rs:41-57 | the parsing loop builds one element per child in the children's order |
| Expressions.ExecuteLiteral | src/entities/simple/literal.rs:41-46 | exactly one copy of the literal is pushed and the call succeeds; nothing else changes |
| Expressions.ExecuteElement | src/entities/complex/expression.rs:22-34 | a literal is pushed, an identifier runs its step; the result is passed on |
| Expressions.Execute | src/entities/complex/expression.rs:59-66 | the loop's final state and result are those of running the elements in order, stopping at the first error; an empty expression succeeds and changes nothing |
| Expressions.Run | src/entities/complex/expression.rs:59-66 | running no elements succeeds and changes nothing; when the first element fails, its outcome is the outcome of the whole run |
| Expressions.RunAppend | src/entities/complex/expression.rs:59-66 | running a concatenation runs the second part from where the first ended, and not at all if the first failed |
| Expressions.FirstFailureAborts | src/entities/complex/expression.rs:61-63 | the first failing element's error and state are the outcome; earlier effects are kept and later elements never run |
| Expressions.LiteralsArePushedInOrder | src/entities/complex/expression.rs:59-66 | an all-literal expression pushes its literals in order and succeeds, changing nothing else |
| Expressions.NumbersArePushed | src/entities/complex/expression.rs:41-66 | an expression of printed numbers parses and runs to push exactly those numbers, in order |
| Definitions.VariableParse | src/entities/complex/definition.rs:49-57 | the name is the first child's text and no value is attached |
| Definitions.LastOfRule | src/entities/complex/definition.rs:79-89 | the last child of a given kind: absent exactly when there is none, and no later child has that kind |
| Definitions.ConstantOf | src/entities/complex/definition.rs:74-96 | the name is the text of an identifier child with no identifier after it, and the value is `String` of the text of a literal child with no literal after it |
| Definitions.ConstantParse | src/entities/complex/definition.rs:74-96 | the scan yields the last identifier as the name and the last literal's text, as a string, as the value |
| Definitions.ConstantNumberStaysText | src/entities/complex/definition.rs:84-86 | a number given as a constant's value is kept as its text, a string, unlike the integer the same node parses to as a literal |
| Definitions.WordParse | src/entities/complex/definition.rs:133-151 | the name is the first child's text; the body is an expression exactly when the second child is an expression node, and then it is the expression built from that node, one element per child; otherwise it is the statement the statement parser builds from that node |
| Definitions.NumberWordPushes | src/entities/complex/definition.rs:113-151 | a word defined as a row of printed numbers is named by its first child, and running its body pushes exactly those numbers, in order, and succeeds |
| Definitions.DefinitionParse | src/entities/complex/definition.rs:14-24 | the first child's kind decides the definition's kind, and the definition is what `Variable::parse`, `Constant::parse` or `Word::parse` builds from that child; a variable carries no value and a constant a string |
| Definitions.ExecuteVariable | src/entities/complex/definition.rs:59-67 | one new, empty record with the name is appended after the untouched earlier ones; nothing else changes; the result is `Ok` |
| Definitions.ExecuteConstant | src/entities/complex/definition.rs:98-105 | the name is bound to the value, replacing any earlier binding, other bindings and the stack unchanged; the result is `Ok` |
| Definitions.ExecuteWord | src/entities/complex/definition.rs:153-160 | the name is bound to the body, replacing any earlier body, other words and the stack unchanged; the result is `Ok` |
| Definitions.ExecuteDefinition | src/entities/complex/definition.rs:26-41 | the new state is `Applied`: each kind has its own effect (a new empty variable record, a constant binding, a word binding) and never touches the stack; defining always succeeds |
| Definitions.RedefineWord | src/entities/complex/definition.rs:153-160 | a second definition of a word leaves only the later body |
| Definitions.DeclareTwice | src/entities/complex/definition.rs:59-67 | a duplicate variable declaration adds a second, distinct empty record with the same name |
| Definitions.ExecuteWordElement | src/entities/complex/definition.rs:113-125 | a body runs as its statement or as its expression, and that run's state and result are the outcome |
| Lines.LineParse | src/entities/mod.rs:17-26 | a definition child gives the definition line of what `Definition::parse` builds from it, an expression child the expression line of what `Expression::parse` builds, one element per child |
| Lines.ExecuteLine | src/entities/mod.rs:28-36 | a definition line has exactly the effect of defining and succeeds; an expression line has exactly the effect and result of running the expression |
| Lines.NumberLinePushes | src/entities/mod.rs:17-36 | a line of printed numbers is an expression line that pushes those numbers in order |

## Left out

- `print_top`, `emit` and `cr` (src/lib.rs:174-190): their only effect is writing to standard output.
- `get_stack_dump` (src/lib.rs:78-80): it only lends the stack for printing.
- The Python binding and `ToPyObject` (src/entities/simple/literal.rs:179-188): a foreign-function adapter.
- The pest grammar and `src/parser/mod.rs`.
  - The grammar file is not part of this model.
  - Parse functions work on an abstract node: a rule tag, the matched text and the children.
  - Each parse function requires the node shapes its `unwrap`s and `unreachable!`s assume.
- `Display` for `Literal` (src/entities/simple/literal.rs:59-79): Rust's formatter is not modelled. Two consequences:
  - The variable words take the printed form of the name literal as a `render` parameter.
  - Only the integer case appears, as `Literals.IntegerText`, to state the parse round trip.
- `Ident::execute`, `Statement::execute` and `Statement::parse` are not shown in the source. They are parameters:
  - the identifier step and the statement step go from one interpreter state to the next with a result;
  - the statement parser is a function on nodes.
  
  A step may change the stack, the variable map, the constants and the user words. It cannot change the variable records or the native table.
- Native-word dispatch: the words are modelled one by one. Looking them up by name and calling them (`execute`, `execute_line`, `clear_state`, `get_unary_operand`) is not part of the shown source.
- `src/literal.rs` and `src/entities/entities.rs`: an older `Literal` and an unfinished sketch, both superseded.
- The unused `words` map built in `ForthInterpreter::new` (src/lib.rs:47).
- `Interpreter.Arith`: integer overflow and a zero divisor panic in Rust. Here they are the precondition `ArithSafe`.
- `Interpreter.FetchVariable`: the `unwrap` of a declared but unset variable panics. Here it is the precondition `FetchDefined`.
- `Literals.ToBool`: the `unreachable!` for pointers, arrays and `Unknown` is a precondition.
- `Stacks.Stack.Get`, `Stacks.Stack.Swap` and `Stacks.Stack.Remove`: out-of-range indices panic in Rust. Here the indices are preconditions.
- `Arrays.Array.At` and `Arrays.Array.AssignAt`: the same applies to indexing.
- Machine-width integers:
  - Stack and array indices, sizes and capacities are unbounded naturals, not `usize`.
  - Literal integers are exactly the i64 range.
