/** The runtime values of the interpreter (src/entities/simple/literal.rs):
    the `Literal` tagged union with its hand-written equality, its partial
    ordering and its boolean coercion, the `From` conversions, and building a
    literal from a parse-tree node. */
module Literals {
  import opened Int64
  import opened Errors
  import opened ParseTrees
  import DecimalParser

  /** An address in the variable store plus an offset
      (literal.rs:11-15). The field order decides the derived ordering. */
  datatype Pointer = Pointer(address: nat, offset: nat)

  /** The value an `Array` holds (src/entities/complex/array.rs:7-11), in
      field order: its storage, its logical size and its capacity. */
  datatype ArrayValue = ArrayValue(storage: seq<Literal>, size: nat, capacity: nat)

  /** literal.rs:30-39. */
  datatype Literal =
    | PointerLit(ptr: Pointer)
    | Integer(i: I64)
    | Str(s: string)
    | ArrayLit(arr: ArrayValue)
    | Unknown

  datatype Ordering = Less | Equal | Greater {
    function Reverse(): Ordering {
      match this
      case Less => Greater
      case Equal => Equal
      case Greater => Less
    }
  }

  function ReverseCmp(o: Option<Ordering>): Option<Ordering> {
    match o
    case None => None
    case Some(c) => Some(c.Reverse())
  }

  /** Which variant a literal is. */
  function Tag(l: Literal): nat {
    match l
    case PointerLit(_) => 0
    case Integer(_) => 1
    case Str(_) => 2
    case ArrayLit(_) => 3
    case Unknown => 4
  }

  /** `From<i64> for Literal` (literal.rs:161-165). */
  function FromInt(value: I64): (l: Literal)
    ensures l.Integer? && l.i == value
  {
    Integer(value)
  }

  /** `From<&str>` and `From<String> for Literal` (literal.rs:167-177). */
  function FromStr(value: string): (l: Literal)
    ensures l.Str? && l.s == value
  {
    Str(value)
  }

  /** The conversions keep their payload, and distinct payloads give literals
      that `PartialEq` tells apart. */
  lemma ConversionsKeepPayload(v: I64, w: I64, s: string, t: string)
    ensures FromInt(v).Integer? && FromInt(v).i == v
    ensures FromStr(s).Str? && FromStr(s).s == s
    ensures Eq(FromInt(v), FromInt(w)) <==> v == w
    ensures Eq(FromStr(s), FromStr(t)) <==> s == t
    ensures !Eq(FromInt(v), FromStr(s))
  {}

  // ---------------------------------------------------------------------
  // Equality (literal.rs:81-117, with the derived equality of Pointer and
  // of Array, and Vec's element-wise equality for the array storage)
  // ---------------------------------------------------------------------

  predicate Eq(a: Literal, b: Literal)
    ensures Eq(a, b) ==> Tag(a) == Tag(b)
    decreases a
  {
    match a
    case Integer(i) => b.Integer? && i == b.i
    case PointerLit(p) => b.PointerLit? && p == b.ptr
    case Str(s) => b.Str? && s == b.s
    case ArrayLit(x) => b.ArrayLit? && ArrayEq(x, b.arr)
    case Unknown => b.Unknown?
  }

  /** The derived `PartialEq` of `Array`: field by field. */
  predicate ArrayEq(x: ArrayValue, y: ArrayValue)
    decreases x
  {
    SeqEq(x.storage, y.storage) && x.size == y.size && x.capacity == y.capacity
  }

  /** `Vec<Literal>` equality: same length and pairwise `Eq`. */
  predicate SeqEq(xs: seq<Literal>, ys: seq<Literal>)
    decreases xs
  {
    if xs == [] || ys == [] then xs == ys
    else Eq(xs[0], ys[0]) && SeqEq(xs[1..], ys[1..])
  }

  /** `PartialEq` is exactly structural equality: the same variant with an
      equal payload, `Unknown == Unknown` included. */
  lemma {:induction false} EqIsEquality(a: Literal, b: Literal)
    ensures Eq(a, b) <==> a == b
    decreases a
  {
    if a.ArrayLit? && b.ArrayLit? {
      SeqEqIsEquality(a.arr.storage, b.arr.storage);
    }
  }

  lemma {:induction false} SeqEqIsEquality(xs: seq<Literal>, ys: seq<Literal>)
    ensures SeqEq(xs, ys) <==> xs == ys
    decreases xs
  {
    if xs != [] && ys != [] {
      EqIsEquality(xs[0], ys[0]);
      SeqEqIsEquality(xs[1..], ys[1..]);
      assert xs == [xs[0]] + xs[1..] && ys == [ys[0]] + ys[1..];
      if xs == ys {
        assert xs[0] == ys[0] && xs[1..] == ys[1..];
      }
    }
  }

  /** Literals of different variants are never equal; `Unknown` equals
      `Unknown`. */
  lemma EqualityByVariant(a: Literal, b: Literal)
    ensures Tag(a) != Tag(b) ==> !Eq(a, b)
    ensures Eq(Unknown, Unknown)
  {}

  // ---------------------------------------------------------------------
  // Ordering (literal.rs:119-158, with the derived orderings of Pointer and
  // Array and the lexicographic orderings of str and of slices)
  // ---------------------------------------------------------------------

  function IntCmp(i: int, j: int): Ordering {
    if i < j then Less else if i == j then Equal else Greater
  }

  /** Derived `PartialOrd` of `Pointer`: `address` first, then `offset`. */
  function PointerCmp(p: Pointer, q: Pointer): Ordering {
    match IntCmp(p.address, q.address)
    case Equal => IntCmp(p.offset, q.offset)
    case c => c
  }

  /** Ordering of Rust strings: byte-wise on UTF-8, which orders as the
      sequence of code points does. */
  function StringCmp(s: string, t: string): Ordering {
    if s == [] || t == [] then IntCmp(|s|, |t|)
    else if s[0] < t[0] then Less
    else if s[0] > t[0] then Greater
    else StringCmp(s[1..], t[1..])
  }

  function PartialCmp(a: Literal, b: Literal): (c: Option<Ordering>)
    ensures c.Some? ==> Tag(a) == Tag(b) && !a.Unknown?
    decreases a
  {
    match a
    case Integer(i) => if b.Integer? then Some(IntCmp(i, b.i)) else None
    case PointerLit(p) => if b.PointerLit? then Some(PointerCmp(p, b.ptr)) else None
    case Str(s) => if b.Str? then Some(StringCmp(s, b.s)) else None
    case ArrayLit(x) => if b.ArrayLit? then ArrayCmp(x, b.arr) else None
    case Unknown => None
  }

  /** Derived `PartialOrd` of `Array`: storage, then size, then capacity. */
  function ArrayCmp(x: ArrayValue, y: ArrayValue): Option<Ordering>
    decreases x
  {
    match SeqCmp(x.storage, y.storage)
    case Some(Equal) =>
      Some(match IntCmp(x.size, y.size) case Equal => IntCmp(x.capacity, y.capacity) case c => c)
    case c => c
  }

  /** Slice `partial_cmp`: the first element pair that is not `Equal`
      decides (an incomparable pair makes the slices incomparable); when one
      slice is a prefix of the other, the lengths decide. */
  function SeqCmp(xs: seq<Literal>, ys: seq<Literal>): Option<Ordering>
    decreases xs
  {
    if xs == [] || ys == [] then Some(IntCmp(|xs|, |ys|))
    else
      match PartialCmp(xs[0], ys[0])
      case Some(Equal) => SeqCmp(xs[1..], ys[1..])
      case c => c
  }

  /** `a < b` and `a > b` on literals. */
  predicate Lt(a: Literal, b: Literal) {
    PartialCmp(a, b) == Some(Less)
  }

  predicate Gt(a: Literal, b: Literal) {
    PartialCmp(a, b) == Some(Greater)
  }

  /** Literals of different variants are incomparable, and so is `Unknown`,
      even against itself. */
  lemma CmpUndefinedCases(a: Literal, b: Literal)
    ensures Tag(a) != Tag(b) ==> PartialCmp(a, b) == None
    ensures a.Unknown? || b.Unknown? ==> PartialCmp(a, b) == None
    ensures PartialCmp(Unknown, Unknown) == None && Eq(Unknown, Unknown)
  {}

  /** Integers compare in i64 order; pointers compare lexicographically on
      (address, offset). */
  lemma ScalarOrders(i: I64, j: I64, p: Pointer, q: Pointer)
    ensures Lt(Integer(i), Integer(j)) <==> i < j
    ensures Gt(Integer(i), Integer(j)) <==> i > j
    ensures PartialCmp(Integer(i), Integer(j)) == Some(Equal) <==> i == j
    ensures Lt(PointerLit(p), PointerLit(q)) <==>
      p.address < q.address || (p.address == q.address && p.offset < q.offset)
    ensures Gt(PointerLit(p), PointerLit(q)) <==>
      p.address > q.address || (p.address == q.address && p.offset > q.offset)
  {}

  /** `s` sorts before `t` in dictionary order: it is a proper prefix of `t`,
      or at the first position where they differ its character is smaller. */
  predicate LexLess(s: string, t: string) {
    || (|s| < |t| && s == t[..|s|])
    || exists k :: 0 <= k < |s| && k < |t| && s[..k] == t[..k] && s[k] < t[k]
  }

  /** String comparison is the dictionary order. */
  lemma {:induction false} StringCmpIsLexicographic(s: string, t: string)
    ensures StringCmp(s, t) == Less <==> LexLess(s, t)
    ensures StringCmp(s, t) == Equal <==> s == t
    ensures StringCmp(s, t) == Greater <==> LexLess(t, s)
  {
    if s == [] || t == [] {
      if s != [] { assert !LexLess(s, t); assert t == s[..|t|]; }
      if t != [] { assert !LexLess(t, s); assert s == t[..|s|]; }
    } else {
      StringCmpIsLexicographic(s[1..], t[1..]);
      LexLessCons(s, t);
      LexLessCons(t, s);
      if s[0] == t[0] {
        assert s == [s[0]] + s[1..] && t == [t[0]] + t[1..];
      }
    }
  }

  /** How `LexLess` unfolds over the first characters. */
  lemma LexLessCons(s: string, t: string)
    requires s != [] && t != []
    ensures LexLess(s, t) <==> s[0] < t[0] || (s[0] == t[0] && LexLess(s[1..], t[1..]))
  {
    if s[0] < t[0] {
      assert s[..0] == t[..0];
    } else if s[0] == t[0] {
      if LexLess(s, t) {
        if |s| < |t| && s == t[..|s|] {
          assert s[1..] == t[1..][..|s[1..]|];
        } else {
          var k :| 0 <= k < |s| && k < |t| && s[..k] == t[..k] && s[k] < t[k];
          assert k > 0;
          forall j | 0 <= j < k - 1
            ensures s[1..][j] == t[1..][j]
          {
            assert s[..k][j + 1] == t[..k][j + 1];
          }
          assert s[1..][..k - 1] == t[1..][..k - 1];
          assert s[1..][k - 1] < t[1..][k - 1];
        }
      }
      if LexLess(s[1..], t[1..]) {
        if |s[1..]| < |t[1..]| && s[1..] == t[1..][..|s[1..]|] {
          assert s == t[..|s|];
        } else {
          var k :| 0 <= k < |s[1..]| && k < |t[1..]| && s[1..][..k] == t[1..][..k] && s[1..][k] < t[1..][k];
          forall j | 0 <= j < k + 1
            ensures s[j] == t[j]
          {
            if j > 0 { assert s[1..][..k][j - 1] == t[1..][..k][j - 1]; }
          }
          assert s[..k + 1] == t[..k + 1];
          assert s[k + 1] < t[k + 1];
        }
      }
    }
  }

  /** Comparing in the other order reverses the answer; incomparable stays
      incomparable. */
  lemma {:induction false} PartialCmpAntisymmetric(a: Literal, b: Literal)
    ensures PartialCmp(b, a) == ReverseCmp(PartialCmp(a, b))
    decreases a
  {
    match a
    case Str(s) =>
      if b.Str? {
        StringCmpIsLexicographic(s, b.s);
        StringCmpIsLexicographic(b.s, s);
      }
    case ArrayLit(x) =>
      if b.ArrayLit? {
        SeqCmpAntisymmetric(x.storage, b.arr.storage);
      }
    case _ =>
  }

  lemma {:induction false} SeqCmpAntisymmetric(xs: seq<Literal>, ys: seq<Literal>)
    ensures SeqCmp(ys, xs) == ReverseCmp(SeqCmp(xs, ys))
    decreases xs
  {
    if xs != [] && ys != [] {
      PartialCmpAntisymmetric(xs[0], ys[0]);
      SeqCmpAntisymmetric(xs[1..], ys[1..]);
    }
  }

  /** Whether `Unknown` occurs in a literal, looking inside arrays. */
  predicate HasUnknown(a: Literal)
    decreases a
  {
    match a
    case Unknown => true
    case ArrayLit(x) => SeqHasUnknown(x.storage)
    case _ => false
  }

  predicate SeqHasUnknown(xs: seq<Literal>)
    decreases xs
  {
    xs != [] && (HasUnknown(xs[0]) || SeqHasUnknown(xs[1..]))
  }

  /** A literal compares `Equal` to itself exactly when no `Unknown` occurs in
      it; otherwise it is incomparable to itself although `Eq` holds. */
  lemma {:induction false} PartialCmpReflexive(a: Literal)
    ensures PartialCmp(a, a) == (if HasUnknown(a) then None else Some(Equal))
    decreases a
  {
    match a
    case Str(s) => StringCmpIsLexicographic(s, s);
    case ArrayLit(x) => SeqCmpReflexive(x.storage);
    case _ =>
  }

  lemma {:induction false} SeqCmpReflexive(xs: seq<Literal>)
    ensures SeqCmp(xs, xs) == (if SeqHasUnknown(xs) then None else Some(Equal))
    decreases xs
  {
    if xs != [] {
      PartialCmpReflexive(xs[0]);
      SeqCmpReflexive(xs[1..]);
    }
  }

  /** Comparing `Equal` implies equality. */
  lemma {:induction false} CmpEqualImpliesEqual(a: Literal, b: Literal)
    requires PartialCmp(a, b) == Some(Equal)
    ensures a == b
    decreases a
  {
    match a
    case Str(s) => StringCmpIsLexicographic(s, b.s);
    case ArrayLit(x) => SeqCmpEqualImpliesEqual(x.storage, b.arr.storage);
    case _ =>
  }

  lemma {:induction false} SeqCmpEqualImpliesEqual(xs: seq<Literal>, ys: seq<Literal>)
    requires SeqCmp(xs, ys) == Some(Equal)
    ensures xs == ys
    decreases xs
  {
    if xs != [] && ys != [] {
      CmpEqualImpliesEqual(xs[0], ys[0]);
      SeqCmpEqualImpliesEqual(xs[1..], ys[1..]);
      assert xs == [xs[0]] + xs[1..] && ys == [ys[0]] + ys[1..];
    }
  }

  // ---------------------------------------------------------------------
  // Boolean coercion (literal.rs:190-198; src/lib.rs:82-92 is the same)
  // ---------------------------------------------------------------------

  /** `Integer(-1)` is true, other integers false, strings true; coercing any
      other variant is `unreachable!()` in the source. */
  function ToBool(l: Literal): (b: bool)
    requires l.Integer? || l.Str?
    ensures b <==> l.Str? || Eq(l, Integer(-1))
  {
    match l
    case Integer(e) => e == -1
    case Str(_) => true
  }

  // ---------------------------------------------------------------------
  // Building from the parse tree (literal.rs:48-57)
  // ---------------------------------------------------------------------

  /** What `Literal::parse` needs of its node: a first child that is an
      integer whose text `str::parse::<i64>` accepts, or a string. */
  predicate ParsableLiteral(p: Pair) {
    && p.children != []
    && (p.children[0].rule == IntegerRule || p.children[0].rule == StringRule)
    && (p.children[0].rule == IntegerRule ==> DecimalParser.FromDecimal(p.children[0].text).Some?)
  }

  /** An integer child becomes `Integer` of its text's value; a string child
      becomes `Str` of its text, verbatim. */
  function Parse(p: Pair): (l: Literal)
    requires ParsableLiteral(p)
    ensures p.children[0].rule == StringRule ==> l == Str(p.children[0].text)
    ensures p.children[0].rule == IntegerRule ==> l == Integer(DecimalParser.FromDecimal(p.children[0].text).value)
  {
    var inner := p.children[0];
    match inner.rule
    case IntegerRule => Integer(DecimalParser.FromDecimal(inner.text).value)
    case StringRule => Str(inner.text)
  }

  /** How an `Integer` prints (literal.rs:62-64): an optional minus sign and
      the decimal digits of the magnitude. */
  function IntegerText(v: I64): string {
    if v < 0 then "-" + DecimalParser.DecimalString(-(v as int)) else DecimalParser.DecimalString(v)
  }

  /** Printing an integer and building a literal from that text gives the
      integer back, over the whole i64 range. */
  lemma ParseIntegerText(v: I64, children: seq<Pair>)
    ensures ParsableLiteral(Pair(LiteralRule, IntegerText(v), [Pair(IntegerRule, IntegerText(v), children)]))
    ensures Parse(Pair(LiteralRule, IntegerText(v), [Pair(IntegerRule, IntegerText(v), children)])) == Integer(v)
  {
    var t := IntegerText(v);
    var m: nat := if v < 0 then -(v as int) else v;
    DecimalParser.DecimalStringValue(m);
    if v < 0 {
      assert t[1..] == DecimalParser.DecimalString(m);
    }
  }
}
