/** The tables of native words (src/words/mod.rs): five groups, each a list
    of (name, procedure) entries, and the standard table that chains the
    groups in order and collects them into a map, where a later entry for a
    name replaces an earlier one. The table the interpreter's constructor
    builds (src/lib.rs:53-63) is here too, since it is composed the same way. */
module Words {

  /** The native procedures an entry can name. */
  datatype WordFn =
    | PrintTop | Emit | Cr
    | Add | Sub | Mul | Div | Mod | Negate | Abs | Max | Min
    | Equal | Greater | Less | Not | And | Or | Invert
    | Dup | Drop | Swap | Over | Rot | FetchVariable
    | StoreVariable | Cells | Allot

  type Entry = (string, WordFn)

  function IOWords(): seq<Entry> {
    [(".", PrintTop), ("emit", Emit), ("cr", Cr)]
  }

  function MathWords(): seq<Entry> {
    [("+", Add), ("-", Sub), ("*", Mul), ("/", Div), ("mod", Mod),
     ("negate", Negate), ("abs", Abs), ("max", Max), ("min", Min)]
  }

  function LogicWords(): seq<Entry> {
    [("=", Equal), (">", Greater), ("<", Less), ("!", Not), ("and", And), ("or", Or)]
  }

  function StackWords(): seq<Entry> {
    [("dup", Dup), ("drop", Drop), ("swap", Swap), ("over", Over), ("rot", Rot), ("@", FetchVariable)]
  }

  function OtherWords(): seq<Entry> {
    [("!", StoreVariable), ("cells", Cells), ("allot", Allot)]
  }

  /** The names a list of entries mentions. */
  function Names(entries: seq<Entry>): set<string> {
    set i | 0 <= i < |entries| :: entries[i].0
  }

  /** Whether no entry after position `i` has the same name as entry `i`. */
  predicate LastFor(entries: seq<Entry>, i: nat)
    requires i < |entries|
  {
    forall j | i < j < |entries| :: entries[j].0 != entries[i].0
  }

  /** `collect()` into a `HashMap`: the entries are inserted in order. */
  function Collect(entries: seq<Entry>): map<string, WordFn> {
    if entries == [] then map[]
    else Collect(entries[..|entries| - 1])[entries[|entries| - 1].0 := entries[|entries| - 1].1]
  }

  /** The collected map has exactly the names of the entries. */
  lemma {:induction false} CollectKeys(entries: seq<Entry>)
    ensures Collect(entries).Keys == Names(entries)
  {
    if entries != [] {
      var init := entries[..|entries| - 1];
      CollectKeys(init);
      NamesOfConcat(init, [entries[|entries| - 1]]);
      assert init + [entries[|entries| - 1]] == entries;
    }
  }

  /** Later entries win: a name maps to the procedure of its last entry. */
  lemma {:induction false} CollectLastWins(entries: seq<Entry>, i: nat)
    requires i < |entries| && LastFor(entries, i)
    ensures entries[i].0 in Collect(entries)
    ensures Collect(entries)[entries[i].0] == entries[i].1
  {
    if i < |entries| - 1 {
      var init := entries[..|entries| - 1];
      assert init[i] == entries[i];
      assert LastFor(init, i);
      CollectLastWins(init, i);
    }
  }

  /** The five groups, chained in the order `StandardWords` chains them. */
  function StandardEntries(): seq<Entry> {
    IOWords() + MathWords() + LogicWords() + StackWords() + OtherWords()
  }

  /** `StandardWords::get_words`. */
  function StandardWords(): map<string, WordFn> {
    Collect(StandardEntries())
  }

  /** The names of a concatenation are the union of the names. */
  lemma NamesOfConcat(xs: seq<Entry>, ys: seq<Entry>)
    ensures Names(xs + ys) == Names(xs) + Names(ys)
  {
    forall n | n in Names(xs) ensures n in Names(xs + ys) {
      var i :| 0 <= i < |xs| && xs[i].0 == n;
      assert (xs + ys)[i] == xs[i];
    }
    forall n | n in Names(ys) ensures n in Names(xs + ys) {
      var i :| 0 <= i < |ys| && ys[i].0 == n;
      assert (xs + ys)[|xs| + i] == ys[i];
    }
  }

  /** What each group contributes. */
  lemma GroupNames()
    ensures Names(IOWords()) == {".", "emit", "cr"}
    ensures Names(MathWords()) == {"+", "-", "*", "/", "mod", "negate", "abs", "max", "min"}
    ensures Names(LogicWords()) == {"=", ">", "<", "!", "and", "or"}
    ensures Names(StackWords()) == {"dup", "drop", "swap", "over", "rot", "@"}
    ensures Names(OtherWords()) == {"!", "cells", "allot"}
  {
    assert IOWords()[0].0 == "." && IOWords()[1].0 == "emit" && IOWords()[2].0 == "cr";
    assert MathWords()[0].0 == "+" && MathWords()[1].0 == "-" && MathWords()[2].0 == "*";
    assert MathWords()[3].0 == "/" && MathWords()[4].0 == "mod" && MathWords()[5].0 == "negate";
    assert MathWords()[6].0 == "abs" && MathWords()[7].0 == "max" && MathWords()[8].0 == "min";
    assert LogicWords()[0].0 == "=" && LogicWords()[1].0 == ">" && LogicWords()[2].0 == "<";
    assert LogicWords()[3].0 == "!" && LogicWords()[4].0 == "and" && LogicWords()[5].0 == "or";
    assert StackWords()[0].0 == "dup" && StackWords()[1].0 == "drop" && StackWords()[2].0 == "swap";
    assert StackWords()[3].0 == "over" && StackWords()[4].0 == "rot" && StackWords()[5].0 == "@";
    assert OtherWords()[0].0 == "!" && OtherWords()[1].0 == "cells" && OtherWords()[2].0 == "allot";
  }

  /** The standard table's names are the union of the five groups' names. */
  lemma StandardWordsKeys()
    ensures StandardWords().Keys ==
      Names(IOWords()) + Names(MathWords()) + Names(LogicWords()) + Names(StackWords()) + Names(OtherWords())
  {
    CollectKeys(StandardEntries());
    NamesOfConcat(IOWords(), MathWords());
    NamesOfConcat(IOWords() + MathWords(), LogicWords());
    NamesOfConcat(IOWords() + MathWords() + LogicWords(), StackWords());
    NamesOfConcat(IOWords() + MathWords() + LogicWords() + StackWords(), OtherWords());
  }

  /** `!` is both the logic group's `not` and the other group's
      `store_variable`; the other group comes last, so the standard table
      maps `!` to `store_variable`. */
  lemma BangIsStoreVariable()
    ensures ("!", Not) in LogicWords() && ("!", StoreVariable) in OtherWords()
    ensures "!" in StandardWords() && StandardWords()["!"] == StoreVariable
  {
    var e := StandardEntries();
    assert |e| == 27;
    assert e[24] == ("!", StoreVariable);
    assert LastFor(e, 24);
    CollectLastWins(e, 24);
  }

  /** The 26 distinct names of the standard table. */
  function StandardNames(): set<string> {
    {".", "emit", "cr", "+", "-", "*", "/", "mod", "negate", "abs", "max", "min",
     "=", ">", "<", "!", "and", "or", "dup", "drop", "swap", "over", "rot", "@",
     "cells", "allot"}
  }

  lemma StandardWordsNames()
    ensures StandardWords().Keys == StandardNames()
  {
    StandardWordsKeys();
    GroupNames();
  }

  /** A set of names all of length `n`. */
  predicate AllOfLength(names: set<string>, n: nat) {
    forall s | s in names :: |s| == n
  }

  /** Adding names longer than all the existing ones adds their number. */
  lemma AddLongerNames(shorter: set<string>, names: set<string>, n: nat)
    requires forall s | s in shorter :: |s| < n
    requires AllOfLength(names, n)
    ensures |shorter + names| == |shorter| + |names|
    ensures forall s | s in shorter + names :: |s| < n + 1
  {
    assert shorter * names == {};
  }

  // The standard names grouped by length, for counting them.
  function StandardLength1(): set<string> { {".", "+", "-", "*", "/", "=", ">", "<", "!", "@"} }
  function StandardLength2(): set<string> { {"cr", "or"} }
  function StandardLength3(): set<string> { {"mod", "abs", "max", "min", "and", "dup", "rot"} }
  function StandardLength4(): set<string> { {"emit", "drop", "swap", "over"} }
  function StandardLength5(): set<string> { {"cells", "allot"} }
  function StandardLength6(): set<string> { {"negate"} }

  lemma StandardSymbolCount()
    ensures |StandardLength1()| == 10 && AllOfLength(StandardLength1(), 1)
  {}

  lemma StandardNamesGroupSizes()
    ensures |StandardLength2()| == 2 && AllOfLength(StandardLength2(), 2)
    ensures |StandardLength3()| == 7 && AllOfLength(StandardLength3(), 3)
    ensures |StandardLength4()| == 4 && AllOfLength(StandardLength4(), 4)
    ensures |StandardLength5()| == 2 && AllOfLength(StandardLength5(), 5)
    ensures |StandardLength6()| == 1 && AllOfLength(StandardLength6(), 6)
  {}

  lemma StandardNamesByLength()
    ensures StandardNames() == StandardLength1() + StandardLength2() + StandardLength3()
      + StandardLength4() + StandardLength5() + StandardLength6()
  {}

  lemma StandardNamesCount()
    ensures |StandardNames()| == 26
  {
    StandardSymbolCount();
    StandardNamesGroupSizes();
    StandardNamesByLength();
    var g1, g2, g3 := StandardLength1(), StandardLength2(), StandardLength3();
    var g4, g5, g6 := StandardLength4(), StandardLength5(), StandardLength6();
    AddLongerNames(g1, g2, 2);
    AddLongerNames(g1 + g2, g3, 3);
    AddLongerNames(g1 + g2 + g3, g4, 4);
    AddLongerNames(g1 + g2 + g3 + g4, g5, 5);
    AddLongerNames(g1 + g2 + g3 + g4 + g5, g6, 6);
  }

  /** 27 entries, 26 distinct names: `!` is the only name listed twice. */
  lemma StandardWordsSize()
    ensures |StandardEntries()| == 27
    ensures |StandardWords()| == 26
  {
    StandardWordsNames();
    StandardNamesCount();
    assert |StandardWords()| == |StandardWords().Keys|;
  }

  /** The table `ForthInterpreter::new` installs (src/lib.rs:53-63). */
  function InterpreterEntries(): seq<Entry> {
    [("+", Add), ("-", Sub), ("*", Mul), ("/", Div), ("dup", Dup), ("drop", Drop),
     ("swap", Swap), ("over", Over), ("rot", Rot), (".", PrintTop), ("emit", Emit), ("cr", Cr),
     ("=", Equal), ("<", Less), (">", Greater), ("invert", Invert), ("and", And), ("or", Or)]
  }

  function InterpreterWords(): map<string, WordFn> {
    Collect(InterpreterEntries())
  }

  // The interpreter table's names grouped by length, for counting them.
  function InterpreterLength1(): set<string> { {"+", "-", "*", "/", ".", "=", "<", ">"} }
  function InterpreterLength2(): set<string> { {"cr", "or"} }
  function InterpreterLength3(): set<string> { {"dup", "rot", "and"} }
  function InterpreterLength4(): set<string> { {"drop", "swap", "over", "emit"} }
  function InterpreterLength6(): set<string> { {"invert"} }

  lemma InterpreterNamesGroupSizes()
    ensures |InterpreterLength1()| == 8 && AllOfLength(InterpreterLength1(), 1)
    ensures |InterpreterLength2()| == 2 && AllOfLength(InterpreterLength2(), 2)
    ensures |InterpreterLength3()| == 3 && AllOfLength(InterpreterLength3(), 3)
    ensures |InterpreterLength4()| == 4 && AllOfLength(InterpreterLength4(), 4)
    ensures |InterpreterLength6()| == 1 && AllOfLength(InterpreterLength6(), 6)
  {}

  lemma InterpreterNames()
    ensures Names(InterpreterEntries()) == InterpreterLength1() + InterpreterLength2()
      + InterpreterLength3() + InterpreterLength4() + InterpreterLength6()
  {
    var e := InterpreterEntries();
    assert e[0].0 == "+" && e[1].0 == "-" && e[2].0 == "*" && e[3].0 == "/";
    assert e[4].0 == "dup" && e[5].0 == "drop" && e[6].0 == "swap" && e[7].0 == "over";
    assert e[8].0 == "rot" && e[9].0 == "." && e[10].0 == "emit" && e[11].0 == "cr";
    assert e[12].0 == "=" && e[13].0 == "<" && e[14].0 == ">" && e[15].0 == "invert";
    assert e[16].0 == "and" && e[17].0 == "or";
  }

  lemma InterpreterNamesCount()
    ensures |InterpreterWords()| == 18
  {
    CollectKeys(InterpreterEntries());
    InterpreterNames();
    InterpreterNamesGroupSizes();
    var g1, g2, g3 := InterpreterLength1(), InterpreterLength2(), InterpreterLength3();
    var g4, g6 := InterpreterLength4(), InterpreterLength6();
    AddLongerNames(g1, g2, 2);
    AddLongerNames(g1 + g2, g3, 3);
    AddLongerNames(g1 + g2 + g3, g4, 4);
    AddLongerNames(g1 + g2 + g3 + g4, g6, 6);
    assert |InterpreterWords()| == |InterpreterWords().Keys|;
  }

  lemma InterpreterSymbolsExclude()
    ensures "!" !in InterpreterLength1() && "@" !in InterpreterLength1()
  {}

  lemma InterpreterWordsMissing()
    ensures "!" !in InterpreterWords() && "@" !in InterpreterWords() && "variable" !in InterpreterWords()
  {
    var g1, g2, g3 := InterpreterLength1(), InterpreterLength2(), InterpreterLength3();
    var g4, g6 := InterpreterLength4(), InterpreterLength6();
    CollectKeys(InterpreterEntries());
    InterpreterNames();
    InterpreterNamesGroupSizes();
    assert InterpreterWords().Keys == g1 + g2 + g3 + g4 + g6;
    InterpreterSymbolsExclude();
    assert forall s | s in g2 + g3 + g4 + g6 :: |s| > 1;
  }

  /** The interpreter's own table has 18 names, maps `invert` and `<` to the
      interpreter's `invert` and `less_than`, and has none of the variable
      words `!`, `@` and `variable`. */
  lemma InterpreterWordsContents()
    ensures |InterpreterWords()| == 18
    ensures "invert" in InterpreterWords() && InterpreterWords()["invert"] == Invert
    ensures "<" in InterpreterWords() && InterpreterWords()["<"] == Less
    ensures "!" !in InterpreterWords() && "@" !in InterpreterWords() && "variable" !in InterpreterWords()
  {
    var e := InterpreterEntries();
    assert e[15] == ("invert", Invert) && LastFor(e, 15);
    assert e[13] == ("<", Less) && LastFor(e, 13);
    CollectLastWins(e, 15);
    CollectLastWins(e, 13);
    InterpreterWordsMissing();
    InterpreterNamesCount();
  }
}
