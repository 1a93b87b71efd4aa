/** Reading the compiled text back as tokens. */
module FilterLexing {
  import opened Prelude
  import opened Text
  import opened SqlLexer
  import opened SqlGrammar
  import opened FilterCompiler

  function CastTokens(fn: string, x: Token, ty: string, rest: seq<Token>): seq<Token> {
    [Word(fn)] + ([Sym("(")] + ([x] + ([Word("as")] + ([Word(ty)] + ([Sym(")")] + rest)))))
  }

  function MarkTokens(n: nat): seq<Token>
    requires n >= 1
  {
    if n == 1 then [Sym("?")] + [Sym(")")] else [Sym("?")] + ([Sym(",")] + MarkTokens(n - 1))
  }

  function ShapeTokens(l: Leaf): seq<Token>
    requires GoodLeaf(l)
  {
    var col := [Word(l.col)];
    match l.shape
    case Compare(op) => col + ([Sym(op)] + [Sym("?")])
    case InList => col + ([Word("in")] + ([Sym("(")] + MarkTokens(|l.args|)))
    case Call(fn, false) => [Word(fn)] + ([Sym("(")] + (col + ([Sym(",")] + ([Sym("?")] + [Sym(")")]))))
    case Call(fn, true) =>
      [Word(fn)] + ([Sym("(")] + CastTokens("cast", Word(l.col), "varchar",
        [Sym(",")] + CastTokens("cast", Sym("?"), "varchar", [Sym(")")])))
    case NullTest(false) => col + ([Word("is")] + [Word("null")])
    case NullTest(true) => col + ([Word("is")] + ([Word("not")] + [Word("null")]))
    case CompareTime(op) =>
      CastTokens("try_cast", Word(l.col), "timestamp", [Sym(op)] + CastTokens("try_cast", Sym("?"), "timestamp", []))
  }

  function LeafTokens(l: Leaf): seq<Token>
    requires GoodLeaf(l)
  {
    if l.negated then [Word("not")] + ShapeTokens(l) else ShapeTokens(l)
  }

  function LogicToken(isOr: bool): Token { Word(if isOr then "or" else "and") }

  function PlanTokens(p: Plan): seq<Token>
    requires GoodPlan(p)
    decreases p
  {
    match p
    case Condition(l) => LeafTokens(l)
    case Group(isOr, parts) => [Sym("(")] + (PartTokens(isOr, parts) + [Sym(")")])
  }

  /** The parts' tokens with the connective between them. */
  function PartTokens(isOr: bool, ps: seq<Plan>): seq<Token>
    requires ps != [] && GoodPlans(ps)
    decreases ps
  {
    if |ps| == 1 then PlanTokens(ps[0])
    else PlanTokens(ps[0]) + ([LogicToken(isOr)] + PartTokens(isOr, ps[1..]))
  }

  /** Text that reads as `ts` in front of `t`. The lemmas below build such facts from right to left. */
  predicate Reads(s: string, ts: seq<Token>, t: string) { Lex(s + t) == Prepend(ts, Lex(t)) }

  /** Text a word can be joined to without growing. */
  predicate Breaks(s: string) { s != "" && s[0] in {' ', '(', ')', ',', '\n'} }

  lemma ReadsNothing(t: string)
    ensures Reads("", [], t)
  {
    hide Lex;
    assert "" + t == t;
    if Lex(t).Some? { assert [] + Lex(t).value == Lex(t).value; }
  }

  lemma ReadsJoin(a: string, ta: seq<Token>, b: string, tb: seq<Token>, t: string)
    requires Reads(a, ta, b + t) && Reads(b, tb, t)
    ensures Reads(a + b, ta + tb, t)
  {
    hide Lex;
    assert (a + b) + t == a + (b + t);
    if Lex(t).Some? { assert ta + (tb + Lex(t).value) == (ta + tb) + Lex(t).value; }
  }

  lemma ReadsBlank(rest: string, ts: seq<Token>, t: string)
    requires Reads(rest, ts, t)
    ensures Reads(" " + rest, ts, t)
  {
    hide Lex;
    assert (" " + rest) + t == " " + (rest + t);
    LexBlank(" ", rest + t);
  }

  lemma ReadsSingle(c: string, rest: string, restT: seq<Token>, t: string)
    requires |c| == 1 && c[0] in SINGLES && Reads(rest, restT, t)
    ensures Reads(c + rest, [Sym(c)] + restT, t)
  {
    hide Lex;
    LexSingle(c, rest + t);
    ReadsJoin(c, [Sym(c)], rest, restT, t);
  }

  lemma ReadsWord(w: string, f: string, rest: string, restT: seq<Token>, t: string)
    requires w != "" && FoldsTo(w, f) && Breaks(rest) && Reads(rest, restT, t)
    ensures Reads(w + rest, [Word(f)] + restT, t)
  {
    hide Lex;
    LexWord(w, rest + t);
    ReadsJoin(w, [Word(f)], rest, restT, t);
  }

  lemma ReadsLastWord(w: string, f: string, t: string)
    requires w != "" && FoldsTo(w, f) && Apart(t)
    ensures Reads(w, [Word(f)], t)
  {
    LexWord(w, t);
  }

  lemma ReadsSign(op: string, rest: string, restT: seq<Token>, t: string)
    requires op in COMPARISONS && Reads(" " + rest, restT, t)
    ensures Reads(op + (" " + rest), [Sym(op)] + restT, t)
  {
    hide Lex;
    LexComparison(op, (" " + rest) + t);
    ReadsJoin(op, [Sym(op)], " " + rest, restT, t);
  }

  /** `w` is one word and the tokenizer folds it to `f`. */
  predicate FoldsTo(w: string, f: string) { AllWordChars(w) && Fold(w) == f }

  lemma {:induction false} FoldsJoin(a: string, fa: string, b: string, fb: string, w: string, f: string)
    requires FoldsTo(a, fa) && FoldsTo(b, fb) && w == a + b && f == fa + fb
    ensures FoldsTo(w, f)
    decreases |a|
  {
    if a == "" {
      assert w == b && f == fb;
    } else {
      assert w[1..] == a[1..] + b && f[1..] == fa[1..] + fb;
      FoldsJoin(a[1..], fa[1..], b, fb, w[1..], f[1..]);
    }
  }

  /** The fixed words of the emitted text. */
  lemma FixedWords()
    ensures FoldsTo("AND", "and") && FoldsTo("OR", "or") && FoldsTo("NOT", "not") && FoldsTo("IN", "in")
    ensures FoldsTo("IS", "is") && FoldsTo("NULL", "null") && FoldsTo("AS", "as") && FoldsTo("CAST", "cast")
  {
    assert FoldsTo("AND", "and");
    assert FoldsTo("NOT", "not");
    assert FoldsTo("NULL", "null");
    assert FoldsTo("CAST", "cast");
  }

  lemma VarcharWord()
    ensures FoldsTo("VARCHAR", "varchar")
  {
    assert FoldsTo("VAR", "var") && FoldsTo("CHAR", "char");
    FoldsJoin("VAR", "var", "CHAR", "char", "VARCHAR", "varchar");
  }

  lemma TimestampWord()
    ensures FoldsTo("TIMESTAMP", "timestamp")
  {
    assert FoldsTo("TIME", "time") && FoldsTo("STAMP", "stamp");
    FoldsJoin("TIME", "time", "STAMP", "stamp", "TIMESTAMP", "timestamp");
  }

  lemma TryCastWord()
    ensures FoldsTo("try_cast", "try_cast")
  {
    assert FoldsTo("try_", "try_") && FoldsTo("cast", "cast");
    FoldsJoin("try_", "try_", "cast", "cast", "try_cast", "try_cast");
  }

  lemma ContainsWord()
    ensures FoldsTo("contains", "contains")
  {
    assert FoldsTo("cont", "cont") && FoldsTo("ains", "ains");
    FoldsJoin("cont", "cont", "ains", "ains", "contains", "contains");
  }

  lemma StartsWithWord()
    ensures FoldsTo("starts_with", "starts_with")
  {
    assert FoldsTo("starts", "starts") && FoldsTo("_with", "_with");
    FoldsJoin("starts", "starts", "_with", "_with", "starts_with", "starts_with");
  }

  lemma EndsWithWord()
    ensures FoldsTo("ends_with", "ends_with")
  {
    assert FoldsTo("ends", "ends") && FoldsTo("_with", "_with");
    FoldsJoin("ends", "ends", "_with", "_with", "ends_with", "ends_with");
  }

  lemma RegexpWord()
    ensures FoldsTo("regexp_", "regexp_")
  {
    assert FoldsTo("rege", "rege") && FoldsTo("xp_", "xp_");
    FoldsJoin("rege", "rege", "xp_", "xp_", "regexp_", "regexp_");
  }

  lemma MatchesWord()
    ensures FoldsTo("matches", "matches")
  {
    assert FoldsTo("matc", "matc") && FoldsTo("hes", "hes");
    FoldsJoin("matc", "matc", "hes", "hes", "matches", "matches");
  }

  lemma RegexpMatchesWord()
    ensures FoldsTo("regexp_matches", "regexp_matches")
  {
    hide FoldsTo;
    RegexpWord();
    MatchesWord();
    FoldsJoin("regexp_", "regexp_", "matches", "matches", "regexp_matches", "regexp_matches");
  }

  lemma CallWords(fn: string)
    requires fn in CASTED_CALLS || fn in PLAIN_CALLS
    ensures fn != "" && FoldsTo(fn, fn)
  {
    hide FoldsTo;
    ContainsWord();
    StartsWithWord();
    EndsWithWord();
    RegexpMatchesWord();
  }

  lemma ReadsOne(c: string, t: string)
    requires |c| == 1 && c[0] in SINGLES
    ensures Reads(c, [Sym(c)], t)
  {
    LexSingle(c, t);
  }

  /** `fn(x AS ty)` in front of `rest`, where the caller has read `x` before what follows it. */
  lemma ReadsCast(fn: string, x: string, xt: Token, ty: string, fty: string, ffn: string, rest: string, restT: seq<Token>, t: string)
    requires fn != "" && FoldsTo(fn, ffn) && ty != "" && FoldsTo(ty, fty) && Reads(rest, restT, t)
    requires Reads(x, [xt], (" " + ("AS" + (" " + (ty + (")" + rest))))) + t)
    ensures Reads(CastText(fn, x, ty, rest), CastTokens(ffn, xt, fty, restT), t)
  {
    hide Lex, Reads, FoldsTo;
    FixedWords();
    ReadsSingle(")", rest, restT, t);
    ReadsWord(ty, fty, ")" + rest, [Sym(")")] + restT, t);
    ReadsBlank(ty + (")" + rest), [Word(fty)] + ([Sym(")")] + restT), t);
    var tail, tailT := " " + (ty + (")" + rest)), [Word(fty)] + ([Sym(")")] + restT);
    ReadsWord("AS", "as", tail, tailT, t);
    ReadsBlank("AS" + tail, [Word("as")] + tailT, t);
    ReadsJoin(x, [xt], " " + ("AS" + tail), [Word("as")] + tailT, t);
    var arg, argT := x + (" " + ("AS" + tail)), [xt] + ([Word("as")] + tailT);
    ReadsSingle("(", arg, argT, t);
    ReadsWord(fn, ffn, "(" + arg, [Sym("(")] + argT, t);
  }

  lemma ReadsCastColumn(fn: string, ffn: string, col: string, ty: string, fty: string, rest: string, restT: seq<Token>, t: string)
    requires fn != "" && FoldsTo(fn, ffn) && ty != "" && FoldsTo(ty, fty) && IsIdentifier(col) && Reads(rest, restT, t)
    ensures Reads(CastText(fn, col, ty, rest), CastTokens(ffn, Word(col), fty, restT), t)
  {
    hide Lex;
    var after := (" " + ("AS" + (" " + (ty + (")" + rest))))) + t;
    LexWord(col, after);
    ReadsCast(fn, col, Word(col), ty, fty, ffn, rest, restT, t);
  }

  lemma ReadsCastMark(fn: string, ffn: string, ty: string, fty: string, rest: string, restT: seq<Token>, t: string)
    requires fn != "" && FoldsTo(fn, ffn) && ty != "" && FoldsTo(ty, fty) && Reads(rest, restT, t)
    ensures Reads(CastText(fn, "?", ty, rest), CastTokens(ffn, Sym("?"), fty, restT), t)
  {
    hide Lex, Reads, FoldsTo;
    ReadsOne("?", (" " + ("AS" + (" " + (ty + (")" + rest))))) + t);
    ReadsCast(fn, "?", Sym("?"), ty, fty, ffn, rest, restT, t);
  }

  lemma {:induction false} ReadsMarks(n: nat, t: string)
    requires n >= 1
    ensures Reads(MarksText(n), MarkTokens(n), t)
  {
    hide Lex, Reads;
    if n == 1 {
      ReadsOne(")", t);
      ReadsSingle("?", ")", [Sym(")")], t);
    } else {
      var rest, restT := MarksText(n - 1), MarkTokens(n - 1);
      ReadsMarks(n - 1, t);
      ReadsBlank(rest, restT, t);
      ReadsSingle(",", " " + rest, restT, t);
      ReadsSingle("?", "," + (" " + rest), [Sym(",")] + restT, t);
    }
  }

  lemma ReadsNullTest(l: Leaf, t: string)
    requires GoodLeaf(l) && l.shape.NullTest? && Apart(t)
    ensures Reads(ShapeText(l), ShapeTokens(l), t)
  {
    hide Lex, Reads, Apart, AllWordChars, Fold;
    FixedWords();
    ReadsLastWord("NULL", "null", t);
    ReadsBlank("NULL", [Word("null")], t);
    if l.shape.negated {
      ReadsWord("NOT", "not", " " + "NULL", [Word("null")], t);
      ReadsBlank("NOT" + (" " + "NULL"), [Word("not")] + [Word("null")], t);
      var tail, tailT := " " + ("NOT" + (" " + "NULL")), [Word("not")] + [Word("null")];
      ReadsWord("IS", "is", tail, tailT, t);
      ReadsBlank("IS" + tail, [Word("is")] + tailT, t);
      ReadsWord(l.col, l.col, " " + ("IS" + tail), [Word("is")] + tailT, t);
    } else {
      ReadsWord("IS", "is", " " + "NULL", [Word("null")], t);
      ReadsBlank("IS" + (" " + "NULL"), [Word("is")] + [Word("null")], t);
      ReadsWord(l.col, l.col, " " + ("IS" + (" " + "NULL")), [Word("is")] + [Word("null")], t);
    }
  }

  lemma ReadsCall(l: Leaf, t: string)
    requires GoodLeaf(l) && l.shape.Call?
    ensures Reads(ShapeText(l), ShapeTokens(l), t)
  {
    hide Lex, Reads, CastText, CastTokens, AllWordChars, Fold;
    var fn := l.shape.fn;
    CallWords(fn);
    ReadsOne(")", t);
    if l.shape.casted {
      FixedWords();
      VarcharWord();
      var mark, markT := CastText("CAST", "?", "VARCHAR", ")"), CastTokens("cast", Sym("?"), "varchar", [Sym(")")]);
      ReadsCastMark("CAST", "cast", "VARCHAR", "varchar", ")", [Sym(")")], t);
      ReadsBlank(mark, markT, t);
      ReadsSingle(",", " " + mark, markT, t);
      var tail, tailT := "," + (" " + mark), [Sym(",")] + markT;
      ReadsCastColumn("CAST", "cast", l.col, "VARCHAR", "varchar", tail, tailT, t);
      var arg, argT := CastText("CAST", l.col, "VARCHAR", tail), CastTokens("cast", Word(l.col), "varchar", tailT);
      ReadsSingle("(", arg, argT, t);
      ReadsWord(fn, fn, "(" + arg, [Sym("(")] + argT, t);
    } else {
      ReadsSingle("?", ")", [Sym(")")], t);
      ReadsBlank("?" + ")", [Sym("?")] + [Sym(")")], t);
      ReadsSingle(",", " " + ("?" + ")"), [Sym("?")] + [Sym(")")], t);
      var tail, tailT := "," + (" " + ("?" + ")")), [Sym(",")] + ([Sym("?")] + [Sym(")")]);
      ReadsWord(l.col, l.col, tail, tailT, t);
      ReadsSingle("(", l.col + tail, [Word(l.col)] + tailT, t);
      ReadsWord(fn, fn, "(" + (l.col + tail), [Sym("(")] + ([Word(l.col)] + tailT), t);
    }
  }

  lemma ReadsTimeComparison(l: Leaf, t: string)
    requires GoodLeaf(l) && l.shape.CompareTime?
    ensures Reads(ShapeText(l), ShapeTokens(l), t)
  {
    hide Lex, Reads, CastText, CastTokens, FoldsTo;
    TimestampWord();
    TryCastWord();
    var mark, markT := CastText("try_cast", "?", "TIMESTAMP", ""), CastTokens("try_cast", Sym("?"), "timestamp", []);
    ReadsNothing(t);
    ReadsCastMark("try_cast", "try_cast", "TIMESTAMP", "timestamp", "", [], t);
    ReadsBlank(mark, markT, t);
    ReadsSign(l.shape.op, mark, markT, t);
    ReadsBlank(l.shape.op + (" " + mark), [Sym(l.shape.op)] + markT, t);
    ReadsCastColumn("try_cast", "try_cast", l.col, "TIMESTAMP", "timestamp",
                    " " + (l.shape.op + (" " + mark)), [Sym(l.shape.op)] + markT, t);
  }

  lemma ReadsInList(l: Leaf, t: string)
    requires GoodLeaf(l) && l.shape.InList?
    ensures Reads(ShapeText(l), ShapeTokens(l), t)
  {
    hide Lex, Reads, MarksText, MarkTokens, AllWordChars, Fold;
    FixedWords();
    var tail, tailT := MarksText(|l.args|), MarkTokens(|l.args|);
    ReadsMarks(|l.args|, t);
    ReadsSingle("(", tail, tailT, t);
    ReadsBlank("(" + tail, [Sym("(")] + tailT, t);
    ReadsWord("IN", "in", " " + ("(" + tail), [Sym("(")] + tailT, t);
    ReadsBlank("IN" + (" " + ("(" + tail)), [Word("in")] + ([Sym("(")] + tailT), t);
    ReadsWord(l.col, l.col, " " + ("IN" + (" " + ("(" + tail))), [Word("in")] + ([Sym("(")] + tailT), t);
  }

  lemma ReadsComparison(l: Leaf, t: string)
    requires GoodLeaf(l) && l.shape.Compare?
    ensures Reads(ShapeText(l), ShapeTokens(l), t)
  {
    hide Lex, Reads, AllWordChars, Fold;
    var op := l.shape.op;
    ReadsOne("?", t);
    ReadsBlank("?", [Sym("?")], t);
    ReadsSign(op, "?", [Sym("?")], t);
    ReadsBlank(op + (" " + "?"), [Sym(op)] + [Sym("?")], t);
    ReadsWord(l.col, l.col, " " + (op + (" " + "?")), [Sym(op)] + [Sym("?")], t);
  }

  lemma ReadsLeaf(l: Leaf, t: string)
    requires GoodLeaf(l) && Apart(t)
    ensures Reads(LeafText(l), LeafTokens(l), t)
  {
    hide Lex, Reads, ShapeText, ShapeTokens, AllWordChars, Fold;
    match l.shape {
      case Compare(_) => ReadsComparison(l, t);
      case InList => ReadsInList(l, t);
      case Call(_, _) => ReadsCall(l, t);
      case NullTest(_) => ReadsNullTest(l, t);
      case CompareTime(_) => ReadsTimeComparison(l, t);
    }
    if l.negated {
      FixedWords();
      ReadsBlank(ShapeText(l), ShapeTokens(l), t);
      ReadsWord("NOT", "not", " " + ShapeText(l), ShapeTokens(l), t);
    }
  }

  /** A compiled fragment reads as its tokens wherever it is spliced in. */
  lemma {:induction false} ReadsPlan(p: Plan, t: string)
    requires GoodPlan(p) && Apart(t)
    ensures Reads(PlanText(p), PlanTokens(p), t)
    decreases p
  {
    hide Lex, Reads, LeafText, LeafTokens, AllWordChars;
    match p
    case Condition(l) => ReadsLeaf(l, t);
    case Group(isOr, parts) =>
      ReadsOne(")", t);
      ReadsParts(isOr, parts, ")" + t);
      ReadsJoin(PartsText(isOr, parts), PartTokens(isOr, parts), ")", [Sym(")")], t);
      ReadsSingle("(", PartsText(isOr, parts) + ")", PartTokens(isOr, parts) + [Sym(")")], t);
  }

  lemma {:induction false} ReadsParts(isOr: bool, ps: seq<Plan>, t: string)
    requires ps != [] && GoodPlans(ps) && Apart(t)
    ensures Reads(PartsText(isOr, ps), PartTokens(isOr, ps), t)
    decreases ps
  {
    hide Lex, Reads, AllWordChars, Fold;
    if |ps| == 1 {
      ReadsPlan(ps[0], t);
    } else {
      var rest, restT := PartsText(isOr, ps[1..]), PartTokens(isOr, ps[1..]);
      ReadsParts(isOr, ps[1..], t);
      ReadsBlank(rest, restT, t);
      FixedWords();
      ReadsWord(LogicText(isOr), if isOr then "or" else "and", " " + rest, restT, t);
      var tail, tailT := LogicText(isOr) + (" " + rest), [LogicToken(isOr)] + restT;
      ReadsBlank(tail, tailT, t);
      ReadsPlan(ps[0], (" " + tail) + t);
      ReadsJoin(PlanText(ps[0]), PlanTokens(ps[0]), " " + tail, tailT, t);
    }
  }
}
