/** The clauses of the historical query around its WHERE clause (internal/services/duckdb.go): their text, and what it
    reads as: the window, the group key, the aggregates, the threshold column, grouping and order. */
module SelectList {
  import opened Prelude
  import opened Text
  import opened SqlContext
  import opened SqlLexer
  import opened SqlGrammar
  import opened FilterCompiler
  import opened FilterLexing
  import FilterFields
  import HavingGuard
  import opened QueryAssembly
  import opened QuotedText

  const GAP := "\n        "
  const INDENT := "    "

  // ------------------------------------------------------------- the window

  function Digit(n: nat): char
    requires n < 10
  {
    (n + '0' as int) as char
  }

  /** `%d` of a natural number. */
  function Decimal(n: nat): (s: string)
    ensures Plain(s) && '\'' !in s
  {
    if n < 10 then [Digit(n)] else Decimal(n / 10) + [Digit(n % 10)]
  }

  /** The number a text of digits stands for. */
  function Number(s: string): int {
    if s == "" then 0 else Number(s[..|s| - 1]) * 10 + (s[|s| - 1] as int - '0' as int)
  }

  lemma {:induction false} DecimalIsNumber(n: nat)
    ensures Number(Decimal(n)) == n && forall i :: 0 <= i < |Decimal(n)| ==> IsAsciiDigit(Decimal(n)[i])
  {
    if n < 10 {
      assert Decimal(n)[..0] == "";
    } else {
      DecimalIsNumber(n / 10);
      var s := Decimal(n);
      assert s[..|s| - 1] == Decimal(n / 10);
    }
  }

  /** The window size in seconds, rounded down: of the rule's milliseconds or of five minutes, at least one second. */
  function WindowSeconds(sizeMs: Option<int>): (n: nat)
    ensures var ms := if sizeMs.Some? then sizeMs.value else 300 * 1000;
            && n >= 1 && (ms >= 1000 ==> n * 1000 <= ms < (n + 1) * 1000) && (ms < 1000 ==> n == 1)
  {
    var ms := if sizeMs.Some? then sizeMs.value else 300000;
    if ms / 1000 < 1 then 1 else ms / 1000
  }

  function SelectFront(): string { GAP + ("SELECT" + (GAP + (INDENT + ("time_bucket" + ("(" + ("INTERVAL" + " ")))))) }

  function Span(seconds: nat): string { "'" + (Decimal(seconds) + " seconds") + "'" }

  function WindowBack(): string {
    "," + (" " + CastText("try_cast", WINDOW_FIELD, "TIMESTAMP", ")" + (" " + ("as" + (" " + ("window_start" + ("," + (GAP + INDENT))))))))
  }

  function WindowTokens(): seq<Token> {
    [Sym(",")] + CastTokens("try_cast", Word("event_timestamp"), "timestamp", [Sym(")"), Word("as"), Word("window_start"), Sym(",")])
  }

  lemma SelectWords()
    ensures FoldsTo("SELECT", "select") && FoldsTo("as", "as")
  {
    assert FoldsTo("SELECT", "select");
  }

  lemma IntervalWord()
    ensures FoldsTo("INTERVAL", "interval")
  {
    assert FoldsTo("INTER", "inter") && FoldsTo("VAL", "val");
    FoldsJoin("INTER", "inter", "VAL", "val", "INTERVAL", "interval");
  }

  lemma BucketPart()
    ensures FoldsTo("bucket", "bucket")
  {
    assert FoldsTo("buck", "buck") && FoldsTo("et", "et");
    FoldsJoin("buck", "buck", "et", "et", "bucket", "bucket");
  }

  lemma TimeBucketWord()
    ensures FoldsTo("time_bucket", "time_bucket")
  {
    BucketPart();
    assert FoldsTo("time_", "time_");
    hide FoldsTo;
    FoldsJoin("time_", "time_", "bucket", "bucket", "time_bucket", "time_bucket");
  }

  lemma WindowStartWord()
    ensures FoldsTo("window_start", "window_start")
  {
    assert FoldsTo("window_", "window_");
    assert FoldsTo("start", "start");
    hide FoldsTo;
    FoldsJoin("window_", "window_", "start", "start", "window_start", "window_start");
  }

  lemma WindowWords()
    ensures FoldsTo("SELECT", "select") && FoldsTo("INTERVAL", "interval") && FoldsTo("as", "as")
    ensures FoldsTo("time_bucket", "time_bucket") && FoldsTo("window_start", "window_start")
  {
    hide FoldsTo;
    SelectWords();
    IntervalWord();
    TimeBucketWord();
    WindowStartWord();
  }

  lemma Indents()
    ensures Gap(GAP) && Gap(INDENT) && Gap(GAP + INDENT) && Breaks(GAP) && GAP[0] == '\n'
  {
  }

  lemma ReadsSpace(gap: string, t: string)
    requires Gap(gap)
    ensures Reads(gap, [], t)
  {
    hide Lex, Reads;
    ReadsNothing(t);
    ReadsGap(gap, "", [], t);
    assert gap + "" == gap;
  }

  lemma ReadsSelectFront(t: string)
    ensures Reads(SelectFront(), [Word("select"), Word("time_bucket"), Sym("("), Word("interval")], t)
  {
    hide Lex, Reads, FoldsTo, Gap;
    WindowWords();
    Indents();
    ReadsNothing(t);
    ReadsBlank("", [], t);
    assert " " + "" == " ";
    ReadsWord("INTERVAL", "interval", " ", [], t);
    var call, callT := "(" + ("INTERVAL" + " "), [Sym("(")] + ([Word("interval")] + []);
    ReadsSingle("(", "INTERVAL" + " ", [Word("interval")] + [], t);
    ReadsWord("time_bucket", "time_bucket", call, callT, t);
    var body, bodyT := "time_bucket" + call, [Word("time_bucket")] + callT;
    ReadsGap(INDENT, body, bodyT, t);
    ReadsGap(GAP, INDENT + body, bodyT, t);
    ReadsWord("SELECT", "select", GAP + (INDENT + body), bodyT, t);
    ReadsGap(GAP, "SELECT" + (GAP + (INDENT + body)), [Word("select")] + bodyT, t);
    assert [Word("select")] + bodyT == [Word("select"), Word("time_bucket"), Sym("("), Word("interval")];
  }

  lemma ReadsWindowBack(t: string)
    ensures Reads(WindowBack(), WindowTokens(), t)
  {
    hide Lex, Reads, FoldsTo, IsIdentifier, CastText, CastTokens, Gap;
    WindowWords();
    Indents();
    TryCastWord();
    TimestampWord();
    WindowFieldWord();
    ReadsSpace(GAP + INDENT, t);
    ReadsSingle(",", GAP + INDENT, [], t);
    ReadsWord("window_start", "window_start", "," + (GAP + INDENT), [Sym(",")] + [], t);
    var name, nameT := "window_start" + ("," + (GAP + INDENT)), [Word("window_start")] + ([Sym(",")] + []);
    ReadsSpaced("as", "as", name, nameT, t);
    ReadsBlank("as" + (" " + name), [Word("as")] + nameT, t);
    var alias, aliasT := " " + ("as" + (" " + name)), [Word("as")] + nameT;
    ReadsSingle(")", alias, aliasT, t);
    assert [Sym(")")] + aliasT == [Sym(")"), Word("as"), Word("window_start"), Sym(",")];
    ReadsCastColumn("try_cast", "try_cast", WINDOW_FIELD, "TIMESTAMP", "timestamp", ")" + alias, [Sym(")")] + aliasT, t);
    var cast := CastText("try_cast", WINDOW_FIELD, "TIMESTAMP", ")" + alias);
    var castT := CastTokens("try_cast", Word(WINDOW_FIELD), "timestamp", [Sym(")")] + aliasT);
    ReadsBlank(cast, castT, t);
    ReadsSingle(",", " " + cast, castT, t);
  }

  // ------------------------------------------------------------- the group key

  function Column(env: Env, field: string): (r: Option<string>)
    ensures r.Some? ==> IsIdentifier(r.value) && Plain(r.value)
  {
    ValidateIdentifier(env.uni, TranslateField(env, field))
  }

  /** A grouping or aggregation field stands for the same column as in a filter. */
  lemma ColumnOfField(env: Env, field: string, w: string)
    requires FilterFields.Names(env, field, w)
    ensures Column(env, field) == Some(w)
  {
    hide ValidateIdentifier, TranslateField, FilterFields.Names;
    FilterFields.FieldIsColumn(env, field, w);
  }

  predicate GoodColumns(cols: seq<string>) { forall i :: 0 <= i < |cols| ==> IsIdentifier(cols[i]) && Plain(cols[i]) }

  function KeyFront(col: string): string { "COALESCE" + ("(" + CastText("CAST", col, "VARCHAR", "," + " ")) }

  function KeyText(col: string): string { KeyFront(col) + ("'" + "N/A" + "'") + ")" }

  function KeyTexts(cols: seq<string>): (ts: seq<string>)
    ensures |ts| == |cols| && forall i :: 0 <= i < |cols| ==> ts[i] == KeyText(cols[i])
  {
    if cols == [] then [] else [KeyText(cols[0])] + KeyTexts(cols[1..])
  }

  function KeySeparator(): string { " || " + ("'" + "|" + "'") + " || " }

  function KeyAlias(): string { " " + ("as" + (" " + "groupKey")) }

  /** The group key: a constant for a global rule, otherwise the columns as text, a missing one as N/A. */
  function KeysText(cols: Option<seq<string>>): string {
    match cols
    case None => "'" + "__GLOBAL__" + "'" + KeyAlias()
    case Some(cs) => Join(KeyTexts(cs), KeySeparator()) + KeyAlias()
  }

  function KeyFrontTokens(col: string): seq<Token> {
    [Word("coalesce"), Sym("(")] + CastTokens("cast", Word(col), "varchar", [Sym(",")])
  }

  function KeyLexemes(col: string): seq<Lexeme> { Toks(KeyFrontTokens(col)) + [Quote("N/A")] + Toks([Sym(")")]) }

  function SeparatorLexemes(): seq<Lexeme> { Toks([Sym("||")]) + [Quote("|")] + Toks([Sym("||")]) }

  function ChainLexemes(cols: seq<string>): seq<Lexeme> {
    if cols == [] then []
    else if |cols| == 1 then KeyLexemes(cols[0])
    else KeyLexemes(cols[0]) + SeparatorLexemes() + ChainLexemes(cols[1..])
  }

  function KeysLexemes(cols: Option<seq<string>>): seq<Lexeme> {
    (match cols case None => [Quote("__GLOBAL__")] case Some(cs) => ChainLexemes(cs)) + Toks([Word("as"), Word("groupkey")])
  }

  lemma CoalesceWord()
    ensures FoldsTo("COALESCE", "coalesce")
  {
    assert FoldsTo("COAL", "coal") && FoldsTo("ESCE", "esce");
    FoldsJoin("COAL", "coal", "ESCE", "esce", "COALESCE", "coalesce");
  }

  lemma GroupKeyWord()
    ensures FoldsTo("groupKey", "groupkey")
  {
    assert FoldsTo("group", "group") && FoldsTo("Key", "key");
    FoldsJoin("group", "group", "Key", "key", "groupKey", "groupkey");
  }

  lemma ReadsKeyFront(col: string, t: string)
    requires IsIdentifier(col)
    ensures Reads(KeyFront(col), KeyFrontTokens(col), t)
  {
    hide Lex, Reads, FoldsTo, IsIdentifier, CastText, CastTokens;
    CoalesceWord();
    FixedWords();
    VarcharWord();
    ReadsNothing(t);
    ReadsBlank("", [], t);
    assert " " + "" == " ";
    ReadsSingle(",", " ", [], t);
    assert [Sym(",")] + [] == [Sym(",")];
    ReadsCastColumn("CAST", "cast", col, "VARCHAR", "varchar", "," + " ", [Sym(",")], t);
    var cast, castT := CastText("CAST", col, "VARCHAR", "," + " "), CastTokens("cast", Word(col), "varchar", [Sym(",")]);
    ReadsSingle("(", cast, castT, t);
    ReadsWord("COALESCE", "coalesce", "(" + cast, [Sym("(")] + castT, t);
    assert [Word("coalesce")] + ([Sym("(")] + castT) == [Word("coalesce"), Sym("(")] + castT;
  }

  lemma SaysKey(col: string, t: string)
    requires IsIdentifier(col) && Plain(col)
    ensures Says(KeyText(col), KeyLexemes(col), t) && Plain(KeyText(col))
  {
    hide Lex, Reads, Lexemes, Says, IsIdentifier, KeyFront, KeyFrontTokens, Toks, Front;
    var front, na := KeyFront(col), "'" + "N/A" + "'";
    ReadsKeyFront(col, "");
    KeyFrontPlain(col);
    ReadsIsCalm(front, KeyFrontTokens(col));
    ReadsKeyFront(col, Front(na + (")" + t)));
    SaysCode(front, KeyFrontTokens(col), na + (")" + t));
    SaysQuote("N/A", ")" + t);
    SaysJoin(front, Toks(KeyFrontTokens(col)), na, [Quote("N/A")], ")" + t);
    ReadsOne(")", Front(t));
    SaysCode(")", [Sym(")")], t);
    SaysJoin(front + na, Toks(KeyFrontTokens(col)) + [Quote("N/A")], ")", Toks([Sym(")")]), t);
  }

  lemma KeyFrontPlain(col: string)
    ensures Sym("?") !in KeyFrontTokens(col)
  {
  }

  lemma SaysBars(t: string)
    ensures Says(" || ", Toks([Sym("||")]), t)
  {
    hide Lex, Reads, Lexemes, Says, Front;
    assert " || " == " " + ("||" + " ");
    ReadsSpace(" ", Front(t));
    ReadsBars(" ", [], Front(t));
    ReadsBlank("||" + " ", [Sym("||")] + [], Front(t));
    assert [Sym("||")] + [] == [Sym("||")];
    SaysCode(" || ", [Sym("||")], t);
  }

  lemma ReadsBars(rest: string, restT: seq<Token>, t: string)
    requires Reads(rest, restT, t)
    ensures Reads("||" + rest, [Sym("||")] + restT, t)
  {
    hide Lex;
    LexBars(rest + t);
    ReadsJoin("||", [Sym("||")], rest, restT, t);
  }

  lemma SaysSeparator(t: string)
    ensures Says(KeySeparator(), SeparatorLexemes(), t)
  {
    hide Lexemes, Says, Toks;
    var bar := "'" + "|" + "'";
    SaysBars(bar + (" || " + t));
    SaysQuote("|", " || " + t);
    SaysJoin(" || ", Toks([Sym("||")]), bar, [Quote("|")], " || " + t);
    SaysBars(t);
    SaysJoin(" || " + bar, Toks([Sym("||")]) + [Quote("|")], " || ", Toks([Sym("||")]), t);
  }

  lemma SaysNothing(t: string)
    ensures Says("", [], t)
  {
    hide Lexemes;
    assert "" + t == t;
    if Lexemes(t).Some? { assert [] + Lexemes(t).value == Lexemes(t).value; }
  }

  lemma {:induction false} SaysChain(cols: seq<string>, t: string)
    requires GoodColumns(cols)
    ensures Says(Join(KeyTexts(cols), KeySeparator()), ChainLexemes(cols), t) && Plain(Join(KeyTexts(cols), KeySeparator()))
  {
    hide Lexemes, Says, KeyText, KeyLexemes, KeySeparator, SeparatorLexemes, IsIdentifier;
    if cols == [] {
      SaysNothing(t);
    } else if |cols| == 1 {
      SaysKey(cols[0], t);
    } else {
      var sep, rest := KeySeparator(), Join(KeyTexts(cols[1..]), KeySeparator());
      SaysChain(cols[1..], t);
      SaysSeparator(rest + t);
      SaysKey(cols[0], sep + (rest + t));
      SeparatorPlain();
      SaysJoin(KeyText(cols[0]), KeyLexemes(cols[0]), sep, SeparatorLexemes(), rest + t);
      SaysJoin(KeyText(cols[0]) + sep, KeyLexemes(cols[0]) + SeparatorLexemes(), rest, ChainLexemes(cols[1..]), t);
      assert KeyTexts(cols)[1..] == KeyTexts(cols[1..]);
    }
  }

  lemma SeparatorPlain()
    ensures Plain(KeySeparator())
  {
  }

  lemma ReadsKeyAlias(t: string)
    requires Apart(t)
    ensures Reads(KeyAlias(), [Word("as"), Word("groupkey")], t)
  {
    hide Lex, Reads, FoldsTo, Apart;
    GroupKeyWord();
    SelectWords();
    ReadsLastWord("groupKey", "groupkey", t);
    ReadsSpaced("as", "as", "groupKey", [Word("groupkey")], t);
    ReadsBlank("as" + (" " + "groupKey"), [Word("as")] + [Word("groupkey")], t);
    assert [Word("as")] + [Word("groupkey")] == [Word("as"), Word("groupkey")];
  }

  lemma NothingApart()
    ensures Apart("")
  {
  }

  lemma SaysKeys(cols: Option<seq<string>>, t: string)
    requires (cols.Some? ==> GoodColumns(cols.value)) && Apart(Front(t))
    ensures Says(KeysText(cols), KeysLexemes(cols), t) && Plain(KeysText(cols))
  {
    hide Lexemes, Says, Reads, Front, Apart, Toks, GoodColumns, KeyAlias, ChainLexemes, KeySeparator, KeyTexts, Join;
    ReadsKeyAlias(Front(t));
    NothingApart();
    ReadsKeyAlias("");
    ReadsIsCalm(KeyAlias(), [Word("as"), Word("groupkey")]);
    SaysCode(KeyAlias(), [Word("as"), Word("groupkey")], t);
    match cols {
      case None =>
        SaysQuote("__GLOBAL__", KeyAlias() + t);
        SaysJoin("'" + "__GLOBAL__" + "'", [Quote("__GLOBAL__")], KeyAlias(), Toks([Word("as"), Word("groupkey")]), t);
      case Some(cs) =>
        SaysChain(cs, KeyAlias() + t);
        SaysJoin(Join(KeyTexts(cs), KeySeparator()), ChainLexemes(cs), KeyAlias(), Toks([Word("as"), Word("groupkey")]), t);
    }
  }

  // ------------------------------------------------------------- the aggregates

  datatype Fn = Count | CountDistinct | Sum | Avg | Min | Max

  datatype Aggregate = Aggregate(fn: Fn, col: string, alias: string)

  /** The function of an upper-cased name; an unknown one counts. */
  function FnOf(name: string): Fn {
    if name == "COUNT_DISTINCT" then CountDistinct
    else if name == "SUM" then Sum else if name == "AVG" then Avg
    else if name == "MIN" then Min else if name == "MAX" then Max
    else Count
  }

  /** In any mix of cases the name picks its function. */
  lemma FnOfName(u: Unicode, s: string)
    requires HavingGuard.AllAscii(s)
    ensures FnOf(HavingGuard.ToUpper(u, s))
            == if Fold(s) == "count_distinct" then CountDistinct
               else if Fold(s) == "sum" then Sum else if Fold(s) == "avg" then Avg
               else if Fold(s) == "min" then Min else if Fold(s) == "max" then Max
               else Count
  {
    hide Fold, HavingGuard.ToUpper, FoldsTo;
    FnWords();
    DistinctName();
    HavingGuard.UpperIsFold(u, s, "COUNT_DISTINCT");
    HavingGuard.UpperIsFold(u, s, "SUM");
    HavingGuard.UpperIsFold(u, s, "AVG");
    HavingGuard.UpperIsFold(u, s, "MIN");
    HavingGuard.UpperIsFold(u, s, "MAX");
  }

  lemma FnWords()
    ensures Fold("SUM") == "sum" && Fold("AVG") == "avg" && Fold("MIN") == "min" && Fold("MAX") == "max"
    ensures FoldsTo("SUM", "sum") && FoldsTo("AVG", "avg") && FoldsTo("MIN", "min") && FoldsTo("MAX", "max") && FoldsTo("COUNT", "count")
  {
  }

  lemma DistinctWord()
    ensures FoldsTo("DISTINCT", "distinct")
  {
    assert FoldsTo("DIST", "dist") && FoldsTo("INCT", "inct");
    FoldsJoin("DIST", "dist", "INCT", "inct", "DISTINCT", "distinct");
  }

  lemma DistinctName()
    ensures Fold("COUNT_DISTINCT") == "count_distinct"
  {
    hide FoldsTo;
    DistinctWord();
    CountWord();
    FoldsJoin("COUNT_", "count_", "DISTINCT", "distinct", "COUNT_DISTINCT", "count_distinct");
    FoldsMeans("COUNT_DISTINCT", "count_distinct");
  }

  lemma FoldsMeans(w: string, f: string)
    requires FoldsTo(w, f)
    ensures Fold(w) == f
  {
  }

  lemma CountWord()
    ensures FoldsTo("COUNT_", "count_")
  {
  }

  /** One aggregate of the rule as a select item. */
  function AggregateText(g: Aggregate): string {
    var item := g.col + (")" + (" " + ("as" + (" " + g.alias))));
    match g.fn
    case CountDistinct => "COUNT" + ("(" + ("DISTINCT" + (" " + item)))
    case Sum => "SUM" + ("(" + item)
    case Avg => "AVG" + ("(" + item)
    case Min => "MIN" + ("(" + item)
    case Max => "MAX" + ("(" + item)
    case Count => "COUNT" + ("(" + item)
  }

  function AggregateTokens(g: Aggregate): seq<Token> {
    [Word(match g.fn case Sum => "sum" case Avg => "avg" case Min => "min" case Max => "max" case _ => "count"), Sym("(")]
    + (if g.fn.CountDistinct? then [Word("distinct")] else [])
    + [Word(g.col), Sym(")"), Word("as"), Word(g.alias)]
  }

  predicate GoodItems(items: seq<Aggregate>) {
    forall i :: 0 <= i < |items| ==> IsIdentifier(items[i].col) && IsIdentifier(items[i].alias) && Plain(items[i].col) && Plain(items[i].alias)
  }

  function AggregateTexts(items: seq<Aggregate>): seq<string> {
    if items == [] then [] else [AggregateText(items[0])] + AggregateTexts(items[1..])
  }

  /** The select items of the aggregates, in order. */
  function AggregatesText(items: seq<Aggregate>): string { Join(AggregateTexts(items), ", ") }

  function AggregatesTokens(items: seq<Aggregate>): seq<Token> {
    if items == [] then []
    else if |items| == 1 then AggregateTokens(items[0])
    else AggregateTokens(items[0]) + ([Sym(",")] + AggregatesTokens(items[1..]))
  }

  lemma ReadsName(w: string, t: string)
    requires IsIdentifier(w) && Apart(t)
    ensures Reads(w, [Word(w)], t)
  {
    LexWord(w, t);
  }

  lemma ReadsItem(col: string, alias: string, t: string)
    requires IsIdentifier(col) && IsIdentifier(alias) && Apart(t)
    ensures Reads(col + (")" + (" " + ("as" + (" " + alias)))), [Word(col), Sym(")"), Word("as"), Word(alias)], t)
  {
    hide Lex, Reads, FoldsTo, IsIdentifier, Apart;
    SelectWords();
    ReadsName(alias, t);
    ReadsSpaced("as", "as", alias, [Word(alias)], t);
    var rest := "as" + (" " + alias);
    ReadsBlank(rest, [Word("as")] + [Word(alias)], t);
    ReadsSingle(")", " " + rest, [Word("as")] + [Word(alias)], t);
    var tail := ")" + (" " + rest);
    ClosedApart(" " + rest + t);
    assert tail + t == ")" + (" " + rest + t);
    ReadsName(col, tail + t);
    ReadsJoin(col, [Word(col)], tail, [Sym(")")] + ([Word("as")] + [Word(alias)]), t);
    assert [Word(col)] + ([Sym(")")] + ([Word("as")] + [Word(alias)])) == [Word(col), Sym(")"), Word("as"), Word(alias)];
  }

  lemma ClosedApart(t: string)
    ensures Apart(")" + t)
  {
  }

  lemma ReadsCall(w: string, f: string, item: string, itemT: seq<Token>, t: string)
    requires w != "" && FoldsTo(w, f) && Reads(item, itemT, t)
    ensures Reads(w + ("(" + item), [Word(f), Sym("(")] + itemT, t)
  {
    hide Lex, Reads, FoldsTo;
    ReadsSingle("(", item, itemT, t);
    ReadsWord(w, f, "(" + item, [Sym("(")] + itemT, t);
    assert [Word(f)] + ([Sym("(")] + itemT) == [Word(f), Sym("(")] + itemT;
  }

  lemma ReadsAggregate(g: Aggregate, t: string)
    requires IsIdentifier(g.col) && IsIdentifier(g.alias) && Apart(t)
    ensures Reads(AggregateText(g), AggregateTokens(g), t)
  {
    hide Lex, Reads, FoldsTo, IsIdentifier, Apart;
    var item := g.col + (")" + (" " + ("as" + (" " + g.alias))));
    var itemT := [Word(g.col), Sym(")"), Word("as"), Word(g.alias)];
    ReadsItem(g.col, g.alias, t);
    FnWords();
    DistinctWord();
    ReadsSpaced("DISTINCT", "distinct", item, itemT, t);
    var name := match g.fn case Sum => "SUM" case Avg => "AVG" case Min => "MIN" case Max => "MAX" case _ => "COUNT";
    var f := match g.fn case Sum => "sum" case Avg => "avg" case Min => "min" case Max => "max" case _ => "count";
    if g.fn.CountDistinct? {
      ReadsCall(name, f, "DISTINCT" + (" " + item), [Word("distinct")] + itemT, t);
      assert [Word(f), Sym("(")] + ([Word("distinct")] + itemT) == AggregateTokens(g);
    } else {
      ReadsCall(name, f, item, itemT, t);
      assert [Word(f), Sym("(")] + itemT == AggregateTokens(g);
    }
  }

  lemma {:induction false} ReadsAggregates(items: seq<Aggregate>, t: string)
    requires GoodItems(items) && Apart(t)
    ensures Reads(AggregatesText(items), AggregatesTokens(items), t)
  {
    hide Lex, Reads, IsIdentifier, AggregateText, AggregateTokens;
    if items == [] {
      ReadsNothing(t);
    } else if |items| == 1 {
      ReadsAggregate(items[0], t);
      assert AggregateTexts(items) == [AggregateText(items[0])];
    } else {
      var rest, restT := AggregatesText(items[1..]), AggregatesTokens(items[1..]);
      ReadsAggregates(items[1..], t);
      ReadsBlank(rest, restT, t);
      ReadsSingle(",", " " + rest, restT, t);
      var tail := "," + (" " + rest);
      ReadsAggregate(items[0], tail + t);
      ReadsJoin(AggregateText(items[0]), AggregateTokens(items[0]), tail, [Sym(",")] + restT, t);
      assert AggregateTexts(items)[1..] == AggregateTexts(items[1..]);
      assert ", " == "," + " ";
      assert AggregateText(items[0]) + ", " + rest == AggregateText(items[0]) + tail;
    }
  }

  lemma {:induction false} NoMarkTokens(items: seq<Aggregate>)
    ensures Sym("?") !in AggregatesTokens(items)
  {
    if |items| > 1 { NoMarkTokens(items[1..]); }
  }

  lemma AggregatesCalm(items: seq<Aggregate>)
    requires GoodItems(items)
    ensures Bland(AggregatesText(items)) && Plain(AggregatesText(items))
  {
    hide Reads, AggregatesText, AggregatesTokens, GoodItems;
    NothingApart();
    ReadsAggregates(items, "");
    NoMarkTokens(items);
    ReadsIsCalm(AggregatesText(items), AggregatesTokens(items));
  }

  // ------------------------------------------------------------- up to the threshold column

  /** The text in front of the threshold column. */
  function Before(seconds: nat, cols: Option<seq<string>>, items: seq<Aggregate>): string {
    SelectFront() + Span(seconds) + WindowBack() + KeysText(cols) + ("," + (GAP + INDENT)) + (AggregatesText(items) + (GAP + INDENT))
  }

  /** What it reads as: windows of that many seconds, the group key, the aggregates. */
  function SelectLexemes(seconds: nat, cols: Option<seq<string>>, items: seq<Aggregate>): seq<Lexeme> {
    Toks([Word("select"), Word("time_bucket"), Sym("("), Word("interval")]) + [Quote(Decimal(seconds) + " seconds")]
    + Toks(WindowTokens()) + KeysLexemes(cols) + Toks([Sym(",")]) + Toks(AggregatesTokens(items))
  }

  lemma SaysWindow(seconds: nat, t: string)
    ensures Says(SelectFront() + Span(seconds) + WindowBack(),
                 Toks([Word("select"), Word("time_bucket"), Sym("("), Word("interval")]) + [Quote(Decimal(seconds) + " seconds")]
                 + Toks(WindowTokens()), t)
    ensures Plain(SelectFront() + Span(seconds) + WindowBack())
  {
    hide Says, Lexemes, Reads, Toks, SelectFront, WindowBack, WindowTokens, Decimal;
    var ts := [Word("select"), Word("time_bucket"), Sym("("), Word("interval")];
    WindowCalm();
    ReadsSelectFront(Front(Span(seconds) + (WindowBack() + t)));
    SaysCode(SelectFront(), ts, Span(seconds) + (WindowBack() + t));
    SaysQuote(Decimal(seconds) + " seconds", WindowBack() + t);
    SaysJoin(SelectFront(), Toks(ts), Span(seconds), [Quote(Decimal(seconds) + " seconds")], WindowBack() + t);
    ReadsWindowBack(Front(t));
    SaysCode(WindowBack(), WindowTokens(), t);
    SaysJoin(SelectFront() + Span(seconds), Toks(ts) + [Quote(Decimal(seconds) + " seconds")], WindowBack(), Toks(WindowTokens()), t);
  }

  lemma WindowCalm()
    ensures Bland(SelectFront()) && Plain(SelectFront()) && Bland(WindowBack()) && Plain(WindowBack())
  {
    hide Reads, SelectFront, WindowBack;
    ReadsSelectFront("");
    ReadsIsCalm(SelectFront(), [Word("select"), Word("time_bucket"), Sym("("), Word("interval")]);
    ReadsWindowBack("");
    assert Sym("?") !in WindowTokens();
    ReadsIsCalm(WindowBack(), WindowTokens());
  }

  lemma CommaGap(t: string)
    ensures Reads("," + (GAP + INDENT), [Sym(",")], t) && Apart("," + (GAP + INDENT) + t)
    ensures Bland("," + (GAP + INDENT)) && Plain("," + (GAP + INDENT))
  {
    hide Lex, Reads, Gap;
    Indents();
    ReadsSpace(GAP + INDENT, t);
    ReadsSingle(",", GAP + INDENT, [], t);
    assert [Sym(",")] + [] == [Sym(",")];
  }

  lemma AggregatesGap(items: seq<Aggregate>, t: string)
    requires GoodItems(items)
    ensures Reads(AggregatesText(items) + (GAP + INDENT), AggregatesTokens(items), t)
    ensures Bland(AggregatesText(items) + (GAP + INDENT)) && Plain(AggregatesText(items) + (GAP + INDENT))
  {
    hide Lex, Reads, Gap, AggregatesText, AggregatesTokens, GoodItems;
    Indents();
    AggregatesCalm(items);
    ReadsSpace(GAP + INDENT, t);
    ReadsAggregates(items, (GAP + INDENT) + t);
    ReadsJoin(AggregatesText(items), AggregatesTokens(items), GAP + INDENT, [], t);
    assert AggregatesTokens(items) + [] == AggregatesTokens(items);
  }

  /** The text in front of the threshold column reads as the window, the key and the aggregates that were asked for. */
  lemma SelectReads(seconds: nat, cols: Option<seq<string>>, items: seq<Aggregate>)
    requires (cols.Some? ==> GoodColumns(cols.value)) && GoodItems(items)
    ensures Lexemes(Before(seconds, cols, items)) == Some(SelectLexemes(seconds, cols, items)) && Plain(Before(seconds, cols, items))
  {
    hide Says, Lexemes, Lex, Reads, Toks, Span, SelectFront, WindowBack, WindowTokens, Decimal, KeysText, KeysLexemes,
         AggregatesText, AggregatesTokens, GoodItems, GoodColumns;
    var window, keys := SelectFront() + Span(seconds) + WindowBack(), KeysText(cols);
    var comma, aggs := "," + (GAP + INDENT), AggregatesText(items) + (GAP + INDENT);
    var aggsT := AggregatesTokens(items);
    var windowL := Toks([Word("select"), Word("time_bucket"), Sym("("), Word("interval")]) + [Quote(Decimal(seconds) + " seconds")]
                   + Toks(WindowTokens());
    SaysWindow(seconds, keys + (comma + (aggs + "")));
    CommaGap(Front(aggs + ""));
    AggregatesGap(items, Front(""));
    SaysCode(aggs, aggsT, "");
    SaysCode(comma, [Sym(",")], aggs + "");
    FrontApart(comma, aggs + "");
    SaysKeys(cols, comma + (aggs + ""));
    SaysJoin(window, windowL, keys, KeysLexemes(cols), comma + (aggs + ""));
    SaysJoin(window + keys, windowL + KeysLexemes(cols), comma, Toks([Sym(",")]), aggs + "");
    SaysJoin(window + keys + comma, windowL + KeysLexemes(cols) + Toks([Sym(",")]), aggs, Toks(aggsT), "");
    SaysWhole(window + keys + comma + aggs, windowL + KeysLexemes(cols) + Toks([Sym(",")]) + Toks(aggsT));
  }

  lemma SaysWhole(s: string, ls: seq<Lexeme>)
    requires Says(s, ls, "")
    ensures Lexemes(s) == Some(ls)
  {
    LexNothing();
    assert s + "" == s && ls + [] == ls;
  }

  lemma FrontApart(comma: string, t: string)
    requires '\'' !in comma && comma != "" && !IsWordChar(comma[0]) && comma[0] != '='
    ensures Apart(Front(comma + t))
  {
    hide QuoteAt;
    QuoteAfter(comma, t);
    assert Front(comma + t)[0] == comma[0];
  }

  // ------------------------------------------------------------- the threshold column

  function CaseOpen(): string { "," + (" " + ("CASE" + (" " + ("WHEN" + (" " + "("))))) }

  function CaseEnd(): string {
    ")" + (" " + ("THEN" + (" " + ("true" + (" " + ("ELSE" + (" " + ("false" + (" " + ("END" + (" " + ("as" + (" " + "threshold_met")))))))))))))
  }

  function NoCase(): string { "," + (" " + ("false" + (" " + ("as" + (" " + "threshold_met"))))) }

  /** The threshold column over the HAVING text, or the constant without one. */
  function ThresholdColumn(text: string): string { if text == "" then NoCase() else CaseOpen() + text + CaseEnd() }

  function Position(s: string, c: char): (n: nat)
    ensures n <= |s| && c !in s[..n] && (n < |s| ==> s[n] == c)
  {
    if s == "" || s[0] == c then 0
    else
      assert s == [s[0]] + s[1..];
      1 + Position(s[1..], c)
  }

  /** `, CASE WHEN (` .. `) THEN a ELSE b END AS threshold_met` for a condition of truth `v`: `a` when it is true, and
      `b` when it is false or unknown (section 6.9 of SQL-92). */
  function CaseValue(front: Option<seq<Token>>, back: Option<seq<Token>>, v: Truth): Option<Truth> {
    if front == Some([Sym(","), Word("case"), Word("when"), Sym("(")]) && back.Some? && |back.value| == 8
       && back.value[0] == Sym(")") && back.value[1] == Word("then") && back.value[3] == Word("else")
       && back.value[5..] == [Word("end"), Word("as"), Word("threshold_met")]
    then TruthWord(back.value[if v == Yes then 2 else 4])
    else None
  }

  /** `, a AS threshold_met` */
  function ConstantValue(ts: Option<seq<Token>>): Option<Truth> {
    if ts.Some? && |ts.value| == 4 && ts.value[0] == Sym(",") && ts.value[2..] == [Word("as"), Word("threshold_met")]
    then TruthWord(ts.value[1])
    else None
  }

  /** The value of the threshold column for a row on which the text `cond` has truth `v`. */
  function FlagValue(column: string, cond: string, v: Truth): Option<Truth> {
    var n := Position(column, '(');
    if n == |column| then ConstantValue(Lex(column))
    else if cond <= column[n + 1..] then CaseValue(Lex(column[..n + 1]), Lex(column[n + 1 + |cond|..]), v)
    else None
  }

  lemma CaseWords()
    ensures FoldsTo("CASE", "case") && FoldsTo("WHEN", "when") && FoldsTo("THEN", "then") && FoldsTo("ELSE", "else")
    ensures FoldsTo("END", "end") && FoldsTo("true", "true") && FoldsTo("false", "false")
  {
    assert FoldsTo("WHEN", "when");
    assert FoldsTo("THEN", "then");
    assert FoldsTo("false", "false");
  }

  lemma ThresholdPieces()
    ensures FoldsTo("threshold", "threshold") && FoldsTo("_met", "_met")
  {
    assert FoldsTo("thres", "thres") && FoldsTo("hold", "hold");
    FoldsJoin("thres", "thres", "hold", "hold", "threshold", "threshold");
  }

  lemma ThresholdMetWord()
    ensures FoldsTo("threshold_met", "threshold_met")
  {
    hide FoldsTo;
    ThresholdPieces();
    FoldsJoin("threshold", "threshold", "_met", "_met", "threshold_met", "threshold_met");
  }

  lemma ReadsCaseOpen()
    ensures Reads(CaseOpen(), [Sym(","), Word("case"), Word("when"), Sym("(")], "")
  {
    hide Lex, Reads, FoldsTo;
    CaseWords();
    ReadsOne("(", "");
    ReadsSpaced("WHEN", "when", "(", [Sym("(")], "");
    var cond, condT := "WHEN" + (" " + "("), [Word("when")] + [Sym("(")];
    ReadsSpaced("CASE", "case", cond, condT, "");
    ReadsBlank("CASE" + (" " + cond), [Word("case")] + condT, "");
    ReadsSingle(",", " " + ("CASE" + (" " + cond)), [Word("case")] + condT, "");
    assert [Sym(",")] + ([Word("case")] + condT) == [Sym(","), Word("case"), Word("when"), Sym("(")];
  }

  function CaseEndTokens(): seq<Token> {
    [Sym(")"), Word("then"), Word("true"), Word("else"), Word("false"), Word("end"), Word("as"), Word("threshold_met")]
  }

  lemma ReadsCaseEnd()
    ensures Reads(CaseEnd(), CaseEndTokens(), "")
  {
    hide Lex, Reads, FoldsTo, Apart;
    CaseWords();
    SelectWords();
    ThresholdMetWord();
    NothingApart();
    ReadsLastWord("threshold_met", "threshold_met", "");
    var s, ts := "threshold_met", [Word("threshold_met")];
    ReadsSpaced("as", "as", s, ts, "");
    s, ts := "as" + (" " + s), [Word("as")] + ts;
    ReadsSpaced("END", "end", s, ts, "");
    s, ts := "END" + (" " + s), [Word("end")] + ts;
    ReadsSpaced("false", "false", s, ts, "");
    s, ts := "false" + (" " + s), [Word("false")] + ts;
    ReadsSpaced("ELSE", "else", s, ts, "");
    s, ts := "ELSE" + (" " + s), [Word("else")] + ts;
    ReadsSpaced("true", "true", s, ts, "");
    s, ts := "true" + (" " + s), [Word("true")] + ts;
    ReadsSpaced("THEN", "then", s, ts, "");
    s, ts := "THEN" + (" " + s), [Word("then")] + ts;
    ReadsBlank(s, ts, "");
    ReadsSingle(")", " " + s, ts, "");
    assert [Sym(")")] + ts == CaseEndTokens();
  }

  lemma ReadsNoCase()
    ensures Reads(NoCase(), [Sym(","), Word("false"), Word("as"), Word("threshold_met")], "")
  {
    hide Lex, Reads, FoldsTo, Apart;
    CaseWords();
    SelectWords();
    ThresholdMetWord();
    NothingApart();
    ReadsLastWord("threshold_met", "threshold_met", "");
    var s, ts := "threshold_met", [Word("threshold_met")];
    ReadsSpaced("as", "as", s, ts, "");
    s, ts := "as" + (" " + s), [Word("as")] + ts;
    ReadsSpaced("false", "false", s, ts, "");
    s, ts := "false" + (" " + s), [Word("false")] + ts;
    ReadsBlank(s, ts, "");
    ReadsSingle(",", " " + s, ts, "");
    assert [Sym(",")] + ts == [Sym(","), Word("false"), Word("as"), Word("threshold_met")];
  }

  /** None of the column's own text needs a parameter, a quote or a comment. */
  lemma CaseTexts()
    ensures Lex(CaseOpen()) == Some([Sym(","), Word("case"), Word("when"), Sym("(")]) && Bland(CaseOpen()) && Plain(CaseOpen())
    ensures Bland(CaseEnd()) && Plain(CaseEnd()) && Lex(CaseEnd()) == Some(CaseEndTokens())
    ensures Lex(NoCase()) == Some([Sym(","), Word("false"), Word("as"), Word("threshold_met")]) && Bland(NoCase()) && Plain(NoCase())
    ensures CaseOpen() != "" && NoCase() != ""
  {
    assert CaseOpen() != "" && NoCase() != "";
    hide Lex, Reads, CaseOpen, CaseEnd, NoCase;
    ReadsCaseOpen();
    ReadsCaseEnd();
    ReadsNoCase();
    ReadsIsCalm(CaseOpen(), [Sym(","), Word("case"), Word("when"), Sym("(")]);
    ReadsIsCalm(CaseEnd(), CaseEndTokens());
    ReadsIsCalm(NoCase(), [Sym(","), Word("false"), Word("as"), Word("threshold_met")]);
  }

  /** The first parenthesis is the one that CASE WHEN opens. */
  lemma Parentheses()
    ensures Position(CaseOpen(), '(') == |CaseOpen()| - 1 && Position(NoCase(), '(') == |NoCase()|
  {
    NoOpenWords();
    hide NoOpen, Position;
    PositionIs("(", '(', 0);
    PositionBehind(" ", "(");
    PositionBehind("WHEN", " " + "(");
    PositionBehind(" ", "WHEN" + (" " + "("));
    PositionBehind("CASE", " " + ("WHEN" + (" " + "(")));
    PositionBehind(" ", "CASE" + (" " + ("WHEN" + (" " + "("))));
    PositionBehind(",", " " + ("CASE" + (" " + ("WHEN" + (" " + "(")))));
    PositionBehind("hold_met", "");
    PositionBehind("thres", "hold_met" + "");
    assert "thres" + ("hold_met" + "") == "threshold_met";
    PositionBehind(" ", "threshold_met");
    PositionBehind("as", " " + "threshold_met");
    PositionBehind(" ", "as" + (" " + "threshold_met"));
    PositionBehind("false", " " + ("as" + (" " + "threshold_met")));
    PositionBehind(" ", "false" + (" " + ("as" + (" " + "threshold_met"))));
    PositionBehind(",", " " + ("false" + (" " + ("as" + (" " + "threshold_met")))));
  }

  lemma NoOpenWords()
    ensures NoOpen(",") && NoOpen(" ") && NoOpen("CASE") && NoOpen("WHEN") && NoOpen("false") && NoOpen("as")
    ensures NoOpen("thres") && NoOpen("hold_met")
  {
  }

  lemma {:induction false} PositionBehind(a: string, b: string)
    requires NoOpen(a)
    ensures Position(a + b, '(') == |a| + Position(b, '(')
  {
    if a == "" {
      assert a + b == b;
    } else {
      assert (a + b)[1..] == a[1..] + b;
      PositionBehind(a[1..], b);
    }
  }

  predicate NoOpen(s: string) { forall i :: 0 <= i < |s| ==> s[i] != '(' }

  lemma {:induction false} PositionIs(s: string, c: char, n: nat)
    requires n <= |s| && (forall i :: 0 <= i < n ==> s[i] != c) && (n < |s| ==> s[n] == c)
    ensures Position(s, c) == n
  {
    if n > 0 { PositionIs(s[1..], c, n - 1); }
  }

  /** The column is true exactly when there is a HAVING text and it is true; false when it is false or unknown. */
  lemma ThresholdValue(text: string, v: Truth)
    ensures FlagValue(ThresholdColumn(text), text, v) == Some(if text != "" && v == Yes then Yes else No)
  {
    hide Lex, CaseOpen, CaseEnd, NoCase, CaseValue;
    CaseTexts();
    Parentheses();
    if text != "" {
      CaseOver(CaseOpen(), text, CaseEnd(), v);
      CaseMeans(v);
      assert CaseOpen() + text + CaseEnd() == CaseOpen() + (text + CaseEnd());
    }
  }

  lemma CaseMeans(v: Truth)
    ensures CaseValue(Lex(CaseOpen()), Lex(CaseEnd()), v) == Some(if v == Yes then Yes else No)
  {
    hide Lex, CaseOpen, CaseEnd;
    CaseTexts();
  }

  lemma CaseOver(open: string, text: string, end: string, v: Truth)
    requires open != "" && Position(open, '(') == |open| - 1
    ensures FlagValue(open + (text + end), text, v) == CaseValue(Lex(open), Lex(end), v)
  {
    hide Lex, CaseValue, Position, FlagValue;
    OpenAt(open, text + end);
    Slices(open, text, end);
    FlagOver(open + (text + end), |open| - 1, open, text, end, v);
  }

  lemma FlagOver(column: string, n: nat, open: string, text: string, end: string, v: Truth)
    requires n + 1 + |text| <= |column| && Position(column, '(') == n && column[..n + 1] == open && text <= column[n + 1..]
    requires column[n + 1 + |text|..] == end
    ensures FlagValue(column, text, v) == CaseValue(Lex(open), Lex(end), v)
  {
    hide Lex, CaseValue, Position;
  }

  lemma Slices(open: string, text: string, end: string)
    requires open != ""
    ensures var s := open + (text + end);
            text <= s[|open|..] && s[..|open|] == open && s[|open| + |text|..] == end
  {
    assert (open + (text + end))[|open|..] == text + end;
  }

  lemma OpenAt(open: string, rest: string)
    requires open != "" && Position(open, '(') == |open| - 1
    ensures Position(open + rest, '(') == |open| - 1
  {
    var n := |open| - 1;
    assert forall i :: 0 <= i < n ==> open[..n][i] == open[i];
    assert forall i :: 0 <= i < n ==> (open + rest)[i] != '(';
    PositionIs(open + rest, '(', n);
  }

  lemma ThresholdPlain(text: string)
    requires Plain(text)
    ensures Plain(ThresholdColumn(text))
  {
    hide CaseOpen, CaseEnd, NoCase, Lex;
    CaseTexts();
  }

  // ------------------------------------------------------------- FROM, GROUP BY and ORDER BY

  function FromText(): string { GAP + ("FROM" + " ") }

  lemma FromReads()
    ensures Lex(FromText()) == Some([Word("from")]) && Bland(FromText()) && Plain(FromText()) && FromText() != "" && FromText()[0] == '\n'
  {
    hide Lex, Reads, FoldsTo, Gap;
    Indents();
    assert FoldsTo("FROM", "from") by { FromWord(); }
    ReadsNothing("");
    ReadsSpaced("FROM", "from", "", [], "");
    assert " " + "" == " " && [Word("from")] + [] == [Word("from")];
    ReadsGap(GAP, "FROM" + " ", [Word("from")], "");
    ReadsIsCalm(FromText(), [Word("from")]);
  }

  lemma FromWord()
    ensures FoldsTo("FROM", "from")
  {
  }

  function ColumnsText(cols: Option<seq<string>>): string {
    match cols case None => "" case Some(cs) => "," + (" " + Join(cs, ", "))
  }

  /** The clauses after WHERE: by window and, unless the rule is global, by its columns; newest window first. */
  function Tail(cols: Option<seq<string>>): string {
    GAP + ("GROUP" + (" " + ("BY" + (" " + ("window_start" + (ColumnsText(cols) + OrderText()))))))
  }

  function OrderText(): string {
    GAP + ("ORDER" + (" " + ("BY" + (" " + ("window_start" + (" " + ("DESC" + (GAP + ("LIMIT" + (" " + ("5000" + GAP)))))))))))
  }

  function NameTokens(cols: seq<string>): seq<Token> {
    if cols == [] then [] else if |cols| == 1 then [Word(cols[0])] else [Word(cols[0]), Sym(",")] + NameTokens(cols[1..])
  }

  function ColumnsTokens(cols: Option<seq<string>>): seq<Token> {
    match cols case None => [] case Some(cs) => [Sym(",")] + NameTokens(cs)
  }

  function OrderTokens(): seq<Token> { [Word("order"), Word("by"), Word("window_start"), Word("desc"), Word("limit"), Word("5000")] }

  function OrderingTokens(cols: Option<seq<string>>): seq<Token> {
    [Word("group"), Word("by"), Word("window_start")] + ColumnsTokens(cols) + OrderTokens()
  }

  lemma TailWords()
    ensures FoldsTo("GROUP", "group") && FoldsTo("BY", "by") && FoldsTo("ORDER", "order") && FoldsTo("DESC", "desc")
    ensures FoldsTo("LIMIT", "limit") && FoldsTo("5000", "5000")
  {
    assert FoldsTo("GROUP", "group");
    assert FoldsTo("ORDER", "order");
    assert FoldsTo("DESC", "desc");
    assert FoldsTo("LIMIT", "limit");
    assert FoldsTo("5000", "5000");
  }

  lemma ReadsOrder(t: string)
    ensures Reads(OrderText(), OrderTokens(), t)
  {
    hide Lex, Reads, FoldsTo, Gap, Breaks;
    TailWords();
    WindowStartWord();
    Indents();
    ReadsSpace(GAP, t);
    ReadsWord("5000", "5000", GAP, [], t);
    var s, ts := "5000" + GAP, [Word("5000")] + [];
    ReadsSpaced("LIMIT", "limit", s, ts, t);
    s, ts := "LIMIT" + (" " + s), [Word("limit")] + ts;
    ReadsGap(GAP, s, ts, t);
    GapBreaks(s);
    ReadsWord("DESC", "desc", GAP + s, ts, t);
    s, ts := "DESC" + (GAP + s), [Word("desc")] + ts;
    ReadsSpaced("window_start", "window_start", s, ts, t);
    s, ts := "window_start" + (" " + s), [Word("window_start")] + ts;
    ReadsSpaced("BY", "by", s, ts, t);
    s, ts := "BY" + (" " + s), [Word("by")] + ts;
    ReadsSpaced("ORDER", "order", s, ts, t);
    s, ts := "ORDER" + (" " + s), [Word("order")] + ts;
    ReadsGap(GAP, s, ts, t);
    assert ts == OrderTokens();
  }

  lemma GapBreaks(s: string)
    ensures Breaks(GAP + s) && Apart(GAP + s)
  {
  }

  lemma {:induction false} ReadsNames(cols: seq<string>, t: string)
    requires GoodColumns(cols) && Apart(t)
    ensures Reads(Join(cols, ", "), NameTokens(cols), t)
  {
    hide Lex, Reads, IsIdentifier;
    if cols == [] {
      ReadsNothing(t);
    } else if |cols| == 1 {
      ReadsName(cols[0], t);
    } else {
      var rest, restT := Join(cols[1..], ", "), NameTokens(cols[1..]);
      ReadsNames(cols[1..], t);
      ReadsBlank(rest, restT, t);
      ReadsSingle(",", " " + rest, restT, t);
      var tail := "," + (" " + rest);
      ReadsName(cols[0], tail + t);
      ReadsJoin(cols[0], [Word(cols[0])], tail, [Sym(",")] + restT, t);
      assert ", " == "," + " " && cols[0] + ", " + rest == cols[0] + tail;
      assert [Word(cols[0])] + ([Sym(",")] + restT) == NameTokens(cols);
    }
  }

  lemma ReadsColumns(cols: Option<seq<string>>, t: string)
    requires (cols.Some? ==> GoodColumns(cols.value)) && Apart(t)
    ensures Reads(ColumnsText(cols), ColumnsTokens(cols), t)
  {
    hide Lex, Reads, GoodColumns, Apart, Join, NameTokens;
    match cols
    case None => ReadsNothing(t);
    case Some(cs) =>
      ReadsNames(cs, t);
      ReadsBlank(Join(cs, ", "), NameTokens(cs), t);
      ReadsSingle(",", " " + Join(cs, ", "), NameTokens(cs), t);
  }

  lemma {:induction false} NamesUnmarked(cols: seq<string>)
    ensures Sym("?") !in NameTokens(cols)
  {
    if |cols| > 1 { NamesUnmarked(cols[1..]); }
  }

  lemma ReadsGrouping(cols: Option<seq<string>>, t: string)
    requires cols.Some? ==> GoodColumns(cols.value)
    ensures Reads("window_start" + (ColumnsText(cols) + OrderText()), [Word("window_start")] + (ColumnsTokens(cols) + OrderTokens()), t)
  {
    hide Lex, Reads, FoldsTo, GoodColumns, ColumnsText, ColumnsTokens, OrderText, OrderTokens, Apart, Breaks;
    WindowStartWord();
    var order := OrderText();
    ReadsOrder(t);
    OrderStarts(t);
    ReadsColumns(cols, order + t);
    ReadsJoin(ColumnsText(cols), ColumnsTokens(cols), order, OrderTokens(), t);
    ColumnsBreak(cols);
    ReadsWord("window_start", "window_start", ColumnsText(cols) + order, ColumnsTokens(cols) + OrderTokens(), t);
  }

  /** After WHERE the text reads as grouping by the window and those columns, ordered, limited; it has no placeholder. */
  lemma TailReads(cols: Option<seq<string>>)
    requires cols.Some? ==> GoodColumns(cols.value)
    ensures Lex(Tail(cols)) == Some(OrderingTokens(cols)) && Plain(Tail(cols)) && Apart(Tail(cols))
    ensures At(OrderingTokens(cols), Word("group"))
  {
    hide Lex, Reads, FoldsTo, Gap, GoodColumns, ColumnsText, ColumnsTokens, OrderText, OrderTokens, Apart, Breaks;
    TailWords();
    Indents();
    ReadsGrouping(cols, "");
    var s, ts := "window_start" + (ColumnsText(cols) + OrderText()), [Word("window_start")] + (ColumnsTokens(cols) + OrderTokens());
    ReadsSpaced("BY", "by", s, ts, "");
    s, ts := "BY" + (" " + s), [Word("by")] + ts;
    ReadsSpaced("GROUP", "group", s, ts, "");
    s, ts := "GROUP" + (" " + s), [Word("group")] + ts;
    ReadsGap(GAP, s, ts, "");
    assert ts == OrderingTokens(cols);
    ColumnsUnmarked(cols);
    ReadsIsCalm(Tail(cols), OrderingTokens(cols));
    GapBreaks(s);
  }

  lemma ColumnsUnmarked(cols: Option<seq<string>>)
    ensures Sym("?") !in OrderingTokens(cols)
  {
    if cols.Some? { NamesUnmarked(cols.value); }
  }

  lemma OrderStarts(t: string)
    ensures Apart(OrderText() + t)
  {
    assert OrderText()[0] == '\n' && (OrderText() + t)[0] == '\n';
  }

  lemma ColumnsBreak(cols: Option<seq<string>>)
    ensures Breaks(ColumnsText(cols) + OrderText())
  {
    assert OrderText()[0] == '\n';
    if cols.None? { assert ColumnsText(cols) + OrderText() == OrderText(); }
  }

  // ------------------------------------------------------------- empty lists

  lemma {:induction false} ItemsEndInName(items: seq<Aggregate>)
    ensures AggregatesTokens(items) == [] <==> items == []
    ensures items != [] ==> AggregatesTokens(items)[|AggregatesTokens(items)| - 1] == Word(items[|items| - 1].alias)
  {
    if |items| > 1 { ItemsEndInName(items[1..]); }
  }

  lemma {:induction false} NamesEndInName(cols: seq<string>)
    ensures NameTokens(cols) == [] <==> cols == []
    ensures cols != [] ==> NameTokens(cols)[|NameTokens(cols)| - 1] == Word(cols[|cols| - 1])
  {
    if |cols| > 1 { NamesEndInName(cols[1..]); }
  }

  /** The select list ends in a comma, with the one of the threshold column behind it, exactly for a rule without aggregates;
      the GROUP BY list ends in one exactly for a rule without grouping keys. */
  lemma DanglingCommas(seconds: nat, cols: Option<seq<string>>, items: seq<Aggregate>, text: string)
    ensures var ls := SelectLexemes(seconds, cols, items); |ls| > 0 && (ls[|ls| - 1] == Tok(Sym(",")) <==> items == [])
    ensures ThresholdColumn(text) != "" && ThresholdColumn(text)[0] == ','
    ensures var ts := [Word("group"), Word("by"), Word("window_start")] + ColumnsTokens(cols);
            OrderingTokens(cols) == ts + OrderTokens() && (ts[|ts| - 1] == Sym(",") <==> cols == Some([]))
  {
    hide SelectLexemes, ThresholdColumn, OrderingTokens;
    SelectEnds(seconds, cols, items);
    ColumnStarts(text);
    GroupingEnds(cols);
  }

  lemma ColumnStarts(text: string)
    ensures ThresholdColumn(text) != "" && ThresholdColumn(text)[0] == ','
  {
    hide CaseEnd;
    if text != "" { assert CaseOpen()[0] == ','; }
  }

  lemma GroupingEnds(cols: Option<seq<string>>)
    ensures var ts := [Word("group"), Word("by"), Word("window_start")] + ColumnsTokens(cols);
            OrderingTokens(cols) == ts + OrderTokens() && (ts[|ts| - 1] == Sym(",") <==> cols == Some([]))
  {
    hide NameTokens, OrderTokens;
    if cols.Some? { NamesEndInName(cols.value); }
  }

  lemma SelectEnds(seconds: nat, cols: Option<seq<string>>, items: seq<Aggregate>)
    ensures var ls := SelectLexemes(seconds, cols, items); |ls| > 0 && (ls[|ls| - 1] == Tok(Sym(",")) <==> items == [])
  {
    hide KeysLexemes, AggregatesTokens, WindowTokens, Decimal;
    ItemsEndInName(items);
  }
}
