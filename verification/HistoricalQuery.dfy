/** The full historical query: one text and one parameter list for a rule, and the placeholders the engine sees in it. */
module HistoricalQuery {
  import opened Prelude
  import opened Text
  import opened SqlContext
  import opened SqlLexer
  import opened SqlGrammar
  import opened FilterCompiler
  import opened FilterLexing
  import opened FilterMeaning
  import FilterBuilder
  import HavingGuard
  import opened QueryAssembly
  import opened QuotedText
  import opened SelectList

  datatype Query = Query(text: string, params: seq<Json>)

  predicate IsGlobal(keys: seq<string>) { keys == ["__GLOBAL__"] }

  predicate GoodKeys(env: Env, keys: seq<string>) { forall i :: 0 <= i < |keys| ==> Column(env, keys[i]).Some? }

  function ColumnsOf(env: Env, keys: seq<string>): seq<string>
    requires GoodKeys(env, keys)
  {
    hide Column;
    if keys == [] then [] else [Column(env, keys[0]).value] + ColumnsOf(env, keys[1..])
  }

  lemma {:induction false} ColumnsSnoc(env: Env, keys: seq<string>, key: string)
    requires GoodKeys(env, keys) && Column(env, key).Some?
    ensures GoodKeys(env, keys + [key]) && ColumnsOf(env, keys + [key]) == ColumnsOf(env, keys) + [Column(env, key).value]
  {
    hide Column;
    if keys == [] {
      assert keys + [key] == [key];
    } else {
      assert (keys + [key])[1..] == keys[1..] + [key];
      ColumnsSnoc(env, keys[1..], key);
    }
  }

  /** The columns a rule groups by besides the window; None for a global rule. */
  function GroupedBy(env: Env, keys: seq<string>): Option<seq<string>>
    requires IsGlobal(keys) || GoodKeys(env, keys)
  {
    if IsGlobal(keys) then None else Some(ColumnsOf(env, keys))
  }

  /** The grouping columns, or None when one of them is not an identifier. */
  method GroupColumns(env: Env, keys: seq<string>) returns (r: Option<seq<string>>)
    ensures r.Some? <==> GoodKeys(env, keys)
    ensures r.Some? ==> r.value == ColumnsOf(env, keys)
  {
    hide Column;
    var flatKeys: seq<string> := [];
    for i := 0 to |keys|
      invariant GoodKeys(env, keys[..i]) && flatKeys == ColumnsOf(env, keys[..i])
    {
      var validated := Column(env, keys[i]);
      if validated.None? { return None; }
      assert keys[..i + 1] == keys[..i] + [keys[i]];
      ColumnsSnoc(env, keys[..i], keys[i]);
      flatKeys := flatKeys + [validated.value];
    }
    assert keys[..|keys|] == keys;
    r := Some(flatKeys);
  }

  lemma {:induction false} ColumnsAreGood(env: Env, keys: seq<string>)
    requires GoodKeys(env, keys)
    ensures GoodColumns(ColumnsOf(env, keys))
  {
    hide IsIdentifier, Column;
    if keys != [] {
      ColumnsAreGood(env, keys[1..]);
      assert Column(env, keys[0]).Some?;
    }
  }

  /** The group key's select item for a rule that is not global. */
  method SelectKeys(flatKeys: seq<string>) returns (s: string)
    ensures s == KeysText(Some(flatKeys))
  {
    hide KeyText, KeySeparator, KeyAlias;
    if |flatKeys| == 1 {
      assert KeyTexts(flatKeys) == [KeyText(flatKeys[0])];
      return KeyText(flatKeys[0]) + KeyAlias();
    }
    var parts: seq<string> := [];
    for i := 0 to |flatKeys|
      invariant |parts| == i && forall j :: 0 <= j < i ==> parts[j] == KeyText(flatKeys[j])
    {
      parts := parts + [KeyText(flatKeys[i])];
    }
    assert parts == KeyTexts(flatKeys);
    s := Join(parts, KeySeparator()) + KeyAlias();
  }

  /** Whether an element of the aggregation list is usable: not an object (skipped), or with valid names. */
  predicate GoodAggregate(env: Env, a: Json) {
    a.Obj? ==> Column(env, StringField(a.fields, "field")).Some?
               && ValidateIdentifier(env.uni, StringField(a.fields, "alias")).Some?
  }

  predicate GoodAggregates(env: Env, aggs: seq<Json>) { forall i :: 0 <= i < |aggs| ==> GoodAggregate(env, aggs[i]) }

  function AggregateOf(env: Env, a: Json): Aggregate
    requires a.Obj? && GoodAggregate(env, a)
  {
    Aggregate(FnOf(HavingGuard.ToUpper(env.uni, StringField(a.fields, "function"))), Column(env, StringField(a.fields, "field")).value,
              ValidateIdentifier(env.uni, StringField(a.fields, "alias")).value)
  }

  /** The aggregates of a rule in order; whatever is not an object is skipped. */
  function Chosen(env: Env, aggs: seq<Json>): seq<Aggregate>
    requires GoodAggregates(env, aggs)
  {
    if aggs == [] then []
    else (if aggs[0].Obj? then [AggregateOf(env, aggs[0])] else []) + Chosen(env, aggs[1..])
  }

  lemma {:induction false} ChosenSnoc(env: Env, aggs: seq<Json>, a: Json)
    requires GoodAggregates(env, aggs) && GoodAggregate(env, a)
    ensures GoodAggregates(env, aggs + [a])
    ensures Chosen(env, aggs + [a]) == Chosen(env, aggs) + (if a.Obj? then [AggregateOf(env, a)] else [])
  {
    hide GoodAggregate, AggregateOf;
    if aggs == [] {
      assert aggs + [a] == [a];
    } else {
      assert (aggs + [a])[1..] == aggs[1..] + [a];
      ChosenSnoc(env, aggs[1..], a);
    }
  }

  lemma {:induction false} ChosenGood(env: Env, aggs: seq<Json>)
    requires GoodAggregates(env, aggs)
    ensures GoodItems(Chosen(env, aggs))
  {
    hide ValidateIdentifier, Column, IsIdentifier, StringField;
    if aggs != [] { ChosenGood(env, aggs[1..]); }
  }

  /** The names a HAVING text of the rule may use. */
  function Aliases(items: seq<Aggregate>): set<string> { set i | 0 <= i < |items| :: items[i].alias }

  lemma {:induction false} TextsSnoc(items: seq<Aggregate>, g: Aggregate)
    ensures AggregateTexts(items + [g]) == AggregateTexts(items) + [AggregateText(g)]
    ensures Aliases(items + [g]) == Aliases(items) + {g.alias}
  {
    hide AggregateText;
    if items == [] {
      assert items + [g] == [g];
    } else {
      assert (items + [g])[1..] == items[1..] + [g];
      TextsSnoc(items[1..], g);
    }
    assert forall i :: 0 <= i < |items| ==> (items + [g])[i] == items[i];
    assert (items + [g])[|items|] == g;
  }

  /** The select items of the aggregates and their names, or None when a name is not an identifier. */
  method Aggregates(env: Env, aggs: seq<Json>) returns (r: Option<(string, set<string>)>)
    ensures r.Some? <==> GoodAggregates(env, aggs)
    ensures r.Some? ==> r.value == (AggregatesText(Chosen(env, aggs)), Aliases(Chosen(env, aggs)))
  {
    hide ValidateIdentifier, Column, StringField, Join, AggregateText, Aliases, FnOf;
    var aggSelects: seq<string> := [];
    var aggAliases: set<string> := {};
    NoAliases();
    for i := 0 to |aggs|
      invariant GoodAggregates(env, aggs[..i])
      invariant aggSelects == AggregateTexts(Chosen(env, aggs[..i])) && aggAliases == Aliases(Chosen(env, aggs[..i]))
    {
      assert aggs[..i + 1] == aggs[..i] + [aggs[i]];
      if aggs[i].Obj? {
        var field := Column(env, StringField(aggs[i].fields, "field"));
        if field.None? { return None; }
        var alias := ValidateIdentifier(env.uni, StringField(aggs[i].fields, "alias"));
        if alias.None? { return None; }
        aggAliases := aggAliases + {alias.value};
        var item := Aggregate(FnOf(HavingGuard.ToUpper(env.uni, StringField(aggs[i].fields, "function"))), field.value, alias.value);
        TextsSnoc(Chosen(env, aggs[..i]), item);
        aggSelects := aggSelects + [AggregateText(item)];
      }
      ChosenSnoc(env, aggs[..i], aggs[i]);
      if !aggs[i].Obj? { assert Chosen(env, aggs[..i]) + [] == Chosen(env, aggs[..i]); }
    }
    assert aggs[..|aggs|] == aggs;
    r := Some((Join(aggSelects, ", "), aggAliases));
  }

  lemma NoAliases()
    ensures Aliases([]) == {}
  {
  }

  /** The HAVING text a query is built with: a rejected one is ignored. */
  function AcceptedHaving(u: Unicode, having: string, aliases: set<string>): (s: string)
    ensures Plain(s) && '\'' !in s
  {
    hide HavingGuard.KnownNames, HavingGuard.ParseHavingExpression, HavingGuard.AllSafe;
    match HavingGuard.ParseHavingExpression(u, having, aliases)
    case Accepted(text) => SafeUnquoted(text); text
    case Rejected => ""
  }

  lemma SafeUnquoted(s: string)
    requires HavingGuard.AllSafe(s)
    ensures '\'' !in s
  {
  }

  // ------------------------------------------------------------- the text up to WHERE starts and ends in code

  lemma KeyNeutral(col: string)
    requires IsIdentifier(col) && Plain(col)
    ensures Neutral(KeyText(col))
  {
    hide Neutral, Reads, KeyFront, KeyFrontTokens, IsIdentifier;
    ReadsKeyFront(col, "");
    KeyFrontPlain(col);
    ReadsIsCalm(KeyFront(col), KeyFrontTokens(col));
    BlandNeutral(KeyFront(col));
    QuotedNeutral("N/A");
    BlandNeutral(")");
    NeutralJoin(KeyFront(col), "'" + "N/A" + "'");
    NeutralJoin(KeyFront(col) + ("'" + "N/A" + "'"), ")");
  }

  lemma KeySeparators()
    ensures Neutral(KeySeparator()) && Neutral(KeyAlias())
  {
    hide Neutral, Reads, KeyAlias;
    BlandNeutral(" || ");
    QuotedNeutral("|");
    NeutralJoin(" || ", "'" + "|" + "'");
    NeutralJoin(" || " + ("'" + "|" + "'"), " || ");
    NothingApart();
    ReadsKeyAlias("");
    ReadsIsCalm(KeyAlias(), [Word("as"), Word("groupkey")]);
    BlandNeutral(KeyAlias());
  }

  lemma KeysNeutral(cols: Option<seq<string>>)
    requires cols.Some? ==> GoodColumns(cols.value)
    ensures Neutral(KeysText(cols))
  {
    hide Neutral, KeyText, KeySeparator, KeyAlias, IsIdentifier, Join;
    KeySeparators();
    match cols {
      case None =>
        QuotedNeutral("__GLOBAL__");
        NeutralJoin("'" + "__GLOBAL__" + "'", KeyAlias());
      case Some(cs) =>
        var texts := KeyTexts(cs);
        forall i | 0 <= i < |texts| ensures Neutral(texts[i]) { KeyNeutral(cs[i]); }
        NeutralParts(texts, KeySeparator());
        NeutralJoin(Join(texts, KeySeparator()), KeyAlias());
    }
  }

  lemma WindowNeutral(seconds: nat)
    ensures Neutral(SelectFront() + Span(seconds) + WindowBack())
  {
    hide Neutral, Decimal, SelectFront, WindowBack;
    WindowCalm();
    BlandNeutral(SelectFront());
    QuotedNeutral(Decimal(seconds) + " seconds");
    BlandNeutral(WindowBack());
    NeutralJoin(SelectFront(), Span(seconds));
    NeutralJoin(SelectFront() + Span(seconds), WindowBack());
  }

  lemma BeforeNeutral(seconds: nat, cols: Option<seq<string>>, items: seq<Aggregate>)
    requires (cols.Some? ==> GoodColumns(cols.value)) && GoodItems(items)
    ensures After(Before(seconds, cols, items), Code) == Code
  {
    hide Neutral, SelectFront, Span, WindowBack, KeysText, AggregatesText, GoodColumns, GoodItems, Reads;
    var window := SelectFront() + Span(seconds) + WindowBack();
    WindowNeutral(seconds);
    KeysNeutral(cols);
    CommaGap("");
    AggregatesGap(items, "");
    BlandNeutral("," + (GAP + INDENT));
    NeutralJoin(window, KeysText(cols));
    NeutralJoin(window + KeysText(cols), "," + (GAP + INDENT));
    EndsInCode(window + KeysText(cols) + ("," + (GAP + INDENT)), AggregatesText(items) + (GAP + INDENT));
  }

  lemma EndsInCode(a: string, b: string)
    requires Neutral(a) && Bland(b) && b != ""
    ensures After(a + b, Code) == Code
  {
    AfterJoin(a, b, Code);
    BlandStays(b, After(a, Code));
  }

  // ------------------------------------------------------------- the query

  /** Whether every name the rule's grouping and aggregation mention is a valid identifier. */
  predicate ValidNames(env: Env, groupingKeys: seq<string>, aggs: seq<Json>) {
    (IsGlobal(groupingKeys) || GoodKeys(env, groupingKeys)) && GoodAggregates(env, aggs)
  }

  /** The text in front of the search condition. */
  function Head(before: string, column: string, source: string): string { before + column + FromText() + source + (GAP + "WHERE ") }

  /** Query text and parameters of a historical analysis, or None when a name of the rule is invalid. The text is
      `before`, the threshold column, FROM and the source, the WHERE clause and `tail`. What `before` and `tail` read as is
      the window, the columns and the aggregates of the rule, in order; the threshold column is true for a row exactly when
      there is an accepted HAVING text and it is true there. */
  method BuildAnalysisQuery(env: Env, groupingKeys: seq<string>, aggs: seq<Json>, sizeMs: Option<int>, filters: Json,
                            having: string, source: string, from: string, to: string, ghost reserved: set<string>)
    returns (r: Option<Query>, ghost before: string, ghost column: string, ghost tail: string)
    requires env.codes != []
    ensures r.Some? <==> ValidNames(env, groupingKeys, aggs)
    ensures r.Some? ==>
              && r.value.text == Head(before, column, source) + (WhereText(GAP, Compiled(env, filters).0) + tail)
              && r.value.params == [Str(from), Str(to)] + Compiled(env, filters).1
    ensures r.Some? ==> var cols := GroupedBy(env, groupingKeys);
              && Lexemes(before) == Some(SelectLexemes(WindowSeconds(sizeMs), cols, Chosen(env, aggs)))
              && Lex(FromText()) == Some([Word("from")])
              && Lex(tail) == Some(OrderingTokens(cols)) && Apart(tail)
    ensures r.Some? ==>
              match HavingGuard.ParseHavingExpression(env.uni, having, Aliases(Chosen(env, aggs)))
              case Accepted(text) => forall v :: FlagValue(column, text, v) == Some(if text != "" && v == Yes then Yes else No)
              case Rejected => forall v :: FlagValue(column, "", v) == Some(No)
    ensures r.Some? ==> Marks(r.value.text) == |r.value.params| + Marks(source)
    ensures r.Some? && Dialect(reserved) && {WINDOW_FIELD} + FilterColumns(env, filters) !! reserved ==>
              var text := Lex(WhereText(GAP, Compiled(env, filters).0) + tail);
              text.Some? && ParseOr(reserved, text.value) == Some((WhereTree(env, filters, from, to), Lex(tail).value))
    ensures r.Some? && Scannable(source) ==>
              (Live(r.value.text, Code) == |r.value.params| + Live(source, Code)
               <==> !InBlock(After(AcceptedHaving(env.uni, having, Aliases(Chosen(env, aggs))), Code)))
  {
    hide Dialect, Aliases, After, Live, Scannable, FilterColumns, WhereTree, ParseOr, Lexemes, SelectLexemes, FlagValue,
         Lex, Column, Compiled, WhereText, Tail, OrderingTokens, FromText, Marks, Apart, ThresholdColumn, Before, SelectFront, Span, WindowBack,
         FilterBuilder.PieceOf, Prune, Decimal, GoodAggregate, Chosen, GoodItems, GoodColumns, KeysText, AggregatesText;
    hide HavingGuard.ParseHavingExpression, HavingGuard.AllSafe, HavingGuard.KnownNames, Plain;
    r, before, column, tail := None, "", "", "";
    var isGlobal := IsGlobal(groupingKeys);
    var cols: Option<seq<string>> := None;
    var selectKeys := KeysText(None);
    if !isGlobal {
      cols := GroupColumns(env, groupingKeys);
      if cols.None? { return; }
      ColumnsAreGood(env, groupingKeys);
      selectKeys := SelectKeys(cols.value);
    }
    var agg := Aggregates(env, aggs);
    if agg.None? { return; }
    var (aggClause, aliases) := agg.value;
    var parsedWhere, filterParams := FilterBuilder.ParseFilterNode(env, filters);
    var accepted := AcceptedHaving(env.uni, having, aliases);
    var seconds := WindowSeconds(sizeMs);
    var top := SelectFront() + Span(seconds) + WindowBack() + selectKeys + ("," + (GAP + INDENT)) + (aggClause + (GAP + INDENT));
    var threshold := ThresholdColumn(accepted);
    var text := top + threshold + FromText() + source + (GAP + "WHERE ") + (WhereText(GAP, parsedWhere) + Tail(cols));
    r := Some(Query(text, [Str(from), Str(to)] + filterParams));

    ghost var items := Chosen(env, aggs);
    ChosenGood(env, aggs);
    before, column, tail := top, threshold, Tail(cols);
    assert before == Before(seconds, cols, items) by { BeforeIs(seconds, cols, items); }
    SelectReads(seconds, cols, items);
    TailReads(cols);
    FromReads();
    forall v ensures FlagValue(column, accepted, v) == Some(if accepted != "" && v == Yes then Yes else No) { ThresholdValue(accepted, v); }
    AcceptedCases(env.uni, having, aliases);
    Assembled(env, filters, from, to, before, accepted, source, tail, reserved);
    if Scannable(source) {
      BeforeNeutral(seconds, cols, items);
      LivePlaceholders(env, filters, from, to, before, accepted, source, Head(before, column, source), tail);
    }
  }

  lemma BeforeIs(seconds: nat, cols: Option<seq<string>>, items: seq<Aggregate>)
    ensures Before(seconds, cols, items)
            == SelectFront() + Span(seconds) + WindowBack() + KeysText(cols) + ("," + (GAP + INDENT)) + (AggregatesText(items) + (GAP + INDENT))
  {
  }

  lemma AcceptedCases(u: Unicode, having: string, aliases: set<string>)
    ensures match HavingGuard.ParseHavingExpression(u, having, aliases)
            case Accepted(text) => AcceptedHaving(u, having, aliases) == text
            case Rejected => AcceptedHaving(u, having, aliases) == ""
  {
    hide HavingGuard.ParseHavingExpression;
  }

  /** The marks of the assembled text, and the parse of its WHERE clause. */
  lemma Assembled(env: Env, filters: Json, from: string, to: string, before: string, accepted: string, source: string, tail: string,
                  reserved: set<string>)
    requires env.codes != [] && Plain(before) && Plain(accepted) && Plain(tail) && Apart(tail)
    requires Lex(tail).Some? && At(Lex(tail).value, Word("group"))
    ensures var head := Head(before, ThresholdColumn(accepted), source);
            Marks(head + (WhereText(GAP, Compiled(env, filters).0) + tail)) == |[Str(from), Str(to)] + Compiled(env, filters).1| + Marks(source)
    ensures Dialect(reserved) && {WINDOW_FIELD} + FilterColumns(env, filters) !! reserved ==>
              var text := Lex(WhereText(GAP, Compiled(env, filters).0) + tail);
              text.Some? && ParseOr(reserved, text.value) == Some((WhereTree(env, filters, from, to), Lex(tail).value))
  {
    hide Dialect, FilterColumns, WhereTree, ParseOr, Lex, Compiled, WhereText, FromText, Marks, Apart, ThresholdColumn;
    ThresholdPlain(accepted);
    FromReads();
    GapIsPlain();
    var top := before + ThresholdColumn(accepted) + FromText();
    HeadMarks(top, source, GAP + "WHERE ");
    PlaceholdersMatchParameters(env, filters, from, to, GAP, Head(before, ThresholdColumn(accepted), source), tail, source);
    if Dialect(reserved) && {WINDOW_FIELD} + FilterColumns(env, filters) !! reserved {
      WhereStopsAt(env, reserved, filters, from, to, tail, Lex(tail).value);
    }
  }

  lemma GapIsPlain()
    ensures Plain(GAP)
  {
  }

  lemma HeadMarks(top: string, source: string, where: string)
    requires Plain(top) && Plain(where)
    ensures Marks(top + source + where) == Marks(source)
  {
    hide Marks;
    NoMarks(top);
    NoMarks(where);
    MarksConcat(top, source);
    MarksConcat(top + source, where);
  }

  // ------------------------------------------------------------- alignment over the whole text

  lemma {:induction false} CompiledMarks(env: Env, node: Json)
    requires env.codes != []
    ensures Marks(Compiled(env, node).0) == |Compiled(env, node).1|
  {
    hide PlanText, PlanParams, Prune, GoodPlan;
    PruneGood(env, node);
    match Prune(env, node)
    case Some(p) => PlanMarks(p);
    case None =>
  }

  lemma BoundMarks(op: string)
    requires op in {">=", "<="}
    ensures Marks(TimeBound(op)) == 1
  {
    hide Marks, TimeBound, GoodLeaf;
    BoundIsLeaf(op, Null);
    LeafMarks(BoundLeaf(op, Null));
  }

  lemma WhereMarks(gap: string, filter: string)
    requires Plain(gap)
    ensures Marks(WhereText(gap, filter)) == 2 + Marks(filter)
  {
    hide Marks, TimeBound;
    var lo, hi, link := TimeBound(">="), TimeBound("<="), gap + "AND ";
    var last := if filter == "" then "" else "AND " + filter;
    BoundMarks(">=");
    BoundMarks("<=");
    NoMarks(link);
    NoMarks(gap);
    NoMarks("AND ");
    NoMarks("");
    MarksConcat("AND ", filter);
    MarksConcat(gap, last);
    MarksConcat(hi, gap + last);
    MarksConcat(link, hi + (gap + last));
    MarksConcat(lo, link + (hi + (gap + last)));
    assert WhereText(gap, filter) == lo + (link + (hi + (gap + last)));
  }

  /** Around any text: a query offers one placeholder per parameter exactly when its source names none. */
  lemma PlaceholdersMatchParameters(env: Env, node: Json, from: string, to: string, gap: string,
                                    head: string, tail: string, source: string)
    requires env.codes != [] && Plain(gap) && Plain(tail) && Marks(head) == Marks(source)
    ensures var params := [Str(from), Str(to)] + Compiled(env, node).1;
            var text := head + (WhereText(gap, Compiled(env, node).0) + tail);
            && Marks(text) == |params| + Marks(source)
            && (Marks(text) == |params| <==> Plain(source))
  {
    hide Compiled, WhereText, Marks;
    var filter := Compiled(env, node).0;
    CompiledMarks(env, node);
    WhereMarks(gap, filter);
    NoMarks(tail);
    MarksConcat(WhereText(gap, filter), tail);
    MarksConcat(head, WhereText(gap, filter) + tail);
    MarksPositive(source);
  }

  lemma {:induction false} MarksPositive(s: string)
    ensures Marks(s) == 0 <==> Plain(s)
  {
    if s != "" {
      assert s == [s[0]] + s[1..];
      MarksPositive(s[1..]);
    }
  }

  // ------------------------------------------------------------- placeholders the engine sees

  /** Read as code, the source ends in code, and it holds no end of a block comment. */
  predicate Scannable(source: string) { InCode(After(source, Code)) && NeverCloses(source) }

  lemma WhereIsBland(env: Env, node: Json, from: string, to: string, tail: string)
    requires env.codes != [] && Apart(tail) && Lex(tail).Some?
    ensures Bland(WhereText(GAP, Compiled(env, node).0) + tail)
  {
    hide Lex, Compiled, WhereText, Bland, Conjuncts, GoodPlans, PartTokens, Prune;
    ConjunctsGood(env, node, from, to);
    ReadsWhere(env, node, from, to, GAP, tail);
    LexIsCalm(WhereText(GAP, Compiled(env, node).0) + tail);
  }

  /** From the end of the HAVING text to the source: a line comment ends there, a block comment does not. */
  lemma AfterHaving(ctx: Context)
    requires !ctx.Quoted?
    ensures var link := CaseEnd() + FromText();
            && Live(link, ctx) == 0
            && (InBlock(ctx) ==> InBlock(After(link, ctx)))
            && (!InBlock(ctx) ==> After(link, ctx) == Code)
  {
    hide After, Live, CaseEnd, FromText;
    CaseTexts();
    FromReads();
    AfterJoin(CaseEnd(), FromText(), ctx);
    NoMarkLive(CaseEnd() + FromText(), ctx);
    if InBlock(ctx) {
      BlandJoin(CaseEnd(), FromText());
      BlandStaysInBlock(CaseEnd() + FromText(), ctx);
    } else {
      BackInCode(CaseEnd(), FromText(), ctx);
    }
  }

  lemma BlandStaysInBlock(s: string, ctx: Context)
    requires Bland(s) && InBlock(ctx)
    ensures InBlock(After(s, ctx))
  {
    assert forall i :: 0 <= i < |s| ==> s[i] in s;
    StaysInBlock(s, ctx);
  }

  lemma BackInCode(a: string, b: string, ctx: Context)
    requires (InCode(ctx) || ctx.Line?) && Bland(a) && Bland(b) && b != "" && b[0] == '\n'
    ensures After(b, After(a, ctx)) == Code
  {
    StaysOutside(a, ctx);
    if InCode(After(a, ctx)) {
      BlandStays(b, After(a, ctx));
    } else {
      assert After(b, Line) == After(b[1..], Code);
      BlandStays(b[1..], Code);
    }
  }

  lemma {:induction false} StaysOutside(s: string, ctx: Context)
    requires Bland(s) && (InCode(ctx) || ctx.Line?)
    ensures InCode(After(s, ctx)) || After(s, ctx).Line?
  {
    if s != "" {
      assert s[0] in s;
      StaysOutside(s[1..], Next(ctx, s[0]));
    }
  }

  /** Of the whole text, comments and quotes skipped, the engine sees one placeholder per parameter besides the
      source's own exactly when the HAVING text leaves no block comment open. */
  lemma LivePlaceholders(env: Env, node: Json, from: string, to: string, before: string, accepted: string, source: string,
                         head: string, tail: string)
    requires env.codes != [] && Plain(tail) && Apart(tail) && Lex(tail).Some?
    requires Plain(before) && After(before, Code) == Code && Plain(accepted) && '\'' !in accepted && Scannable(source)
    requires head == Head(before, ThresholdColumn(accepted), source)
    ensures Live(head + (WhereText(GAP, Compiled(env, node).0) + tail), Code) == |[Str(from), Str(to)] + Compiled(env, node).1| + Live(source, Code)
            <==> !InBlock(After(accepted, Code))
  {
    hide Compiled, WhereText, After, Live, Lex, Marks, ThresholdColumn, FromText, Bland, NeverCloses;
    var where := WhereText(GAP, Compiled(env, node).0) + tail;
    WhereIsBland(env, node, from, to, tail);
    WhereHasMarks(env, node, tail);
    FrontEnds(before, accepted);
    var front := before + ThresholdColumn(accepted) + FromText();
    assert head + where == front + (source + ((GAP + "WHERE ") + where));
    LiveBehind(front, source, where, InBlock(After(accepted, Code)));
  }

  lemma LiveBehind(front: string, source: string, where: string, broken: bool)
    requires Live(front, Code) == 0 && Scannable(source) && Bland(where) && Marks(where) >= 1
    requires if broken then InBlock(After(front, Code)) else After(front, Code) == Code
    ensures Live(front + (source + ((GAP + "WHERE ") + where)), Code) == Marks(where) + Live(source, Code) <==> !broken
  {
    hide After, Live, Marks, Bland, NeverCloses;
    var end := (GAP + "WHERE ") + where;
    EndMarks(where);
    AfterJoin(front, source + end, Code);
    if broken {
      StaysInBlockThrough(source, end, After(front, Code));
    } else {
      AfterJoin(source, end, Code);
      BlandStays(end, After(source, Code));
    }
  }

  lemma WhereHasMarks(env: Env, node: Json, tail: string)
    requires env.codes != [] && Plain(tail)
    ensures Marks(WhereText(GAP, Compiled(env, node).0) + tail) == 2 + |Compiled(env, node).1|
  {
    hide Compiled, WhereText, Marks;
    GapIsPlain();
    CompiledMarks(env, node);
    WhereMarks(GAP, Compiled(env, node).0);
    NoMarks(tail);
    MarksConcat(WhereText(GAP, Compiled(env, node).0), tail);
  }

  lemma EndMarks(where: string)
    requires Bland(where)
    ensures var end := (GAP + "WHERE ") + where; Bland(end) && Marks(end) == Marks(where) && end != "" && end[0] == '\n'
  {
    hide Marks;
    var gap := GAP + "WHERE ";
    assert Plain(gap) && Bland(gap) && gap[0] == '\n';
    NoMarks(gap);
    MarksConcat(gap, where);
  }

  lemma FrontEnds(before: string, accepted: string)
    requires Plain(before) && After(before, Code) == Code && Plain(accepted) && '\'' !in accepted
    ensures var front := before + ThresholdColumn(accepted) + FromText();
            && Live(front, Code) == 0
            && (InBlock(After(accepted, Code)) ==> InBlock(After(front, Code)))
            && (!InBlock(After(accepted, Code)) ==> After(front, Code) == Code)
  {
    hide After, Live, Plain, CaseOpen, CaseEnd, NoCase, FromText;
    PlainMeans(before);
    NoMarkLive(before, Code);
    if accepted == "" {
      assert before + ThresholdColumn(accepted) + FromText() == before + (NoCase() + FromText());
      AfterJoin(before, NoCase() + FromText(), Code);
      NoCaseFront();
      NothingAfter();
    } else {
      var link := CaseEnd() + FromText();
      assert before + ThresholdColumn(accepted) + FromText() == before + (CaseOpen() + (accepted + link));
      AfterJoin(before, CaseOpen() + (accepted + link), Code);
      AfterJoin(CaseOpen(), accepted + link, Code);
      CaseFront();
      AfterJoin(accepted, link, Code);
      PlainMeans(accepted);
      NoMarkLive(accepted, Code);
      NeverQuoted(accepted, Code);
      AfterHaving(After(accepted, Code));
    }
  }

  lemma NoCaseFront()
    ensures After(NoCase() + FromText(), Code) == Code && Live(NoCase() + FromText(), Code) == 0
  {
    hide After, Live, NoCase, FromText;
    CaseTexts();
    FromReads();
    BlandJoin(NoCase(), FromText());
    BlandStays(NoCase() + FromText(), Code);
    NoMarkLive(NoCase() + FromText(), Code);
  }

  lemma CaseFront()
    ensures After(CaseOpen(), Code) == Code && Live(CaseOpen(), Code) == 0
  {
    hide After, Live, CaseOpen;
    CaseTexts();
    BlandStays(CaseOpen(), Code);
    NoMarkLive(CaseOpen(), Code);
  }

  lemma PlainMeans(s: string)
    requires Plain(s)
    ensures '?' !in s
  {
  }

  lemma NothingAfter()
    ensures After("", Code) == Code
  {
  }

  lemma StaysInBlockThrough(source: string, end: string, ctx: Context)
    requires InBlock(ctx) && NeverCloses(source) && Bland(end) && end != "" && end[0] == '\n'
    ensures Live(source + end, ctx) == 0
  {
    var s := source + end;
    forall i | 0 <= i < |s| - 1 ensures !(s[i] == '*' && s[i + 1] == '/') {
      if i >= |source| { assert s[i] in end; }
    }
    StaysInBlock(s, ctx);
  }

  /** A word that is neither AND, OR nor IS ends the search condition: the clause after WHERE parses as the
      intended conjunction with the rest of the query behind it. */
  lemma WhereStopsAt(env: Env, reserved: set<string>, node: Json, from: string, to: string, t: string, rest: seq<Token>)
    requires env.codes != [] && Dialect(reserved) && Apart(t) && Lex(t) == Some(rest)
    requires rest != [] && rest[0] !in {Word("is"), Word("and"), Word("or")}
    requires {WINDOW_FIELD} + FilterColumns(env, node) !! reserved
    ensures var text := Lex(WhereText(GAP, Compiled(env, node).0) + t);
            text.Some? && ParseOr(reserved, text.value) == Some((WhereTree(env, node, from, to), rest))
  {
    hide Lex, Compiled, WhereText, Dialect, FilterColumns, WhereTree, ParseAnd, Apart;
    WhereParses(env, reserved, node, from, to, GAP, t, rest);
  }

  /** The score histogram appends one more conjunct: it joins the conjunction, whatever the filter was. */
  lemma AppendedConjunct(env: Env, reserved: set<string>, node: Json, from: string, to: string, gap: string,
                         t: string, col: string, more: seq<Token>)
    requires env.codes != [] && Dialect(reserved) && Gap(gap) && Apart(t) && col !in reserved
    requires Lex(t) == Some([Word("and"), Word(col), Word("is"), Word("not"), Word("null")] + more)
    requires more != [] && more[0] !in {Word("is"), Word("and"), Word("or")}
    requires {WINDOW_FIELD} + FilterColumns(env, node) !! reserved
    ensures var text := Lex(WhereText(gap, Compiled(env, node).0) + t);
            text.Some? && ParseOr(reserved, text.value)
                          == Some((And(WhereTree(env, node, from, to), Pred(NullTest(true), col, 0)), more))
  {
    hide Lex, Compiled, WhereText, FilterColumns, WhereTree, ParseAnd, Apart, Gap, ParseMarks, ParseCall;
    var test := [Word(col), Word("is"), Word("not"), Word("null")] + more;
    var rest := [Word("and")] + test;
    assert rest == [Word("and"), Word(col), Word("is"), Word("not"), Word("null")] + more;
    WhereParses(env, reserved, node, from, to, gap, t, rest);
    assert "not" in reserved && test[4..] == more && rest[1..] == test;
    assert ParsePredicate(reserved, test) == Some((Pred(NullTest(true), col, 0), more));
    assert ParseTest(reserved, test) == Some((Pred(NullTest(true), col, 0), more));
    assert ParseFactor(reserved, test) == Some((Pred(NullTest(true), col, 0), more));
  }

  // ------------------------------------------------------------- the breakdown queries

  const NARROW_GAP := "\n\t\t"

  function BaseWhere(filter: string): string { NARROW_GAP + "WHERE " + WhereText(NARROW_GAP, filter) }

  function ModalityQuery(selects: string, source: string, filter: string): string {
    "SELECT " + selects + " FROM " + source + " " + BaseWhere(filter)
  }

  function CategoryQuery(labelExpr: string, source: string, filter: string, extra: string, order: string): string {
    "SELECT " + labelExpr + " AS label, COUNT(*) AS count" + " FROM " + source + " " + BaseWhere(filter) + " " + extra + " GROUP BY 1 " + order
  }

  function HistogramLabel(): string {
    "SELECT CAST(bucket_start AS " + ("VARCHAR) || '-' || CAST(" + ("bucket_start + 10 AS VARCHAR) AS " + "label, COUNT(*) AS count"))
  }

  function HistogramInner(): string {
    "FROM (" + (NARROW_GAP + ("\tSELECT FLOOR(finger" + ("matchscore / 10) * 10 AS " + ("bucket_start" + (NARROW_GAP + "\tFROM ")))))
  }

  function HistogramTest(): string {
    NARROW_GAP + ("\t" + ("AND" + (" " + ("fingermatchscore" + (" " + ("IS" + (" " + ("NOT" + (" " + ("NULL" + HistogramOrder()))))))))))
  }

  function HistogramOrder(): string {
    NARROW_GAP + (")" + (" " + ("t" + (NARROW_GAP + ("GROUP" + (" " + ("BY" + (" " + ("bucket_start"
    + (NARROW_GAP + ("ORDER" + (" " + ("BY" + (" " + "bucket_start"))))))))))))))
  }

  function HistogramTop(): string { NARROW_GAP + (HistogramLabel() + (NARROW_GAP + HistogramInner())) }

  function HistogramQuery(source: string, filter: string): string {
    HistogramTop() + source + (NARROW_GAP + "\t") + (BaseWhere(filter) + HistogramTest())
  }

  /** Each breakdown query repeats the same WHERE clause and takes the same parameters. */
  lemma BreakdownPlaceholders(env: Env, node: Json, from: string, to: string, source: string,
                              selects: string, labelExpr: string, extra: string, order: string)
    requires env.codes != [] && Plain(selects) && Plain(labelExpr) && Plain(extra) && Plain(order)
    ensures var (filter, ps) := Compiled(env, node);
            var n := |[Str(from), Str(to)] + ps| + Marks(source);
            && Marks(ModalityQuery(selects, source, filter)) == n
            && Marks(CategoryQuery(labelExpr, source, filter, extra, order)) == n
            && Marks(HistogramQuery(source, filter)) == n
  {
    HistogramPlaceholders(env, node, from, to, source);
    SelectPlaceholders(env, node, from, to, source, selects, labelExpr, extra, order);
    hide Marks, HistogramQuery, ModalityQuery, CategoryQuery, Compiled;
  }

  lemma SelectPlaceholders(env: Env, node: Json, from: string, to: string, source: string,
                           selects: string, labelExpr: string, extra: string, order: string)
    requires env.codes != [] && Plain(selects) && Plain(labelExpr) && Plain(extra) && Plain(order)
    ensures var (filter, ps) := Compiled(env, node);
            var n := |[Str(from), Str(to)] + ps| + Marks(source);
            && Marks(ModalityQuery(selects, source, filter)) == n
            && Marks(CategoryQuery(labelExpr, source, filter, extra, order)) == n
  {
    hide Marks, Compiled, WhereText;
    var filter := Compiled(env, node).0;
    var lead := " " + (NARROW_GAP + "WHERE ");
    var where := WhereText(NARROW_GAP, filter);
    HeadMarks("SELECT " + selects + " FROM ", source, lead);
    PlaceholdersMatchParameters(env, node, from, to, NARROW_GAP, "SELECT " + selects + " FROM " + source + lead, "", source);
    var head := "SELECT " + selects + " FROM " + source + lead;
    assert head + (where + "") == ModalityQuery(selects, source, filter);
    CategoryLayout("SELECT " + labelExpr + " AS label, COUNT(*) AS count" + " FROM " + source, NARROW_GAP + "WHERE ", where, extra, order);
    var head2 := "SELECT " + labelExpr + " AS label, COUNT(*) AS count" + " FROM " + source + lead;
    HeadMarks("SELECT " + labelExpr + " AS label, COUNT(*) AS count" + " FROM ", source, lead);
    PlaceholdersMatchParameters(env, node, from, to, NARROW_GAP, head2, " " + extra + " GROUP BY 1 " + order, source);
  }

  lemma HistogramPlaceholders(env: Env, node: Json, from: string, to: string, source: string)
    requires env.codes != []
    ensures var (filter, ps) := Compiled(env, node);
            Marks(HistogramQuery(source, filter)) == |[Str(from), Str(to)] + ps| + Marks(source)
  {
    hide Marks, Compiled, WhereText, Plain, HistogramTop, HistogramTest;
    var filter := Compiled(env, node).0;
    var top, lead := HistogramTop(), NARROW_GAP + "\t" + (NARROW_GAP + "WHERE ");
    var where := WhereText(NARROW_GAP, filter);
    HistogramPlain();
    HeadMarks(top, source, lead);
    PlaceholdersMatchParameters(env, node, from, to, NARROW_GAP, top + source + lead, HistogramTest(), source);
    assert HistogramQuery(source, filter) == top + source + lead + (where + HistogramTest());
  }

  lemma PlainJoin(a: string, b: string)
    ensures Plain(a + b) <==> Plain(a) && Plain(b)
  {
  }

  lemma HistogramPlain()
    ensures Plain(HistogramTop()) && Plain(NARROW_GAP) && Plain(HistogramTest())
    ensures Plain(NARROW_GAP + "\t" + (NARROW_GAP + "WHERE "))
  {
    NarrowPlain();
    hide Plain, HistogramLabel, HistogramInner, HistogramTest, Lex;
    HistogramTopPlain();
    HistogramEndReads();
    PlainJoin(NARROW_GAP, HistogramInner());
    PlainJoin(HistogramLabel(), NARROW_GAP + HistogramInner());
    PlainJoin(NARROW_GAP, HistogramLabel() + (NARROW_GAP + HistogramInner()));
  }

  lemma NarrowPlain()
    ensures Plain(NARROW_GAP) && Plain(NARROW_GAP + "\t" + (NARROW_GAP + "WHERE "))
  {
  }

  lemma HistogramTopPlain()
    ensures Plain(HistogramLabel()) && Plain(HistogramInner())
  {
    HistogramLabelPlain();
    HistogramInnerPlain();
    hide Plain, HistogramLabel, HistogramInner;
  }

  /** Plain, one place at a time. */
  predicate Unmarked(s: string) { forall i :: 0 <= i < |s| ==> s[i] != '?' }

  lemma UnmarkedIsPlain(s: string)
    requires Unmarked(s)
    ensures Plain(s)
  {
  }

  lemma HistogramLabelPlain()
    ensures Plain(HistogramLabel())
  {
    assert Unmarked("SELECT CAST(bucket_start AS ") && Unmarked("VARCHAR) || '-' || CAST(");
    assert Unmarked("bucket_start + 10 AS VARCHAR) AS ") && Unmarked("label, COUNT(*) AS count");
    UnmarkedIsPlain(HistogramLabel());
  }

  lemma HistogramInnerPlain()
    ensures Plain(HistogramInner())
  {
    assert Unmarked("FROM (") && Unmarked("\tSELECT FLOOR(finger") && Unmarked("matchscore / 10) * 10 AS ") && Unmarked("bucket_start") && Unmarked("\tFROM ");
    UnmarkedIsPlain(HistogramInner());
  }

  lemma FingerWord()
    ensures FoldsTo("fingermatch", "fingermatch")
  {
    assert FoldsTo("finger", "finger");
    assert FoldsTo("match", "match");
    FoldsJoin("finger", "finger", "match", "match", "fingermatch", "fingermatch");
  }

  lemma BucketWord()
    ensures FoldsTo("bucket_start", "bucket_start")
  {
    BucketPart();
    assert FoldsTo("_start", "_start");
    hide FoldsTo;
    FoldsJoin("bucket", "bucket", "_start", "_start", "bucket_start", "bucket_start");
  }

  lemma ScoreWord()
    ensures FoldsTo("score", "score") && FoldsTo("t", "t")
  {
  }

  lemma HistogramWords()
    ensures FoldsTo("fingermatchscore", "fingermatchscore") && FoldsTo("bucket_start", "bucket_start") && FoldsTo("t", "t")
  {
    hide FoldsTo;
    FingerWord();
    BucketWord();
    ScoreWord();
    FoldsJoin("fingermatch", "fingermatch", "score", "score", "fingermatchscore", "fingermatchscore");
  }

  function OrderedTokens(): seq<Token> {
    [Sym(")"), Word("t"), Word("group"), Word("by"), Word("bucket_start"), Word("order"), Word("by"), Word("bucket_start")]
  }

  lemma NarrowGap(s: string)
    ensures Gap(NARROW_GAP) && Gap("\t") && Breaks(NARROW_GAP + s) && Apart(NARROW_GAP + s)
  {
  }

  lemma HistogramOrderReads()
    ensures Reads(HistogramOrder(), OrderedTokens(), "")
  {
    hide Lex, Reads, FoldsTo, Gap, Breaks, Apart;
    HistogramWords();
    TailWords();
    NothingApart();
    ReadsLastWord("bucket_start", "bucket_start", "");
    var s, ts := "bucket_start", [Word("bucket_start")];
    ReadsSpaced("BY", "by", s, ts, "");
    s, ts := "BY" + (" " + s), [Word("by")] + ts;
    ReadsSpaced("ORDER", "order", s, ts, "");
    s, ts := "ORDER" + (" " + s), [Word("order")] + ts;
    NarrowGap(s);
    ReadsGap(NARROW_GAP, s, ts, "");
    ReadsWord("bucket_start", "bucket_start", NARROW_GAP + s, ts, "");
    s, ts := "bucket_start" + (NARROW_GAP + s), [Word("bucket_start")] + ts;
    ReadsSpaced("BY", "by", s, ts, "");
    s, ts := "BY" + (" " + s), [Word("by")] + ts;
    ReadsSpaced("GROUP", "group", s, ts, "");
    s, ts := "GROUP" + (" " + s), [Word("group")] + ts;
    NarrowGap(s);
    ReadsGap(NARROW_GAP, s, ts, "");
    ReadsWord("t", "t", NARROW_GAP + s, ts, "");
    s, ts := "t" + (NARROW_GAP + s), [Word("t")] + ts;
    ReadsBlank(s, ts, "");
    ReadsSingle(")", " " + s, ts, "");
    ReadsGap(NARROW_GAP, ")" + (" " + s), [Sym(")")] + ts, "");
    assert [Sym(")")] + ts == OrderedTokens();
  }

  /** The text after the filter of the histogram: one more NOT NULL test, then the end of the inner query. */
  lemma HistogramEndReads()
    ensures Lex(HistogramTest()) == Some([Word("and"), Word("fingermatchscore"), Word("is"), Word("not"), Word("null")] + OrderedTokens())
    ensures Plain(HistogramTest()) && Apart(HistogramTest())
  {
    hide Lex, Reads, FoldsTo, Gap, Breaks, Apart, HistogramOrder;
    HistogramWords();
    FixedWords();
    HistogramOrderReads();
    var s, ts := HistogramOrder(), OrderedTokens();
    OrderBreaks();
    ReadsWord("NULL", "null", s, ts, "");
    s, ts := "NULL" + s, [Word("null")] + ts;
    ReadsSpaced("NOT", "not", s, ts, "");
    s, ts := "NOT" + (" " + s), [Word("not")] + ts;
    ReadsSpaced("IS", "is", s, ts, "");
    s, ts := "IS" + (" " + s), [Word("is")] + ts;
    ReadsSpaced("fingermatchscore", "fingermatchscore", s, ts, "");
    s, ts := "fingermatchscore" + (" " + s), [Word("fingermatchscore")] + ts;
    ReadsSpaced("AND", "and", s, ts, "");
    s, ts := "AND" + (" " + s), [Word("and")] + ts;
    NarrowGap("\t" + s);
    ReadsGap("\t", s, ts, "");
    ReadsGap(NARROW_GAP, "\t" + s, ts, "");
    assert ts == [Word("and"), Word("fingermatchscore"), Word("is"), Word("not"), Word("null")] + OrderedTokens();
    ReadsIsCalm(HistogramTest(), ts);
  }

  lemma OrderBreaks()
    ensures Breaks(HistogramOrder())
  {
    assert HistogramOrder()[0] == '\n';
  }

  /** In the histogram query the search condition is the conjunction with that test, up to the parenthesis behind it. */
  lemma HistogramParses(env: Env, reserved: set<string>, node: Json, from: string, to: string, source: string)
    requires env.codes != [] && Dialect(reserved) && "fingermatchscore" !in reserved
    requires {WINDOW_FIELD} + FilterColumns(env, node) !! reserved
    ensures var where := WhereText(NARROW_GAP, Compiled(env, node).0) + HistogramTest();
            && HistogramQuery(source, Compiled(env, node).0) == HistogramTop() + source + (NARROW_GAP + "\t") + (NARROW_GAP + "WHERE ") + where
            && Lex(where).Some?
            && ParseOr(reserved, Lex(where).value)
               == Some((And(WhereTree(env, node, from, to), Pred(NullTest(true), "fingermatchscore", 0)), OrderedTokens()))
  {
    hide Lex, Compiled, WhereText, FilterColumns, WhereTree, ParseOr, HistogramTest, HistogramTop, Dialect, Gap, Apart;
    HistogramEndReads();
    NarrowGap("");
    AppendedConjunct(env, reserved, node, from, to, NARROW_GAP, HistogramTest(), "fingermatchscore", OrderedTokens());
  }

  lemma CategoryLayout(top: string, lead: string, where: string, extra: string, order: string)
    ensures top + " " + (lead + where) + " " + extra + " GROUP BY 1 " + order
            == top + (" " + lead) + (where + (" " + extra + " GROUP BY 1 " + order))
  {
  }
}
