/** What the fields and comma texts of a filter tree stand for: which column a field names, which items a text lists. */
module FilterFields {
  import opened Prelude
  import opened Text
  import opened SqlLexer
  import opened SqlGrammar
  import opened FilterCompiler
  import opened FilterLexing
  import opened FilterMeaning

  // ------------------------------------------------------------- comma texts

  /** Commas divide a text into its pieces. */
  lemma {:induction false} SplitJoined(parts: seq<string>, sep: char)
    requires parts != [] && forall i :: 0 <= i < |parts| ==> sep !in parts[i]
    ensures Split(Join(parts, [sep]), sep) == parts
    decreases |parts|, if parts == [] then 0 else |parts[0]|
  {
    var p := parts[0];
    var s := Join(parts, [sep]);
    if p == "" {
      if |parts| > 1 {
        assert s == [sep] + Join(parts[1..], [sep]) && s[1..] == Join(parts[1..], [sep]);
        SplitJoined(parts[1..], sep);
      }
      assert parts == [""] + parts[1..];
    } else {
      var shorter := [p[1..]] + parts[1..];
      assert s[0] == p[0] && s[1..] == Join(shorter, [sep]) && p[0] in p && p == [p[0]] + p[1..];
      SplitJoined(shorter, sep);
      assert parts == [[p[0]] + shorter[0]] + shorter[1..];
    }
  }

  predicate CommaFree(parts: seq<string>) { forall i :: 0 <= i < |parts| ==> ',' !in parts[i] }

  /** `item` is the text without the white space around it. */
  ghost predicate Trims(u: Unicode, text: string, item: string) { exists i: nat, j: nat :: Core(u, text, i, j) && item == text[i..j] }

  lemma TrimmedItem(u: Unicode, text: string, item: string)
    requires Trims(u, text, item)
    ensures TrimSpace(u, text) == item
  {
    hide IsSpace, TrimSpace;
    var i: nat, j: nat :| Core(u, text, i, j) && item == text[i..j];
    TrimIsCore(u, text, i, j);
  }

  /** A comma text lists its pieces in order, each without the white space around it. */
  lemma ListedItems(u: Unicode, parts: seq<string>, items: seq<string>)
    requires parts != [] && CommaFree(parts) && |items| == |parts|
    requires forall i :: 0 <= i < |parts| ==> Trims(u, parts[i], items[i])
    ensures InItems(u, Str(Join(parts, ","))) == Strings(items)
  {
    hide Trims, TrimSpace, Join, Split;
    SplitJoined(parts, ',');
    forall i | 0 <= i < |parts| ensures TrimSpace(u, parts[i]) == items[i] { TrimmedItem(u, parts[i], items[i]); }
    assert TrimAll(u, parts) == items;
  }

  // ------------------------------------------------------------- identifiers

  predicate AllAscii(s: string) { forall i :: 0 <= i < |s| ==> IsAscii(s[i]) }

  /** A letter or underscore, then letters, digits and underscores. */
  predicate AsciiName(s: string) {
    && s != "" && (IsAsciiLetter(s[0]) || s[0] == '_')
    && forall i :: 0 <= i < |s| ==> IsAsciiLetter(s[i]) || IsAsciiDigit(s[i]) || s[i] == '_'
  }

  lemma {:induction false} FoldAt(s: string, i: nat)
    requires i < |s|
    ensures |Fold(s)| == |s| && Fold(s)[i] == FoldChar(s[i])
  {
    if |s| > 1 { FoldAt(s[1..], if i > 0 then i - 1 else 0); }
  }

  lemma FoldAll(s: string)
    ensures |Fold(s)| == |s| && forall i :: 0 <= i < |s| ==> Fold(s)[i] == FoldChar(s[i])
  {
    hide Fold;
    if s == "" { FoldEmpty(); }
    forall i | 0 <= i < |s| ensures |Fold(s)| == |s| && Fold(s)[i] == FoldChar(s[i]) { FoldAt(s, i); }
    if s != "" { FoldAt(s, 0); }
  }

  lemma FoldEmpty()
    ensures Fold("") == ""
  {
  }

  lemma {:induction false} AsciiLower(u: Unicode, s: string)
    requires AllAscii(s)
    ensures ToLower(u, s) == Fold(s)
  {
    if s != "" { AsciiLower(u, s[1..]); }
  }

  lemma FoldKinds(u: Unicode, c: char)
    requires IsAscii(c)
    ensures var d := FoldChar(c);
            && IsAscii(d) && (IsSpace(u, d) <==> IsSpace(u, c)) && (IsLetter(u, d) <==> IsAsciiLetter(c))
            && (IsDigit(u, d) <==> IsAsciiDigit(c)) && (d == '_' <==> c == '_')
  {
  }

  lemma FoldedCore(u: Unicode, s: string, i: nat, j: nat)
    requires AllAscii(s) && Core(u, s, i, j)
    ensures |Fold(s)| == |s| && Core(u, Fold(s), i, j)
    ensures AcceptedName(u, Fold(s)[i..j]) <==> AsciiName(s[i..j])
    ensures Fold(s)[i..j] == Fold(s[i..j])
  {
    hide Fold, IsSpace, IsLetter, IsDigit, IsAsciiLetter, IsAsciiDigit, FoldChar;
    var t := Fold(s);
    FoldAll(s);
    FoldAll(s[i..j]);
    forall k | 0 <= k < |s|
      ensures IsSpace(u, t[k]) == IsSpace(u, s[k]) && IsLetter(u, t[k]) == IsAsciiLetter(s[k])
      ensures IsDigit(u, t[k]) == IsAsciiDigit(s[k]) && (t[k] == '_') == (s[k] == '_')
    {
      FoldKinds(u, s[k]);
    }
    assert forall k :: 0 <= k < i ==> s[..i][k] == s[k] && t[..i][k] == t[k];
    assert forall k :: 0 <= k < |s| - j ==> s[j..][k] == s[j + k] && t[j..][k] == t[j + k];
    assert forall k :: 0 <= k < j - i ==> s[i..j][k] == s[i + k] && t[i..j][k] == t[i + k];
  }

  /** Names in ASCII: accepted exactly when the name, without the white space around it, is a letter or underscore
      followed by letters, digits and underscores; the column is that name in lower case. */
  lemma AsciiIdentifier(u: Unicode, name: string, i: nat, j: nat)
    requires AllAscii(name) && Core(u, name, i, j)
    ensures ValidateIdentifier(u, name) == if AsciiName(name[i..j]) then Some(Fold(name[i..j])) else None
  {
    hide Fold, Core, AcceptedName, AsciiName, IsIdentifier, TrimSpace, ToLower;
    AsciiLower(u, name);
    FoldedCore(u, name, i, j);
    TrimIsCore(u, Fold(name), i, j);
  }

  // ------------------------------------------------------------- the column of a field

  /** A column name as the schema writes it. */
  predicate ColumnWord(w: string) {
    w != "" && !IsAsciiDigit(w[0]) && forall i :: 0 <= i < |w| ==> 'a' <= w[i] <= 'z' || IsAsciiDigit(w[i]) || w[i] == '_'
  }

  /** A field names a column through the table, or outside it as itself or behind `_data.`. */
  predicate Names(env: Env, field: string, w: string) {
    ColumnWord(w) && if Mapped(env, field) then env.table[field] == w else field == w || field == "_data." + w
  }

  lemma WordIsColumn(u: Unicode, w: string)
    requires ColumnWord(w)
    ensures ValidateIdentifier(u, w) == Some(w)
  {
    hide ValidateIdentifier, Fold;
    FoldAll(w);
    assert Fold(w) == w;
    assert w[0..|w|] == w && w[..0] == "" && w[|w|..] == "";
    AsciiIdentifier(u, w, 0, |w|);
  }

  lemma NoDot(w: string, k: nat)
    requires ColumnWord(w) && k <= |w|
    ensures !("_data." <= w[k..])
  {
    assert "_data."[5] == '.';
    assert k + 5 < |w| ==> w[k..][5] == w[k + 5] != '.';
  }

  lemma FieldIsColumn(env: Env, field: string, w: string)
    requires Names(env, field, w)
    ensures ValidateIdentifier(env.uni, TranslateField(env, field)) == Some(w)
  {
    hide ValidateIdentifier, ReplaceFirst, ColumnWord;
    WordIsColumn(env.uni, w);
    if !Mapped(env, field) {
      if field == w {
        forall k: nat | k <= |w| ensures !("_data." <= w[k..]) { NoDot(w, k); }
        NotReplaced(w, "_data.", "");
      } else {
        assert field[0..] == field && "_data." <= field;
        assert FirstAt(field, "_data.", 0);
        ReplacedAt(field, "_data.", "", 0);
        assert field[..0] + "" + field[6..] == w;
      }
    }
  }

  function Renamed(m: map<string, Json>, field: string): Json { Obj(m["field" := Str(field)]) }

  /** Whatever a condition tests, testing a field is testing the column it names: the same text, the same parameters. */
  lemma FieldNamesColumn(env: Env, m: map<string, Json>, field: string, w: string)
    requires env.codes != [] && Names(env, field, w) && Names(env, w, w)
    ensures Compiled(env, Renamed(m, field)) == Compiled(env, Renamed(m, w))
  {
    hide ValidateIdentifier, TranslateField, Names, OperatorLeaf, PruneAll, PlanText, PlanParams;
    var a, b := m["field" := Str(field)], m["field" := Str(w)];
    FieldIsColumn(env, field, w);
    FieldIsColumn(env, w, w);
    assert StringField(a, "field") == field && StringField(b, "field") == w;
    assert forall key :: key != "field" ==> StringField(a, key) == StringField(b, key);
    SameOperator(env, a, b, StringField(a, "operator"), w);
    assert LeafOf(env, a) == LeafOf(env, b);
    assert Prune(env, Obj(a)) == Prune(env, Obj(b));
  }

  lemma SameOperator(env: Env, a: map<string, Json>, b: map<string, Json>, op: string, col: string)
    requires Value(a) == Value(b) && StringField(a, "format") == StringField(b, "format")
    ensures OperatorLeaf(env, a, op, col) == OperatorLeaf(env, b, op, col)
  {
    hide Value, StringField, InItems;
  }

  function Test(field: string, op: string, v: Json): Json {
    Obj(map["type" := Str("condition"), "field" := Str(field), "operator" := Str(op), "value" := v])
  }

  lemma NullTestOf(env: Env, field: string, w: string, v: Json)
    requires Names(env, field, w)
    ensures Prune(env, Test(field, "IS_NULL", v)) == Some(Condition(Leaf(NullTest(false), false, w, [])))
  {
    hide ValidateIdentifier, TranslateField, Names;
    FieldIsColumn(env, field, w);
  }

  lemma EqualsOf(env: Env, field: string, w: string, v: Json)
    requires Names(env, field, w)
    ensures Prune(env, Test(field, "EQUALS", v)) == Some(Condition(Leaf(Compare("="), false, w, [v])))
  {
    hide ValidateIdentifier, TranslateField, Names;
    FieldIsColumn(env, field, w);
  }

  /** Two conditions in full: what a field named so compiles to. */
  lemma TestsOfColumn(env: Env, field: string, w: string, v: Json)
    requires env.codes != [] && Names(env, field, w)
    ensures Compiled(env, Test(field, "IS_NULL", v)) == (w + " IS NULL", [])
    ensures Compiled(env, Test(field, "EQUALS", v)) == (w + " = ?", [v])
  {
    hide Names, IsIdentifier, Prune, Test;
    NullTestOf(env, field, w, v);
    EqualsOf(env, field, w, v);
    assert " IS NULL" == " " + ("IS" + (" " + "NULL"));
    assert w + " = ?" == w + (" " + ("=" + (" " + "?")));
  }

  /** The truth of a condition on a field is that of its operator on the cell of the column the field names. */
  lemma FieldMeaning(env: Env, eng: Engine, m: map<string, Json>, field: string, w: string)
    requires Names(env, field, w)
    requires StringField(m, "type") == "condition" && StringField(m, "operator") != "IS_FINANCIAL_AUA"
    ensures Meaning(env, eng, Renamed(m, field))
            == OperatorMeaning(env, eng, StringField(m, "operator"), eng.cell(w), Value(m), StringField(m, "format"))
  {
    hide ValidateIdentifier, TranslateField, Names, OperatorMeaning, FieldName;
    FieldIsColumn(env, field, w);
    TranslatedName(env, field);
    var a := m["field" := Str(field)];
    assert StringField(a, "field") == field && StringField(a, "type") == "condition";
    assert forall key :: key != "field" ==> StringField(a, key) == StringField(m, key);
  }

  /** The six comparisons, by how the database orders the cell against the value; unknown when it does not. */
  lemma ComparisonMeaning(env: Env, eng: Engine, c: Json, v: Json, format: string)
    ensures var meaning := (op: string) => OperatorMeaning(env, eng, op, c, v, format);
            match eng.order(c, v)
            case None =>
              forall op :: op in {"EQUALS", "NOT_EQUALS", "GREATER_THAN", "GREATER_THAN_EQUAL", "LESS_THAN", "LESS_THAN_EQUAL"} ==>
                meaning(op) == Some(Unknown)
            case Some(n) =>
              && meaning("EQUALS") == Some(if n == 0 then Yes else No) && meaning("NOT_EQUALS") == Some(if n != 0 then Yes else No)
              && meaning("GREATER_THAN") == Some(if n > 0 then Yes else No) && meaning("LESS_THAN") == Some(if n < 0 then Yes else No)
              && meaning("GREATER_THAN_EQUAL") == Some(if n >= 0 then Yes else No)
              && meaning("LESS_THAN_EQUAL") == Some(if n <= 0 then Yes else No)
  {
  }

  /** The three date tests, by how the two times are ordered, and the list tests, by the items. */
  lemma DateMeaning(env: Env, eng: Engine, c: Json, v: Json, format: string, text: string, n: int)
    requires env.date(v, format) == Some(text) && eng.timeOrder(c, Str(text)) == Some(n)
    ensures OperatorMeaning(env, eng, "DATE_BEFORE", c, v, format) == Some(if n < 0 then Yes else No)
    ensures OperatorMeaning(env, eng, "DATE_AFTER", c, v, format) == Some(if n > 0 then Yes else No)
    ensures OperatorMeaning(env, eng, "DATE_EQUALS", c, v, format) == Some(if n == 0 then Yes else No)
  {
  }

  /** A rule that tests a reserved column for NULL is compiled to text, and the text does not parse as a test of that
      column: the compiler never quotes a name. (For `null` itself it is a test of the null value.) */
  lemma ReservedFieldRejected(env: Env, reserved: set<string>, eng: Engine, field: string, w: string)
    requires env.codes != [] && Dialect(reserved) && Names(env, field, w) && w in reserved
    ensures var node := Test(field, "IS_NULL", Null);
            && Compiled(env, node).0 != "" && ParseText(reserved, Compiled(env, node).0) == None
            && Meaning(env, eng, node) == Some(if eng.cell(w).Null? then Yes else No)
  {
    hide ParseText, Compiled, Prune, Meaning, Dialect, Names, Test;
    var node := Test(field, "IS_NULL", Null);
    NullTestOf(env, field, w, Null);
    CompilationPreservesMeaning(env, reserved, eng, node);
    PruneMeaning(env, eng, node);
    assert w in FilterColumns(env, node);
  }

  /** A comma text as the value of IN is the array of its items. */
  lemma CommaTextIsArray(env: Env, field: string, parts: seq<string>, items: seq<string>)
    requires env.codes != [] && parts != [] && CommaFree(parts) && |items| == |parts|
    requires forall i :: 0 <= i < |parts| ==> Trims(env.uni, parts[i], items[i])
    ensures Compiled(env, Test(field, "IN", Str(Join(parts, ",")))) == Compiled(env, Test(field, "IN", Arr(Strings(items))))
  {
    hide ValidateIdentifier, TranslateField, Trims, Join, InItems, PlanText, PlanParams;
    ListedItems(env.uni, parts, items);
    var a, b := Test(field, "IN", Str(Join(parts, ","))).fields, Test(field, "IN", Arr(Strings(items))).fields;
    ArrayItems(env.uni, Strings(items));
    assert LeafOf(env, a) == LeafOf(env, b);
  }

  lemma ArrayItems(u: Unicode, items: seq<Json>)
    ensures InItems(u, Arr(items)) == items
  {
  }
}
