/** ParseHavingExpression (internal/services/duckdb.go): which HAVING texts may be spliced into a query. */
module HavingGuard {
  import opened Prelude
  import opened Text
  import opened SqlContext

  datatype Having = Accepted(text: string) | Rejected

  predicate IsBlank(c: char) { c in {' ', '\t', '\n', '\r'} || c as int == 12 }

  predicate IsIdentStart(c: char) { IsAsciiLetter(c) || c == '_' }

  predicate IsIdentPart(c: char) { IsIdentStart(c) || IsAsciiDigit(c) }

  /** The character class of the pattern: blanks, parentheses, identifier characters and operators. */
  predicate IsSafe(c: char) {
    IsBlank(c) || IsIdentPart(c) || c in {'(', ')', '.', '>', '<', '!', '=', '+', '-', '*', '/'}
  }

  predicate CodeIn(c: char, low: int, high: int) { low <= c as int <= high }

  /** The class by character codes: no quote, separator, placeholder or brace. */
  lemma SafeByCode(c: char)
    ensures IsSafe(c) <==>
            || CodeIn(c, 9, 10) || CodeIn(c, 12, 13) || CodeIn(c, 32, 33) || CodeIn(c, 40, 43) || CodeIn(c, 45, 57)
            || CodeIn(c, 60, 62) || CodeIn(c, 65, 90) || CodeIn(c, 95, 95) || CodeIn(c, 97, 122)
  {
  }

  predicate AllSafe(s: string) { forall i :: 0 <= i < |s| ==> IsSafe(s[i]) }

  predicate AllBlank(s: string) { forall i :: 0 <= i < |s| ==> IsBlank(s[i]) }

  /** `(?:\s+(?:AND|OR|NOT)\s+[class]+)*` to the end of the text. */
  ghost predicate Repeats(s: string)
    decreases |s|
  {
    s == "" || exists gap, word, gap2, run, rest: string ::
      && s == gap + word + gap2 + run + rest
      && gap != "" && AllBlank(gap) && word in {"AND", "OR", "NOT"} && gap2 != "" && AllBlank(gap2)
      && run != "" && AllSafe(run) && |rest| < |s| && Repeats(rest)
  }

  /** The whole anchored pattern: one run of the class, then the repeated group. */
  ghost predicate MatchesPattern(s: string) {
    exists run, rest: string :: s == run + rest && run != "" && AllSafe(run) && Repeats(rest)
  }

  lemma {:induction false} RepeatsSafe(s: string)
    requires Repeats(s)
    ensures AllSafe(s)
    decreases |s|
  {
    if s != "" {
      var gap, word, gap2, run, rest: string :|
        && s == gap + word + gap2 + run + rest
        && gap != "" && AllBlank(gap) && word in {"AND", "OR", "NOT"} && gap2 != "" && AllBlank(gap2)
        && run != "" && AllSafe(run) && |rest| < |s| && Repeats(rest);
      RepeatsSafe(rest);
      SafeWord(word);
      SafeJoin(gap, word);
      SafeJoin(gap + word, gap2);
      SafeJoin(gap + word + gap2, run);
      SafeJoin(gap + word + gap2 + run, rest);
    }
  }

  lemma SafeWord(w: string)
    requires w in {"AND", "OR", "NOT"}
    ensures AllSafe(w)
  {
  }

  lemma SafeJoin(a: string, b: string)
    requires AllSafe(a) && AllSafe(b)
    ensures AllSafe(a + b)
  {
  }

  /** The repeated group adds nothing: the pattern accepts exactly the nonempty texts over its class. */
  lemma PatternIsClass(s: string)
    ensures MatchesPattern(s) <==> s != "" && AllSafe(s)
  {
    if MatchesPattern(s) {
      var run, rest: string :| s == run + rest && run != "" && AllSafe(run) && Repeats(rest);
      RepeatsSafe(rest);
      SafeJoin(run, rest);
    }
    if s != "" && AllSafe(s) {
      assert s == s + "" && Repeats("");
    }
  }

  function RunLength(s: string): (n: nat)
    ensures n <= |s| && (forall i :: 0 <= i < n ==> IsIdentPart(s[i])) && (n < |s| ==> !IsIdentPart(s[n]))
  {
    if s != "" && IsIdentPart(s[0]) then 1 + RunLength(s[1..]) else 0
  }

  /** identTokenPattern.FindAllString: the leftmost longest identifiers, without overlap. */
  function Identifiers(s: string): seq<string>
    decreases |s|
  {
    if s == "" then []
    else if IsIdentStart(s[0]) then
      var n := 1 + RunLength(s[1..]);
      [s[..n]] + Identifiers(s[n..])
    else Identifiers(s[1..])
  }

  /** `s[a..b]` is a name that neither continues a longer one nor is continued. */
  predicate IsName(s: string, a: nat, b: nat) {
    && a < b <= |s| && IsIdentStart(s[a]) && (forall i :: a <= i < b ==> IsIdentPart(s[i]))
    && (a > 0 ==> !IsIdentPart(s[a - 1])) && (b < |s| ==> !IsIdentPart(s[b]))
  }

  /** No name in the text is overlooked. */
  lemma {:induction false} NameFound(s: string, a: nat, b: nat)
    requires IsName(s, a, b)
    ensures s[a..b] in Identifiers(s)
    decreases |s|
  {
    var n := if IsIdentStart(s[0]) then 1 + RunLength(s[1..]) else 1;
    assert forall i :: 0 < i < |s| ==> s[i] == s[1..][i - 1];
    assert IsIdentStart(s[0]) ==> (forall i :: 0 <= i < n ==> IsIdentPart(s[i])) && (n < |s| ==> !IsIdentPart(s[n]));
    if a == 0 {
      assert n == b;
      assert Identifiers(s)[0] == s[..n];
    } else {
      assert n <= a;
      LaterName(s, a, b, n);
      NameFound(s[n..], a - n, b - n);
    }
  }

  lemma LaterName(s: string, a: nat, b: nat, n: nat)
    requires IsName(s, a, b) && n <= a
    ensures IsName(s[n..], a - n, b - n) && s[n..][a - n..b - n] == s[a..b]
  {
    assert forall i :: 0 <= i < |s| - n ==> s[n..][i] == s[i + n];
  }

  function UpperChar(u: Unicode, c: char): char {
    if 'a' <= c <= 'z' then (c as int - 32) as char else if IsAscii(c) then c else u.upper(c)
  }

  function ToUpper(u: Unicode, s: string): string {
    if s == "" then "" else [UpperChar(u, s[0])] + ToUpper(u, s[1..])
  }

  const SQL_KEYWORDS: set<string> :=
    {"AND", "OR", "NOT", "true", "false", "TRUE", "FALSE", "CASE", "WHEN", "THEN", "ELSE", "END"}

  predicate IsKeyword(u: Unicode, w: string) { w in SQL_KEYWORDS || ToUpper(u, w) in SQL_KEYWORDS }

  predicate NoLower(w: string) { forall i :: 0 <= i < |w| ==> IsAscii(w[i]) && !('a' <= w[i] <= 'z') }

  predicate AllAscii(s: string) { forall i :: 0 <= i < |s| ==> IsAscii(s[i]) }

  lemma CharUpperIsFold(u: Unicode, c: char, w: char)
    requires IsAscii(c) && IsAscii(w) && !('a' <= w <= 'z')
    ensures UpperChar(u, c) == w <==> FoldChar(c) == FoldChar(w)
  {
  }

  lemma Unconsed(s: string, a: char, x: string, t: string, b: char, y: string)
    requires s == [a] + x && t == [b] + y
    ensures s == t <==> a == b && x == y
  {
    assert s[0] == a && t[0] == b && s[1..] == x && t[1..] == y;
  }

  lemma {:induction false} UpperIsFold(u: Unicode, s: string, w: string)
    requires AllAscii(s) && NoLower(w)
    ensures ToUpper(u, s) == w <==> Fold(s) == Fold(w)
  {
    if s != "" && w != "" {
      UpperIsFold(u, s[1..], w[1..]);
      assert w == [w[0]] + w[1..];
      CharUpperIsFold(u, s[0], w[0]);
      Unconsed(ToUpper(u, s), UpperChar(u, s[0]), ToUpper(u, s[1..]), w, w[0], w[1..]);
      Unconsed(Fold(s), FoldChar(s[0]), Fold(s[1..]), Fold(w), FoldChar(w[0]), Fold(w[1..]));
    }
  }

  /** The keywords a HAVING text may use, in any mix of cases. */
  lemma KeywordsFolded(u: Unicode, w: string)
    requires AllAscii(w)
    ensures IsKeyword(u, w) <==> Fold(w) in {"and", "or", "not", "true", "false", "case", "when", "then", "else", "end"}
  {
    LogicWords(u, w);
    CaseWords(u, w);
    UpperHasNoLower(u, w);
    hide Fold, ToUpper;
    var up := ToUpper(u, w);
    assert up in SQL_KEYWORDS <==> up in {"AND", "OR", "NOT", "TRUE", "FALSE"} || up in {"CASE", "WHEN", "THEN", "ELSE", "END"};
    assert w in SQL_KEYWORDS ==> Fold(w) in {"and", "or", "not", "true", "false"} || Fold(w) in {"case", "when", "then", "else", "end"};
  }

  lemma LogicWords(u: Unicode, w: string)
    requires AllAscii(w)
    ensures ToUpper(u, w) in {"AND", "OR", "NOT", "TRUE", "FALSE"} <==> Fold(w) in {"and", "or", "not", "true", "false"}
    ensures w in {"AND", "OR", "NOT", "true", "false", "TRUE", "FALSE"} ==> Fold(w) in {"and", "or", "not", "true", "false"}
  {
    LogicFolds();
    hide Fold, ToUpper;
    UpperIsFold(u, w, "AND");
    UpperIsFold(u, w, "OR");
    UpperIsFold(u, w, "NOT");
    UpperIsFold(u, w, "TRUE");
    UpperIsFold(u, w, "FALSE");
  }

  lemma LogicFolds()
    ensures Fold("AND") == "and" && Fold("OR") == "or" && Fold("NOT") == "not" && Fold("TRUE") == "true" && Fold("FALSE") == "false"
    ensures Fold("true") == "true" && Fold("false") == "false"
  {
    assert Fold("FALSE") == "false";
    assert Fold("false") == "false";
    assert Fold("TRUE") == "true";
  }

  lemma CaseWords(u: Unicode, w: string)
    requires AllAscii(w)
    ensures ToUpper(u, w) in {"CASE", "WHEN", "THEN", "ELSE", "END"} <==> Fold(w) in {"case", "when", "then", "else", "end"}
    ensures w in {"CASE", "WHEN", "THEN", "ELSE", "END"} ==> Fold(w) in {"case", "when", "then", "else", "end"}
  {
    CaseFolds();
    hide Fold, ToUpper;
    UpperIsFold(u, w, "CASE");
    UpperIsFold(u, w, "WHEN");
    UpperIsFold(u, w, "THEN");
    UpperIsFold(u, w, "ELSE");
    UpperIsFold(u, w, "END");
  }

  lemma CaseFolds()
    ensures Fold("CASE") == "case" && Fold("WHEN") == "when" && Fold("THEN") == "then" && Fold("ELSE") == "else" && Fold("END") == "end"
  {
    assert Fold("CASE") == "case";
    assert Fold("WHEN") == "when";
  }

  lemma UpperHasNoLower(u: Unicode, w: string)
    requires AllAscii(w)
    ensures ToUpper(u, w) != "true" && ToUpper(u, w) != "false"
  {
    if w != "" { assert ToUpper(u, w)[0] == UpperChar(u, w[0]); }
  }

  /** JavaScript operators rewritten to SQL, in the source's order. */
  function Rewritten(expr: string): string {
    ReplaceAll(ReplaceAll(ReplaceAll(expr, "&&", " AND "), "||", " OR "), "==", "=")
  }

  datatype Op = AndAnd | OrOr | EqEq

  function ScriptSign(op: Op): string { match op case AndAnd => "&&" case OrOr => "||" case EqEq => "==" }

  function SqlSign(op: Op): string { match op case AndAnd => " AND " case OrOr => " OR " case EqEq => "=" }

  /** Operands joined by operators, those of `done` as SQL writes them and the others as JavaScript does. */
  function Written(first: string, more: seq<(Op, string)>, done: set<Op>): string
    decreases |more|
  {
    if more == [] then first
    else first + ((if more[0].0 in done then SqlSign(more[0].0) else ScriptSign(more[0].0)) + Written(more[0].1, more[1..], done))
  }

  /** Every `c` of the text is followed by another character of it. */
  predicate Single(s: string, c: char) { forall i :: 0 <= i < |s| && s[i] == c ==> i + 1 < |s| && s[i + 1] != c }

  /** An operand holds no operator of JavaScript and does not end in half of one. */
  predicate Operand(s: string) { '&' !in s && '|' !in s && Single(s, '=') }

  predicate Operands(first: string, more: seq<(Op, string)>) {
    Operand(first) && forall i :: 0 <= i < |more| ==> Operand(more[i].1)
  }

  lemma PairStarts(s: string, c: char)
    ensures [c, c] <= s <==> |s| >= 2 && s[0] == c && s[1] == c
  {
  }

  lemma {:induction false} RunKept(a: string, t: string, c: char, rep: string)
    requires Single(a, c)
    ensures ReplaceAll(a + t, [c, c], rep) == a + ReplaceAll(t, [c, c], rep)
    decreases |a|
  {
    if a == "" {
      assert a + t == t;
    } else {
      var s := a + t;
      assert s[0] == a[0] && s[1..] == a[1..] + t && (|a| > 1 ==> s[1] == a[1]);
      PairStarts(s, c);
      assert Single(a[1..], c) by { assert forall i :: 0 <= i < |a| - 1 ==> a[1..][i] == a[i + 1]; }
      RunKept(a[1..], t, c, rep);
      assert [a[0]] + (a[1..] + ReplaceAll(t, [c, c], rep)) == a + ReplaceAll(t, [c, c], rep);
    }
  }

  lemma PatternReplaced(t: string, c: char, rep: string)
    ensures ReplaceAll([c, c] + t, [c, c], rep) == rep + ReplaceAll(t, [c, c], rep)
  {
    assert ([c, c] + t)[2..] == t;
  }

  function SignChar(op: Op): char { match op case AndAnd => '&' case OrOr => '|' case EqEq => '=' }

  lemma Signs(op: Op, o: Op)
    ensures ScriptSign(op) == [SignChar(op), SignChar(op)]
    ensures o != op ==> Single(ScriptSign(o), SignChar(op)) && (op == EqEq || o != EqEq ==> Single(SqlSign(o), SignChar(op)))
    ensures op != EqEq ==> Single(SqlSign(o), SignChar(op))
  {
  }

  /** Replacing one operator turns it, and it alone, into its SQL form. */
  lemma {:induction false} OneReplaced(first: string, more: seq<(Op, string)>, done: set<Op>, op: Op)
    requires Operands(first, more) && op !in done && EqEq !in done
    ensures ReplaceAll(Written(first, more, done), ScriptSign(op), SqlSign(op)) == Written(first, more, done + {op})
    decreases |more|
  {
    hide ScriptSign, SqlSign, ReplaceAll, Operand;
    var c, rep := SignChar(op), SqlSign(op);
    Signs(op, op);
    OperandSingle(first, op);
    if more == [] {
      RunKept(first, "", c, rep);
      NothingToReplace(c, rep);
      assert first + "" == first;
    } else {
      var o, rest := more[0].0, Written(more[0].1, more[1..], done);
      Signs(op, o);
      OneReplaced(more[0].1, more[1..], done, op);
      var sign := if o in done then SqlSign(o) else ScriptSign(o);
      RunKept(first, sign + rest, c, rep);
      if o == op { PatternReplaced(rest, c, rep); } else { RunKept(sign, rest, c, rep); }
    }
  }

  lemma OperandSingle(s: string, op: Op)
    requires Operand(s)
    ensures Single(s, SignChar(op))
  {
    assert forall i :: 0 <= i < |s| ==> s[i] in s;
  }

  lemma NothingToReplace(c: char, rep: string)
    ensures ReplaceAll("", [c, c], rep) == ""
  {
  }

  /** The rewriting turns every operator of a script into its SQL form and leaves the operands as they are. */
  lemma OperatorsRewritten(first: string, more: seq<(Op, string)>)
    requires Operands(first, more)
    ensures Rewritten(Written(first, more, {})) == Written(first, more, {AndAnd, OrOr, EqEq})
  {
    hide ReplaceAll, Written, Operands;
    OneReplaced(first, more, {}, AndAnd);
    OneReplaced(first, more, {} + {AndAnd}, OrOr);
    OneReplaced(first, more, {} + {AndAnd} + {OrOr}, EqEq);
    assert {} + {AndAnd} + {OrOr} + {EqEq} == {AndAnd, OrOr, EqEq};
  }

  /** Every name in the text is a keyword or an alias of the rule. */
  predicate KnownNames(u: Unicode, aliases: set<string>, s: string) {
    forall w :: w in Identifiers(s) ==> IsKeyword(u, w) || w in aliases
  }

  lemma SafeHasNoMark(s: string)
    ensures AllSafe(s) ==> '?' !in s
  {
  }

  lemma EmptyIsFine(u: Unicode, aliases: set<string>)
    ensures AllSafe("") && KnownNames(u, aliases, "") && '?' !in ""
  {
  }

  /** Accepted text holds no placeholder, no quote and no separator: only characters of the class, and only
      known names. Whatever else is rejected, and a blank expression is accepted as empty. */
  function ParseHavingExpression(u: Unicode, expr: string, aliases: set<string>): (r: Having)
    ensures r.Accepted? ==> AllSafe(r.text) && '?' !in r.text && KnownNames(u, aliases, r.text)
    ensures r.Rejected? <==> var cleaned := TrimSpace(u, Rewritten(expr));
              expr != "" && cleaned != "" && !(AllSafe(cleaned) && KnownNames(u, aliases, cleaned))
  {
    hide Rewritten, Identifiers, TrimSpace, KnownNames, AllSafe;
    EmptyIsFine(u, aliases);
    if expr == "" then Accepted("")
    else
      var cleaned := TrimSpace(u, Rewritten(expr));
      SafeHasNoMark(cleaned);
      if cleaned == "" then Accepted("")
      else if !AllSafe(cleaned) || !KnownNames(u, aliases, cleaned) then Rejected
      else Accepted(cleaned)
  }

  /** A script is accepted as the SQL it means, without the white space around it, exactly when that is blank or made of
      the class and of known names. */
  lemma ScriptAccepted(u: Unicode, first: string, more: seq<(Op, string)>, aliases: set<string>, i: nat, j: nat)
    requires Operands(first, more) && Core(u, Written(first, more, {AndAnd, OrOr, EqEq}), i, j)
    ensures var sql := Written(first, more, {AndAnd, OrOr, EqEq})[i..j];
            ParseHavingExpression(u, Written(first, more, {}), aliases)
            == if sql == "" || (AllSafe(sql) && KnownNames(u, aliases, sql)) then Accepted(sql) else Rejected
  {
    hide Operands, Rewritten, TrimSpace, KnownNames, AllSafe, IsSpace;
    OperatorsRewritten(first, more);
    TrimIsCore(u, Written(first, more, {AndAnd, OrOr, EqEq}), i, j);
    if Written(first, more, {}) == "" { NothingWritten(first, more); }
  }

  lemma NothingWritten(first: string, more: seq<(Op, string)>)
    requires Written(first, more, {}) == ""
    ensures Written(first, more, {AndAnd, OrOr, EqEq}) == ""
  {
  }

  // ------------------------------------------------------------- inside the threshold column

  /** `CASE WHEN (text) THEN ...` keeps its shape, whatever follows, exactly when the text, read with its comments
      skipped, closes no parenthesis it did not open, closes all it did, and leaves no comment open. */
  lemma ThresholdSelfContained(text: string)
    ensures (forall rest :: Scan(text + ")" + rest, 0, Code, 0) == Closes(|text|)) <==> Kept(text, 0, Code, 0)
  {
    forall rest ensures Scan(text + ")" + rest, 0, Code, 0) == Closes(|text|) <==> Kept(text, 0, Code, 0) {
      ClosesBehind(text, rest, 0, Code, 0);
    }
    assert Scan(text + ")" + "", 0, Code, 0) == Closes(|text|) <==> Kept(text, 0, Code, 0) by { ClosesBehind(text, "", 0, Code, 0); }
  }

  /** Accepted as it stands: nothing to rewrite, nothing to trim. */
  predicate PlainlyAccepted(u: Unicode, aliases: set<string>, t: string) {
    && t != "" && AllSafe(t) && KnownNames(u, aliases, t)
    && '&' !in t && '|' !in t && '=' !in t && !IsSpace(u, t[0]) && !IsSpace(u, t[|t| - 1])
  }

  lemma {:induction false} NothingReplaced(s: string, pat: string, rep: string)
    requires pat != "" && pat[0] !in s
    ensures ReplaceAll(s, pat, rep) == s
    decreases |s|
  {
    if s != "" {
      assert s[0] in s;
      NothingReplaced(s[1..], pat, rep);
    }
  }

  lemma PlainlyIsAccepted(u: Unicode, aliases: set<string>, t: string)
    requires PlainlyAccepted(u, aliases, t)
    ensures ParseHavingExpression(u, t, aliases) == Accepted(t)
  {
    NothingReplaced(t, "&&", " AND ");
    NothingReplaced(t, "||", " OR ");
    NothingReplaced(t, "==", "=");
    hide ReplaceAll, AllSafe, KnownNames, IsSpace;
  }

  lemma {:induction false} SameIdentifiers(s: string, c: char)
    requires !IsIdentPart(c)
    ensures Identifiers(s + [c]) == Identifiers(s)
    decreases |s|
  {
    if s == "" {
      assert s + [c] == [c];
      assert Identifiers([c]) == Identifiers([c][1..]);
    } else if IsIdentStart(s[0]) {
      var n := 1 + RunLength(s[1..]);
      assert (s + [c])[1..] == s[1..] + [c];
      SameRun(s[1..], c);
      assert (s + [c])[..n] == s[..n] && (s + [c])[n..] == s[n..] + [c];
      SameIdentifiers(s[n..], c);
    } else {
      assert (s + [c])[1..] == s[1..] + [c];
      SameIdentifiers(s[1..], c);
    }
  }

  lemma {:induction false} SameRun(s: string, c: char)
    requires !IsIdentPart(c)
    ensures RunLength(s + [c]) == RunLength(s)
  {
    if s != "" && IsIdentPart(s[0]) {
      assert (s + [c])[1..] == s[1..] + [c];
      SameRun(s[1..], c);
    }
  }

  lemma Lengthened(u: Unicode, aliases: set<string>, t: string, c: char)
    requires PlainlyAccepted(u, aliases, t) && c in {')', '/', '*'}
    ensures PlainlyAccepted(u, aliases, t + [c])
  {
    SameIdentifiers(t, c);
    hide Identifiers, IsKeyword;
    assert (t + [c])[0] == t[0];
  }

  lemma Commented(u: Unicode, aliases: set<string>, t: string)
    requires PlainlyAccepted(u, aliases, t)
    ensures PlainlyAccepted(u, aliases, t + "/*") && PlainlyAccepted(u, aliases, t + "/**/")
  {
    hide PlainlyAccepted;
    Lengthened(u, aliases, t, '/');
    Lengthened(u, aliases, t + "/", '*');
    assert t + "/" + "*" == t + "/*";
    Lengthened(u, aliases, t + "/*", '*');
    Lengthened(u, aliases, t + "/*" + "*", '/');
    assert t + "/*" + "*" + "/" == t + "/**/";
  }

  /** The guard does not ask for that: of every text it takes as it stands and that is kept, it also takes the one with
      a comment opened behind it and the one with a parenthesis closed behind it. Neither is kept. A comment opened and
      closed again does no harm. */
  lemma GuardAcceptsUncontained(u: Unicode, aliases: set<string>, t: string)
    requires PlainlyAccepted(u, aliases, t) && Kept(t, 0, Code, 0)
    ensures ParseHavingExpression(u, t + "/*", aliases) == Accepted(t + "/*") && !Kept(t + "/*", 0, Code, 0)
    ensures ParseHavingExpression(u, t + ")", aliases) == Accepted(t + ")") && !Kept(t + ")", 0, Code, 0)
    ensures ParseHavingExpression(u, t + "/**/", aliases) == Accepted(t + "/**/") && Kept(t + "/**/", 0, Code, 0)
  {
    OpenedIsNotKept(t);
    ClosedIsNotKept(t);
    CommentIsKept(t);
    hide Kept, PlainlyAccepted;
    Commented(u, aliases, t);
    Lengthened(u, aliases, t, ')');
    PlainlyIsAccepted(u, aliases, t + "/*");
    PlainlyIsAccepted(u, aliases, t + "/**/");
    PlainlyIsAccepted(u, aliases, t + ")");
  }

  lemma OpenedIsNotKept(t: string)
    requires Kept(t, 0, Code, 0)
    ensures !Kept(t + "/*", 0, Code, 0)
  {
    var n, s := |t|, t + "/*";
    var last := KeptThen(t, "/*", 0, Code, 0);
    assert s[n] == '/' && s[n + 1] == '*';
    assert Kept(s, n, last, 0) == Kept(s, n + 1, Slash, 0);
    assert Kept(s, n + 1, Slash, 0) == Kept(s, n + 2, Block(0), 0);
  }

  lemma ClosedIsNotKept(t: string)
    requires Kept(t, 0, Code, 0)
    ensures !Kept(t + ")", 0, Code, 0)
  {
    var last := KeptThen(t, ")", 0, Code, 0);
    assert (t + ")")[|t|] == ')';
  }

  lemma CommentIsKept(t: string)
    requires Kept(t, 0, Code, 0)
    ensures Kept(t + "/**/", 0, Code, 0)
  {
    var n, s := |t|, t + "/**/";
    var last := KeptThen(t, "/**/", 0, Code, 0);
    assert s[n] == '/' && s[n + 1] == '*' && s[n + 2] == '*' && s[n + 3] == '/';
    assert Kept(s, n, last, 0) == Kept(s, n + 1, Slash, 0);
    assert Kept(s, n + 1, Slash, 0) == Kept(s, n + 2, Block(0), 0);
    assert Kept(s, n + 2, Block(0), 0) == Kept(s, n + 3, Star(0), 0);
    assert Kept(s, n + 3, Star(0), 0) == Kept(s, n + 4, Code, 0);
  }
}
