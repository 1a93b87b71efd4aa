/** The lexical level of the SQL text this backend emits: words, punctuation and placeholders. */
module SqlLexer {
  import opened Prelude
  import opened Text

  /** A word is folded when it is read, as SQL treats keywords and unquoted names. */
  datatype Token = Word(text: string) | Sym(sym: string)

  predicate IsWordChar(c: char) { IsAsciiLetter(c) || IsAsciiDigit(c) || c == '_' || !IsAscii(c) }

  predicate IsBlank(c: char) { c in {' ', '\t', '\n', '\r'} }

  predicate AllWordChars(s: string) { s == "" || (IsWordChar(s[0]) && AllWordChars(s[1..])) }

  predicate IsWord(w: string) { w != "" && AllWordChars(w) }

  const SINGLES: set<char> := {'(', ')', ',', '?', '='}

  function WordLength(s: string): (n: nat)
    ensures n <= |s|
    ensures forall i :: 0 <= i < n ==> IsWordChar(s[i])
    ensures n < |s| ==> !IsWordChar(s[n])
  {
    if s != "" && IsWordChar(s[0]) then 1 + WordLength(s[1..]) else 0
  }

  function Prepend(ts: seq<Token>, rest: Option<seq<Token>>): Option<seq<Token>> {
    if rest.Some? then Some(ts + rest.value) else None
  }

  /** Longest-match tokenizer; None for a character this dialect does not use. */
  function Lex(s: string): Option<seq<Token>>
    decreases |s|
  {
    if s == "" then Some([])
    else if IsBlank(s[0]) then Lex(s[1..])
    else if IsWordChar(s[0]) then
      var n := WordLength(s);
      Prepend([Word(Fold(s[..n]))], Lex(s[n..]))
    else if s[0] in SINGLES then Prepend([Sym([s[0]])], Lex(s[1..]))
    else if s[0] in {'<', '>', '!'} && |s| > 1 && s[1] == '=' then Prepend([Sym(s[..2])], Lex(s[2..]))
    else if s[0] in {'<', '>'} then Prepend([Sym([s[0]])], Lex(s[1..]))
    else if s[0] == '|' && |s| > 1 && s[1] == '|' then Prepend([Sym("||")], Lex(s[2..]))
    else None
  }

  /** Text that may follow a word or a comparison sign without merging into it. */
  predicate Apart(t: string) { t == "" || (!IsWordChar(t[0]) && t[0] != '=') }

  lemma LexBlank(b: string, t: string)
    requires |b| == 1 && IsBlank(b[0])
    ensures Lex(b + t) == Lex(t)
  {
    assert (b + t)[1..] == t;
  }

  lemma LexSingle(c: string, t: string)
    requires |c| == 1 && c[0] in SINGLES
    ensures Lex(c + t) == Prepend([Sym(c)], Lex(t))
  {
    assert (c + t)[1..] == t;
    assert [c[0]] == c;
  }

  lemma LexBars(t: string)
    ensures Lex("||" + t) == Prepend([Sym("||")], Lex(t))
  {
    assert ("||" + t)[2..] == t;
  }

  lemma LexComparison(op: string, t: string)
    requires op in {"=", "!=", ">", ">=", "<", "<="} && Apart(t)
    ensures Lex(op + t) == Prepend([Sym(op)], Lex(t))
  {
    assert (op + t)[|op|..] == t;
    assert (op + t)[..|op|] == op;
    assert |op| == 1 ==> [op[0]] == op;
  }

  lemma {:induction false} WordLengthIs(w: string, t: string)
    requires AllWordChars(w)
    requires t == "" || !IsWordChar(t[0])
    ensures WordLength(w + t) == |w|
  {
    if w == "" {
      assert w + t == t;
    } else {
      assert (w + t)[1..] == w[1..] + t;
      WordLengthIs(w[1..], t);
    }
  }

  lemma LexWord(w: string, t: string)
    requires IsWord(w) && (t == "" || !IsWordChar(t[0]))
    ensures Lex(w + t) == Prepend([Word(Fold(w))], Lex(t))
  {
    WordLengthIs(w, t);
    assert (w + t)[..|w|] == w && (w + t)[|w|..] == t;
    assert (w + t)[0] == w[0];
    assert !IsBlank(w[0]);
  }
}
