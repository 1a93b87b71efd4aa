/** Reading query text that has quoted parts: code tokens and quoted texts in turn. */
module QuotedText {
  import opened Prelude
  import opened Text
  import opened SqlContext
  import opened SqlLexer
  import opened FilterLexing

  /** Text without a placeholder. */
  predicate Plain(s: string) { '?' !in s }

  datatype Lexeme = Tok(token: Token) | Quote(text: string)

  function Toks(ts: seq<Token>): (ls: seq<Lexeme>)
    ensures |ls| == |ts| && forall i :: 0 <= i < |ts| ==> ls[i] == Tok(ts[i])
  {
    if ts == [] then [] else [Tok(ts[0])] + Toks(ts[1..])
  }

  function QuoteAt(s: string): (n: nat)
    ensures n <= |s| && '\'' !in s[..n] && (n < |s| ==> s[n] == '\'')
  {
    if s == "" || s[0] == '\'' then 0
    else
      assert s == [s[0]] + s[1..];
      1 + QuoteAt(s[1..])
  }

  function Joined(ls: seq<Lexeme>, rest: Option<seq<Lexeme>>): Option<seq<Lexeme>> {
    if rest.Some? then Some(ls + rest.value) else None
  }

  /** Code and quoted texts in turn; None when code does not tokenize or a quote is left open. */
  function Lexemes(s: string): Option<seq<Lexeme>>
    decreases |s|, 1
  {
    match Lex(Front(s)) case None => None case Some(ts) => Joined(Toks(ts), LexemesBehind(s))
  }

  /** What follows the first code of a text. */
  function LexemesBehind(s: string): Option<seq<Lexeme>>
    decreases |s|, 0
  {
    var n := QuoteAt(s);
    if n == |s| then Some([])
    else
      var body := s[n + 1..];
      var m := QuoteAt(body);
      if m == |body| then None else Joined([Quote(body[..m])], Lexemes(body[m + 1..]))
  }

  /** The code in front of the first quote. */
  function Front(s: string): string { s[..QuoteAt(s)] }

  /** Text that reads as `ls` in front of `t`. */
  predicate Says(s: string, ls: seq<Lexeme>, t: string) { Lexemes(s + t) == Joined(ls, Lexemes(t)) }

  lemma {:induction false} QuoteAfter(s: string, t: string)
    requires '\'' !in s
    ensures QuoteAt(s + t) == |s| + QuoteAt(t)
  {
    if s == "" {
      assert s + t == t;
    } else {
      assert (s + t)[1..] == s[1..] + t && s[0] in s;
      QuoteAfter(s[1..], t);
    }
  }

  lemma SaysCode(s: string, ts: seq<Token>, t: string)
    requires '\'' !in s && Reads(s, ts, Front(t))
    ensures Says(s, Toks(ts), t)
  {
    hide Lex, QuoteAt, Toks, Joined;
    var n, m := |s| + QuoteAt(t), QuoteAt(t);
    QuoteAfter(s, t);
    assert (s + t)[..n] == s + t[..m];
    assert LexemesBehind(s + t) == LexemesBehind(t) by { if m < |t| { assert (s + t)[n + 1..] == t[m + 1..]; } }
    hide LexemesBehind;
    match Lex(t[..m])
    case None => NoCode(Toks(ts));
    case Some(us) => MoreCode(ts, us, LexemesBehind(t));
  }

  lemma NoCode(ls: seq<Lexeme>)
    ensures Joined(ls, None) == None
  {
  }

  lemma MoreCode(ts: seq<Token>, us: seq<Token>, rest: Option<seq<Lexeme>>)
    ensures Joined(Toks(ts + us), rest) == Joined(Toks(ts), Joined(Toks(us), rest))
  {
    hide Toks, Joined;
    ToksJoin(ts, us);
    JoinedTwice(Toks(ts), Toks(us), rest);
  }

  lemma {:induction false} ToksJoin(ts: seq<Token>, us: seq<Token>)
    ensures Toks(ts + us) == Toks(ts) + Toks(us)
  {
    if ts == [] {
      assert ts + us == us;
    } else {
      assert (ts + us)[1..] == ts[1..] + us;
      ToksJoin(ts[1..], us);
    }
  }

  lemma JoinedTwice(a: seq<Lexeme>, b: seq<Lexeme>, rest: Option<seq<Lexeme>>)
    ensures Joined(a + b, rest) == Joined(a, Joined(b, rest)) && Joined([], rest) == rest
  {
    if rest.Some? { assert (a + b) + rest.value == a + (b + rest.value) && [] + rest.value == rest.value; }
  }

  lemma QuoteBehind(body: string, t: string)
    requires '\'' !in body
    ensures var s := "'" + body + "'" + t; Front(s) == "" && LexemesBehind(s) == Joined([Quote(body)], Lexemes(t))
  {
    hide QuoteAt, Lexemes, Joined;
    QuotePlaces(body, t);
    BodySlices(body, t);
  }

  lemma QuotePlaces(body: string, t: string)
    requires '\'' !in body
    ensures var s, rest := "'" + body + "'" + t, body + ("'" + t);
            s[1..] == rest && QuoteAt(s) == 0 && QuoteAt(rest) == |body|
  {
    var s, rest := "'" + body + "'" + t, body + ("'" + t);
    assert s[0] == '\'' && ("'" + t)[0] == '\'' && s[1..] == rest;
    QuoteAfter(body, "'" + t);
  }

  lemma BodySlices(body: string, t: string)
    ensures var rest := body + ("'" + t); rest[..|body|] == body && rest[|body| + 1..] == t
  {
  }

  lemma SaysQuote(body: string, t: string)
    requires '\'' !in body
    ensures Says("'" + body + "'", [Quote(body)], t)
  {
    hide Lex, LexemesBehind, Front, Joined;
    QuoteBehind(body, t);
    LexNothing();
    assert Toks([]) == [];
    JoinedTwice([], [Quote(body)], LexemesBehind("'" + body + "'" + t));
  }

  lemma LexNothing()
    ensures Lex("") == Some([]) && Lexemes("") == Some([])
  {
    assert Front("") == "";
    JoinedTwice([], [], Some([]));
  }

  lemma SaysJoin(a: string, la: seq<Lexeme>, b: string, lb: seq<Lexeme>, t: string)
    requires Says(a, la, b + t) && Says(b, lb, t)
    ensures Says(a + b, la + lb, t)
  {
    hide Lexemes, Joined;
    assert (a + b) + t == a + (b + t);
    JoinedTwice(la, lb, Lexemes(t));
  }

  // ------------------------------------------------------------- reading code

  /** A word and a blank in front of what has been read. */
  lemma ReadsSpaced(w: string, f: string, rest: string, restT: seq<Token>, t: string)
    requires w != "" && FoldsTo(w, f) && Reads(rest, restT, t)
    ensures Reads(w + (" " + rest), [Word(f)] + restT, t)
  {
    hide Lex, Reads, FoldsTo;
    ReadsBlank(rest, restT, t);
    ReadsWord(w, f, " " + rest, restT, t);
  }

  /** Tokenized code has no quotes and no comments, and no placeholder unless a token is one. */
  lemma {:induction false} LexIsCalm(s: string)
    requires Lex(s).Some?
    ensures Bland(s) && (Sym("?") !in Lex(s).value ==> Plain(s))
    decreases |s|
  {
    if s != "" {
      var n := LexStep(s);
      LexIsCalm(s[n..]);
      assert s == s[..n] + s[n..];
      hide Lex;
      BlandJoin(s[..n], s[n..]);
    }
  }

  /** The tokenizer takes some characters off the front, none of them of quotes or comments. */
  lemma LexStep(s: string) returns (n: nat)
    requires s != "" && Lex(s).Some?
    ensures 0 < n <= |s| && Bland(s[..n]) && Lex(s[n..]).Some?
    ensures Sym("?") !in Lex(s).value ==> Plain(s[..n]) && Sym("?") !in Lex(s[n..]).value
  {
    if SqlLexer.IsBlank(s[0]) {
      n := 1;
    } else if IsWordChar(s[0]) {
      n := WordLength(s);
    } else if s[0] !in SINGLES && |s| > 1 && (s[1] == '=' || s[0] == '|') {
      n := 2;
    } else {
      n := 1;
      if s[0] == '?' { assert Lex(s).value[0] == Sym("?") && [s[0]] == "?"; }
    }
    hide Lex, Bland;
    BlandEach(s[..n]);
  }

  lemma BlandEach(s: string)
    requires forall i :: 0 <= i < |s| ==> IsWordChar(s[i]) || SqlLexer.IsBlank(s[i]) || s[i] in SINGLES || s[i] in {'<', '>', '!', '|'}
    ensures Bland(s)
  {
  }

  /** Code read in front of nothing is calm. */
  lemma ReadsIsCalm(s: string, ts: seq<Token>)
    requires Reads(s, ts, "") && Sym("?") !in ts
    ensures Lex(s) == Some(ts) && Bland(s) && Plain(s)
  {
    hide Lex;
    LexNothing();
    assert s + "" == s && ts + [] == ts;
    LexIsCalm(s);
  }
}
