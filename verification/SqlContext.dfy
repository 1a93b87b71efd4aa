/** How SQL reads text character by character: code, quoted text, line comments, and block comments, which nest. */
module SqlContext {
  import opened Text

  /** Dash and Slash are code that has just read a `-` or a `/`; Star and Opening the same within a block comment. */
  datatype Context = Code | Dash | Slash | Line | Block(level: nat) | Star(level: nat) | Opening(level: nat) | Quoted

  predicate InCode(c: Context) { c.Code? || c.Dash? || c.Slash? }

  predicate InBlock(c: Context) { c.Block? || c.Star? || c.Opening? }

  function Next(ctx: Context, c: char): Context {
    match ctx
    case Line => if c == '\n' || c == '\r' then Code else Line
    case Quoted => if c == '\'' then Code else Quoted
    case Block(l) => if c == '*' then Star(l) else if c == '/' then Opening(l) else Block(l)
    case Star(l) => if c == '/' then if l == 0 then Code else Block(l - 1) else if c == '*' then Star(l) else Block(l)
    case Opening(l) => if c == '*' then Block(l + 1) else if c == '/' then Opening(l) else Block(l)
    case _ =>
      if ctx.Dash? && c == '-' then Line
      else if ctx.Slash? && c == '*' then Block(0)
      else if c == '-' then Dash
      else if c == '/' then Slash
      else if c == '\'' then Quoted
      else Code
  }

  function After(s: string, ctx: Context): Context { if s == "" then ctx else After(s[1..], Next(ctx, s[0])) }

  /** The `?` characters read as code: the placeholders the engine sees. */
  function Live(s: string, ctx: Context): nat {
    if s == "" then 0 else (if s[0] == '?' && InCode(ctx) then 1 else 0) + Live(s[1..], Next(ctx, s[0]))
  }

  lemma {:induction false} AfterJoin(a: string, b: string, ctx: Context)
    ensures After(a + b, ctx) == After(b, After(a, ctx)) && Live(a + b, ctx) == Live(a, ctx) + Live(b, After(a, ctx))
    decreases |a|
  {
    if a == "" {
      assert a + b == b;
    } else {
      assert (a + b)[1..] == a[1..] + b;
      AfterJoin(a[1..], b, Next(ctx, a[0]));
    }
  }

  // ------------------------------------------------------------- text that starts and ends in code

  predicate Neutral(s: string) { InCode(After(s, Code)) && InCode(After(s, Dash)) && InCode(After(s, Slash)) }

  lemma NeutralJoin(a: string, b: string)
    requires Neutral(a) && Neutral(b)
    ensures Neutral(a + b)
  {
    AfterJoin(a, b, Code);
    AfterJoin(a, b, Dash);
    AfterJoin(a, b, Slash);
  }

  lemma {:induction false} NeutralParts(parts: seq<string>, sep: string)
    requires Neutral(sep) && forall i :: 0 <= i < |parts| ==> Neutral(parts[i])
    ensures Neutral(Join(parts, sep))
  {
    hide Neutral;
    if parts == [] {
      NothingNeutral();
    } else if |parts| > 1 {
      NeutralParts(parts[1..], sep);
      NeutralJoin(parts[0], sep);
      NeutralJoin(parts[0] + sep, Join(parts[1..], sep));
    }
  }

  lemma NothingNeutral()
    ensures Neutral("")
  {
  }

  /** No character that starts or ends quoted text or a comment. */
  predicate Bland(s: string) { '-' !in s && '/' !in s && '*' !in s && '\'' !in s }

  lemma BlandJoin(a: string, b: string)
    ensures Bland(a + b) <==> Bland(a) && Bland(b)
  {
  }

  lemma {:induction false} BlandStays(s: string, ctx: Context)
    requires Bland(s) && InCode(ctx)
    ensures InCode(After(s, ctx)) && Live(s, ctx) == Marks(s) && (s != "" ==> After(s, ctx) == Code)
  {
    if s != "" {
      assert s[0] in s;
      BlandStays(s[1..], Next(ctx, s[0]));
    }
  }

  lemma BlandNeutral(s: string)
    requires Bland(s)
    ensures Neutral(s)
  {
    BlandStays(s, Code);
    BlandStays(s, Dash);
    BlandStays(s, Slash);
  }

  lemma {:induction false} QuotedBody(body: string)
    requires '\'' !in body
    ensures After(body, Quoted) == Quoted
  {
    if body != "" { QuotedBody(body[1..]); }
  }

  lemma QuotedNeutral(body: string)
    requires '\'' !in body
    ensures Neutral("'" + body + "'")
  {
    QuotedBody(body);
    assert "'" + body + "'" == "'" + (body + "'");
    forall ctx | InCode(ctx) ensures After("'" + body + "'", ctx) == Code {
      AfterJoin("'", body + "'", ctx);
      AfterJoin(body, "'", Quoted);
      assert After("'", ctx) == Quoted && After("'", Quoted) == Code;
    }
  }

  lemma {:induction false} NoMarkLive(s: string, ctx: Context)
    requires '?' !in s
    ensures Live(s, ctx) == 0
  {
    if s != "" {
      assert s[0] in s;
      NoMarkLive(s[1..], Next(ctx, s[0]));
    }
  }

  // ------------------------------------------------------------- comments that are not closed

  /** The text never closes a block comment, whatever comes before it. */
  predicate NeverCloses(s: string) {
    && (forall i :: 0 <= i < |s| - 1 ==> !(s[i] == '*' && s[i + 1] == '/'))
    && (s != "" ==> s[0] != '/')
  }

  lemma {:induction false} StaysInBlock(s: string, ctx: Context)
    requires InBlock(ctx) && (forall i :: 0 <= i < |s| - 1 ==> !(s[i] == '*' && s[i + 1] == '/'))
    requires ctx.Star? && s != "" ==> s[0] != '/'
    ensures InBlock(After(s, ctx)) && Live(s, ctx) == 0
  {
    if s != "" { StaysInBlock(s[1..], Next(ctx, s[0])); }
  }

  /** Without quotes, a text read from code ends outside quoted text. */
  lemma {:induction false} NeverQuoted(s: string, ctx: Context)
    requires '\'' !in s && !ctx.Quoted?
    ensures !After(s, ctx).Quoted?
  {
    if s != "" { NeverQuoted(s[1..], Next(ctx, s[0])); }
  }

  // ------------------------------------------------------------- parentheses

  datatype Reading = Closes(at: nat) | RunsOut

  /** The parenthesis, read as code, that closes one opened before the text; `depth` more are open. */
  function Scan(s: string, at: nat, ctx: Context, depth: nat): (r: Reading)
    requires at <= |s|
    ensures r.Closes? ==> at <= r.at < |s|
    decreases |s| - at
  {
    if at == |s| then RunsOut
    else if InCode(ctx) && s[at] == ')' && depth == 0 then Closes(at)
    else Scan(s, at + 1, Next(ctx, s[at]), Deeper(ctx, s[at], depth))
  }

  function Deeper(ctx: Context, c: char, depth: nat): nat {
    if InCode(ctx) && c == '(' then depth + 1
    else if InCode(ctx) && c == ')' && depth > 0 then depth - 1
    else depth
  }

  /** The text closes no parenthesis it did not open, closes all it did, and ends in code. */
  predicate Kept(s: string, at: nat, ctx: Context, depth: nat)
    requires at <= |s|
    decreases |s| - at
  {
    if at == |s| then InCode(ctx) && depth == 0
    else !(InCode(ctx) && s[at] == ')' && depth == 0) && Kept(s, at + 1, Next(ctx, s[at]), Deeper(ctx, s[at], depth))
  }

  /** An open parenthesis in front of the text is closed by the one behind it exactly when the text is kept. */
  lemma {:induction false} ClosesBehind(text: string, rest: string, at: nat, ctx: Context, depth: nat)
    requires at <= |text|
    ensures Scan(text + ")" + rest, at, ctx, depth) == Closes(|text|) <==> Kept(text, at, ctx, depth)
    decreases |text| - at
  {
    var s := text + ")" + rest;
    assert s[|text|] == ')' && (at < |text| ==> s[at] == text[at]);
    if at < |text| && !(InCode(ctx) && text[at] == ')' && depth == 0) {
      ClosesBehind(text, rest, at + 1, Next(ctx, text[at]), Deeper(ctx, text[at], depth));
    }
  }

  /** A kept text may be followed by more as if it began there. */
  lemma {:induction false} KeptThen(text: string, more: string, at: nat, ctx: Context, depth: nat) returns (last: Context)
    requires at <= |text| && Kept(text, at, ctx, depth)
    ensures InCode(last) && (Kept(text + more, at, ctx, depth) <==> Kept(text + more, |text|, last, 0))
    decreases |text| - at
  {
    if at == |text| {
      last := ctx;
    } else {
      assert (text + more)[at] == text[at];
      last := KeptThen(text, more, at + 1, Next(ctx, text[at]), Deeper(ctx, text[at], depth));
    }
  }

  /** Parentheses opened and not closed. */
  function Depth(s: string): int {
    if s == "" then 0
    else
      var n := |s| - 1;
      Depth(s[..n]) + (if s[n] == '(' then 1 else if s[n] == ')' then -1 else 0)
  }

  /** Without dashes, slashes and quotes there are no comments, and a text is kept exactly when its parentheses never
      close below zero and end balanced. */
  lemma {:induction false} KeptIsBalanced(s: string, at: nat, ctx: Context)
    requires at <= |s| && InCode(ctx) && '-' !in s && '/' !in s && '\'' !in s && Depth(s[..at]) >= 0 && ctx.Code?
    ensures Kept(s, at, ctx, Depth(s[..at])) <==> (forall k :: at <= k <= |s| ==> Depth(s[..k]) >= 0) && Depth(s) == 0
    decreases |s| - at
  {
    if at == |s| {
      assert s[..at] == s;
    } else {
      assert s[at] in s && s[..at + 1][..at] == s[..at];
      if Depth(s[..at + 1]) >= 0 { KeptIsBalanced(s, at + 1, Next(ctx, s[at])); }
    }
  }
}
