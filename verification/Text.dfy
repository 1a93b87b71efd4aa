/** The Go string operations the query builder relies on, over Unicode scalar values. */
module Text {
  import opened Prelude

  /** The Unicode tables consulted for characters beyond ASCII; every theorem holds for any table. */
  datatype Unicode = Unicode(letter: char -> bool, digit: char -> bool, space: char -> bool,
                             lower: char -> char, upper: char -> char)

  predicate IsAscii(c: char) { (c as int) < 128 }

  predicate IsAsciiLetter(c: char) { 'a' <= c <= 'z' || 'A' <= c <= 'Z' }

  predicate IsAsciiDigit(c: char) { '0' <= c <= '9' }

  predicate IsLetter(u: Unicode, c: char) { if IsAscii(c) then IsAsciiLetter(c) else u.letter(c) }

  predicate IsDigit(u: Unicode, c: char) { if IsAscii(c) then IsAsciiDigit(c) else u.digit(c) }

  predicate IsSpace(u: Unicode, c: char) {
    if IsAscii(c) then c in {' ', '\t', '\n', '\r'} || c as int == 11 || c as int == 12 else u.space(c)
  }

  function FoldChar(c: char): char {
    if 'A' <= c <= 'Z' then (c as int + 32) as char else c
  }

  /** ASCII case folding, the comparison SQL applies to keywords and unquoted names. */
  function Fold(s: string): string {
    if s == "" then "" else [FoldChar(s[0])] + Fold(s[1..])
  }

  /** strings.ToLower. No table lowers a letter to an ASCII capital, hence the outer FoldChar. */
  function ToLower(u: Unicode, s: string): (r: string)
    ensures |r| == |s|
    ensures forall c :: c in r ==> FoldChar(c) == c
  {
    if s == "" then ""
    else
      var c := s[0];
      [FoldChar(if IsAscii(c) then c else u.lower(c))] + ToLower(u, s[1..])
  }

  function TrimLeft(u: Unicode, s: string): (r: string)
    ensures r == "" || !IsSpace(u, r[0])
    ensures exists k :: 0 <= k <= |s| && r == s[k..]
  {
    if s != "" && IsSpace(u, s[0]) then
      var r := TrimLeft(u, s[1..]);
      var k :| 0 <= k <= |s[1..]| && r == s[1..][k..];
      assert r == s[k + 1..];
      r
    else
      assert s == s[0..];
      s
  }

  function TrimRight(u: Unicode, s: string): (r: string)
    ensures r <= s
  {
    if s != "" && IsSpace(u, s[|s| - 1]) then TrimRight(u, s[..|s| - 1]) else s
  }

  /** strings.TrimSpace */
  function TrimSpace(u: Unicode, s: string): (r: string)
    ensures forall c :: c in r ==> c in s
  {
    TrimRight(u, TrimLeft(u, s))
  }

  predicate Spaces(u: Unicode, s: string) { forall i :: 0 <= i < |s| ==> IsSpace(u, s[i]) }

  /** `s[i..j]` is what is left of `s` without the white space around it. */
  predicate Core(u: Unicode, s: string, i: nat, j: nat) {
    && i <= j <= |s| && Spaces(u, s[..i]) && Spaces(u, s[j..])
    && (i < j ==> !IsSpace(u, s[i]) && !IsSpace(u, s[j - 1]))
  }

  lemma {:induction false} TrimmedLeft(u: Unicode, s: string, i: nat)
    requires i <= |s| && Spaces(u, s[..i]) && (i < |s| ==> !IsSpace(u, s[i]))
    ensures TrimLeft(u, s) == s[i..]
  {
    hide IsSpace;
    if i > 0 {
      assert IsSpace(u, s[..i][0]) && s[1..][..i - 1] == s[..i][1..] && s[1..][i - 1..] == s[i..];
      TrimmedLeft(u, s[1..], i - 1);
    }
  }

  lemma {:induction false} TrimmedRight(u: Unicode, s: string, j: nat)
    requires j <= |s| && Spaces(u, s[j..]) && (j > 0 ==> !IsSpace(u, s[j - 1]))
    ensures TrimRight(u, s) == s[..j]
  {
    hide IsSpace;
    if j < |s| {
      var last := |s| - 1;
      assert IsSpace(u, s[j..][last - j]) && s[..last][j..] == s[j..][..last - j] && s[..last][..j] == s[..j];
      TrimmedRight(u, s[..last], j);
    }
  }

  /** Trimming leaves the core. */
  lemma TrimIsCore(u: Unicode, s: string, i: nat, j: nat)
    requires Core(u, s, i, j)
    ensures TrimSpace(u, s) == s[i..j]
  {
    hide IsSpace, TrimLeft, TrimRight;
    if i == j {
      assert s == s[..i] + s[j..];
      assert Spaces(u, s) by { forall k | 0 <= k < |s| ensures IsSpace(u, s[k]) { assert k < i ==> s[k] == s[..i][k]; assert k >= i ==> s[k] == s[i..][k - i]; } }
      assert s[..|s|] == s;
      TrimmedLeft(u, s, |s|);
      TrimmedRight(u, "", 0);
    } else {
      TrimmedLeft(u, s, i);
      assert s[i..][j - i..] == s[j..] && s[i..][..j - i] == s[i..j];
      TrimmedRight(u, s[i..], j - i);
    }
  }

  /** Every text has a core; it is empty exactly for white space. */
  lemma {:induction false} CoreExists(u: Unicode, s: string) returns (i: nat, j: nat)
    ensures Core(u, s, i, j) && (i == j <==> Spaces(u, s))
    decreases |s|
  {
    hide IsSpace;
    if s != "" && IsSpace(u, s[0]) {
      i, j := CoreExists(u, s[1..]);
      i, j := i + 1, j + 1;
      assert s[..i] == [s[0]] + s[1..][..i - 1] && s[1..][j - 1..] == s[j..] && s == [s[0]] + s[1..];
    } else if s != "" && IsSpace(u, s[|s| - 1]) {
      var init := s[..|s| - 1];
      i, j := CoreExists(u, init);
      assert init[..i] == s[..i] && s[j..] == init[j..] + [s[|s| - 1]] && s == init + [s[|s| - 1]];
    } else {
      i, j := 0, |s|;
    }
  }

  lemma BlankIsTrimmed(u: Unicode, s: string)
    ensures TrimSpace(u, s) == "" <==> Spaces(u, s)
  {
    hide TrimSpace, IsSpace;
    var i, j := CoreExists(u, s);
    TrimIsCore(u, s, i, j);
  }

  /** strings.Replace(s, pat, rep, 1) */
  function ReplaceFirst(s: string, pat: string, rep: string): string
    decreases |s|
  {
    if pat <= s then rep + s[|pat|..]
    else if s == "" then ""
    else [s[0]] + ReplaceFirst(s[1..], pat, rep)
  }

  /** `k` is the first place where `pat` stands in `s`. */
  predicate FirstAt(s: string, pat: string, k: nat) {
    k <= |s| && pat <= s[k..] && forall j :: 0 <= j < k ==> !(pat <= s[j..])
  }

  /** The first occurrence is replaced and nothing else. */
  lemma {:induction false} ReplacedAt(s: string, pat: string, rep: string, k: nat)
    requires FirstAt(s, pat, k)
    ensures k + |pat| <= |s| && ReplaceFirst(s, pat, rep) == s[..k] + rep + s[k + |pat|..]
    decreases |s|
  {
    hide FirstAt, ReplaceFirst;
    FirstAtFits(s, pat, k);
    ReplaceStep(s, pat, rep);
    if k == 0 {
      assert s[..0] + rep + s[|pat|..] == rep + s[|pat|..];
    } else {
      FirstInTail(s, pat, k);
      ReplacedAt(s[1..], pat, rep, k - 1);
      Reattached(s, rep, k, k + |pat|);
    }
  }

  lemma ReplaceStep(s: string, pat: string, rep: string)
    ensures pat <= s ==> ReplaceFirst(s, pat, rep) == rep + s[|pat|..]
    ensures !(pat <= s) && s != "" ==> ReplaceFirst(s, pat, rep) == [s[0]] + ReplaceFirst(s[1..], pat, rep)
  {
  }

  lemma Reattached(s: string, rep: string, k: nat, end: nat)
    requires 0 < k <= end <= |s|
    ensures [s[0]] + (s[1..][..k - 1] + rep + s[1..][end - 1..]) == s[..k] + rep + s[end..]
  {
  }

  lemma FirstAtFits(s: string, pat: string, k: nat)
    requires FirstAt(s, pat, k)
    ensures k + |pat| <= |s| && (k > 0 ==> !(pat <= s) && s != "") && (k == 0 ==> pat <= s)
  {
    assert s[0..] == s;
  }

  lemma FirstInTail(s: string, pat: string, k: nat)
    requires k > 0 && FirstAt(s, pat, k)
    ensures FirstAt(s[1..], pat, k - 1)
  {
    assert s[1..][k - 1..] == s[k..];
    forall j | 0 <= j < k - 1 ensures !(pat <= s[1..][j..]) {
      assert s[1..][j..] == s[j + 1..];
    }
  }

  /** Without an occurrence nothing changes. */
  lemma {:induction false} NotReplaced(s: string, pat: string, rep: string)
    requires pat != "" && forall k :: 0 <= k <= |s| ==> !(pat <= s[k..])
    ensures ReplaceFirst(s, pat, rep) == s
    decreases |s|
  {
    assert s[0..] == s;
    if s != "" {
      assert forall k :: 0 <= k <= |s[1..]| ==> s[1..][k..] == s[k + 1..];
      NotReplaced(s[1..], pat, rep);
    }
  }

  lemma {:induction false} FirstExists(s: string, pat: string, k: nat) returns (first: nat)
    requires k <= |s| && pat <= s[k..]
    ensures FirstAt(s, pat, first)
  {
    if FirstAt(s, pat, k) {
      first := k;
    } else {
      var j: nat :| j < k && pat <= s[j..];
      first := FirstExists(s, pat, j);
    }
  }

  /** strings.ReplaceAll: leftmost matches, no overlap, no rescanning of the replacement. */
  function ReplaceAll(s: string, pat: string, rep: string): string
    requires pat != ""
    decreases |s|
  {
    if s == "" then ""
    else if pat <= s then rep + ReplaceAll(s[|pat|..], pat, rep)
    else [s[0]] + ReplaceAll(s[1..], pat, rep)
  }

  /** strings.Split on a one-character separator; always at least one piece. */
  function Split(s: string, sep: char): (parts: seq<string>)
    ensures |parts| >= 1
  {
    if s == "" then [""]
    else
      var rest := Split(s[1..], sep);
      if s[0] == sep then [""] + rest else [[s[0]] + rest[0]] + rest[1..]
  }

  /** strings.Join */
  function Join(parts: seq<string>, sep: string): string {
    if parts == [] then ""
    else if |parts| == 1 then parts[0]
    else parts[0] + sep + Join(parts[1..], sep)
  }

  /** The number of `?` characters, which is how many placeholders a query text offers. */
  function Marks(s: string): nat {
    if s == "" then 0 else (if s[0] == '?' then 1 else 0) + Marks(s[1..])
  }

  lemma {:induction false} MarksConcat(a: string, b: string)
    ensures Marks(a + b) == Marks(a) + Marks(b)
    decreases |a|
  {
    if a == "" {
      assert a + b == b;
    } else {
      assert (a + b)[1..] == a[1..] + b;
      MarksConcat(a[1..], b);
    }
  }

  lemma {:induction false} NoMarks(s: string)
    requires '?' !in s
    ensures Marks(s) == 0
  {
    if s != "" { NoMarks(s[1..]); }
  }

  lemma {:induction false} MarksJoin(parts: seq<string>, sep: string)
    requires '?' !in sep
    requires forall i :: 0 <= i < |parts| ==> '?' !in parts[i]
    ensures '?' !in Join(parts, sep)
  {
    if |parts| > 1 { MarksJoin(parts[1..], sep); }
  }
}
