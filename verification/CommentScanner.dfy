/**
 The Rust comment scanner: a source cut into tokens by the scanner's own rules, its comments reported with their lines.
 `alnum` says which characters continue a word.
 */
module CommentScanner {

  datatype Kind = Newline | LineComment | BlockComment | RawString | Quoted | EscapedChar | PlainChar | Other

  /** A stretch of the source; the last may reach one past its end. */
  datatype Token = Token(kind: Kind, start: nat, end: nat)

  /** A reported comment: its lines, 1-based, its first column, its text. */
  datatype Span = Span(startLine: nat, column: nat, endLine: nat, text: string)

  type Alnum = char -> bool

  // ---------------------------------------------------------------- where a token ends

  /** The first newline at or after `i`, or the end. */
  function LineEnd(src: string, i: nat): (j: nat)
    requires i <= |src|
    ensures i <= j <= |src| && (forall k | i <= k < j :: src[k] != '\n') && (j < |src| ==> src[j] == '\n')
    decreases |src| - i
  {
    if i == |src| || src[i] == '\n' then i else LineEnd(src, i + 1)
  }

  predicate Opens(src: string, j: nat) {
    j + 1 < |src| && src[j] == '/' && src[j + 1] == '*'
  }

  predicate Closes(src: string, j: nat) {
    j + 1 < |src| && src[j] == '*' && src[j + 1] == '/'
  }

  /** Past the mark that brings a depth of `depth` back to zero, or the end. */
  function BlockEnd(src: string, j: nat, depth: nat): (e: nat)
    requires j <= |src|
    ensures j <= e <= |src|
    decreases |src| - j
  {
    if j == |src| then j
    else if Opens(src, j) then BlockEnd(src, j + 2, depth + 1)
    else if Closes(src, j) then if depth <= 1 then j + 2 else BlockEnd(src, j + 2, depth - 1)
    else BlockEnd(src, j + 1, depth)
  }

  /** The end of a run of hashes. */
  function HashEnd(src: string, k: nat): (e: nat)
    requires k <= |src|
    ensures k <= e <= |src| && (forall m | k <= m < e :: src[m] == '#') && (e < |src| ==> src[e] != '#')
    decreases |src| - k
  {
    if k == |src| || src[k] != '#' then k else HashEnd(src, k + 1)
  }

  predicate Occurs(src: string, term: string, k: nat) {
    k + |term| <= |src| && src[k..k + |term|] == term
  }

  /** Past the first occurrence of `term` at or after `k`, or the end. */
  function PastTerm(src: string, term: string, k: nat): (e: nat)
    requires k <= |src|
    ensures k <= e <= |src|
    decreases |src| - k
  {
    if Occurs(src, term, k) then k + |term| else if k == |src| then k else PastTerm(src, term, k + 1)
  }

  /** Past the closing quote, a backslash taking the next character with it; perhaps one past the end. */
  function QuoteEnd(src: string, j: nat): (e: nat)
    requires j <= |src| + 1
    ensures j <= e <= |src| + 1
    decreases |src| + 1 - j
  {
    if j >= |src| then j
    else if src[j] == '\\' then QuoteEnd(src, j + 2)
    else if src[j] == '"' then j + 1
    else QuoteEnd(src, j + 1)
  }

  /** The first single quote at or after `j`, or the end. */
  function TickEnd(src: string, j: nat): (e: nat)
    requires j <= |src|
    ensures j <= e <= |src|
    decreases |src| - j
  {
    if j == |src| || src[j] == '\'' then j else TickEnd(src, j + 1)
  }

  // ---------------------------------------------------------------- the token at a place

  predicate At(src: string, i: nat, c: char) {
    i < |src| && src[i] == c
  }

  /** The place of the `r` a raw string would start with at `i`. */
  function RawMark(src: string, i: nat): nat {
    if At(src, i, 'b') && At(src, i + 1, 'r') then i + 1 else i
  }

  /** A raw string starts at `i`: r or br on a word boundary, hashes, a quote. */
  predicate IsRaw(src: string, i: nat, alnum: Alnum)
    requires i < |src|
  {
    && src[i] in {'r', 'b'} && (i == 0 || !(alnum(src[i - 1]) || src[i - 1] == '_'))
    && At(src, RawMark(src, i), 'r') && At(src, HashEnd(src, RawMark(src, i) + 1), '"')
  }

  /** What ends the raw string at `i`: a quote and as many hashes as it started with. */
  function Term(src: string, i: nat): string
    requires i < |src|
  {
    var r := RawMark(src, i);
    "\"" + seq(HashEnd(src, r + 1) - (r + 1), k => '#')
  }

  function KindAt(src: string, i: nat, alnum: Alnum): Kind
    requires i < |src|
  {
    if src[i] == '\n' then Newline
    else if src[i] == '/' && At(src, i + 1, '/') then LineComment
    else if Opens(src, i) then BlockComment
    else if IsRaw(src, i, alnum) then RawString
    else if src[i] == '"' || (src[i] == 'b' && At(src, i + 1, '"')) then Quoted
    else if src[i] == '\'' && At(src, i + 1, '\\') then EscapedChar
    else if src[i] == '\'' && At(src, i + 2, '\'') then PlainChar
    else Other
  }

  function EndAt(src: string, i: nat, kind: Kind, alnum: Alnum): (e: nat)
    requires i < |src| && kind == KindAt(src, i, alnum)
    ensures i < e <= |src| + 1
  {
    match kind
    case Newline => i + 1
    case LineComment => LineEnd(src, i + 2)
    case BlockComment => BlockEnd(src, i + 2, 1)
    case RawString => PastTerm(src, Term(src, i), HashEnd(src, RawMark(src, i) + 1) + 1)
    case Quoted => QuoteEnd(src, i + if src[i] == 'b' then 2 else 1)
    case EscapedChar => TickEnd(src, i + 2) + 1
    case PlainChar => i + 3
    case Other => i + 1
  }

  function TokenAt(src: string, i: nat, alnum: Alnum): (t: Token)
    requires i < |src|
    ensures t.start == i < t.end <= |src| + 1
  {
    var kind := KindAt(src, i, alnum);
    Token(kind, i, EndAt(src, i, kind, alnum))
  }

  /** The tokens from `i` on, each starting where the one before ends. */
  function Tokens(src: string, i: nat, alnum: Alnum): seq<Token>
    decreases |src| + 1 - i
  {
    if i >= |src| then [] else [TokenAt(src, i, alnum)] + Tokens(src, TokenAt(src, i, alnum).end, alnum)
  }

  // ---------------------------------------------------------------- what is reported of them

  function Newlines(s: string): nat {
    if s == "" then 0 else Newlines(s[..|s| - 1]) + if s[|s| - 1] == '\n' then 1 else 0
  }

  /** The text between two places, the second perhaps past the end. */
  function Slice(src: string, i: nat, j: nat): string {
    if i > |src| || i > j then "" else if j <= |src| then src[i..j] else src[i..]
  }

  function Text(src: string, t: Token): string {
    Slice(src, t.start, t.end)
  }

  predicate IsComment(k: Kind) {
    k == LineComment || k == BlockComment
  }

  /** The newlines the scanner counts in a token: those of a character literal it does not. */
  function Counted(src: string, t: Token): nat {
    if t.kind in {EscapedChar, PlainChar} then 0 else Newlines(Text(src, t))
  }

  /** How far `i` is past the newline before it. */
  function Column(src: string, i: nat): (col: nat)
    requires i <= |src|
    ensures col <= i && (forall k | i - col <= k < i :: src[k] != '\n') && (col < i ==> src[i - col - 1] == '\n')
  {
    if i == 0 || src[i - 1] == '\n' then 0 else Column(src, i - 1) + 1
  }

  function SpanOf(src: string, t: Token, line: nat): Span {
    Span(line, if t.start <= |src| then Column(src, t.start) else 0, line + Counted(src, t), Text(src, t))
  }

  /** The spans of the comments among the tokens, the first of which starts on `line`. */
  function SpansOf(src: string, tokens: seq<Token>, line: nat): seq<Span> {
    if tokens == [] then []
    else (if IsComment(tokens[0].kind) then [SpanOf(src, tokens[0], line)] else []) +
         SpansOf(src, tokens[1..], line + Counted(src, tokens[0]))
  }

  // ---------------------------------------------------------------- the scanner

  lemma {:induction false} NewlinesSplit(s: string, t: string)
    ensures Newlines(s + t) == Newlines(s) + Newlines(t)
    decreases |t|
  {
    if t == "" {
      assert s + t == s;
    } else {
      assert (s + t)[..|s + t| - 1] == s + t[..|t| - 1];
      NewlinesSplit(s, t[..|t| - 1]);
    }
  }

  lemma NewlinesNext(src: string, i: nat, j: nat)
    requires i <= j < |src|
    ensures Newlines(src[i..j + 1]) == Newlines(src[i..j]) + if src[j] == '\n' then 1 else 0
  {
    assert src[i..j + 1][..j - i] == src[i..j];
  }

  /** A nested block comment from its opening mark, its lines counted on the way. */
  method ScanBlock(src: string, i: nat, line: nat) returns (j: nat, after: nat)
    requires Opens(src, i)
    ensures i < j <= |src| && j == BlockEnd(src, i + 2, 1) && after == line + Newlines(src[i..j])
  {
    var depth := 0;
    j, after := i, line;
    assert BlockEnd(src, i, 0) == BlockEnd(src, i + 2, 1);
    while j < |src|
      invariant i <= j <= |src| && (j > i ==> depth > 0) && (j == i ==> depth == 0)
      invariant BlockEnd(src, j, depth) == BlockEnd(src, i + 2, 1)
      invariant after == line + Newlines(src[i..j])
    {
      NewlinesNext(src, i, j);
      if j + 1 < |src| {
        NewlinesNext(src, i, j + 1);
      }
      if src[j] == '\n' {
        after := after + 1;
        j := j + 1;
      } else if src[j] == '/' && j + 1 < |src| && src[j + 1] == '*' {
        depth := depth + 1;
        j := j + 2;
      } else if src[j] == '*' && j + 1 < |src| && src[j + 1] == '/' {
        depth := depth - 1;
        j := j + 2;
        if depth == 0 {
          break;
        }
      } else {
        j := j + 1;
      }
    }
  }

  /** Past the raw string that starts at `i`, if one does. */
  method ScanRaw(src: string, i: nat, alnum: Alnum) returns (found: bool, end: nat)
    requires i < |src|
    ensures found <==> IsRaw(src, i, alnum)
    ensures found ==> end == PastTerm(src, Term(src, i), HashEnd(src, RawMark(src, i) + 1) + 1)
  {
    hide PastTerm, Occurs;
    var c := src[i];
    found, end := false, i;
    if (c == 'r' || c == 'b') && (i == 0 || !(alnum(src[i - 1]) || src[i - 1] == '_')) {
      var j := if c == 'b' && i + 1 < |src| && src[i + 1] == 'r' then i + 1 else i;
      if src[j] == 'r' {
        var k, hashes := j + 1, 0;
        while k < |src| && src[k] == '#'
          invariant j < k <= |src| && hashes == k - (j + 1) && HashEnd(src, k) == HashEnd(src, j + 1)
        {
          hashes, k := hashes + 1, k + 1;
        }
        if k < |src| && src[k] == '"' {
          var term := "\"" + seq(hashes, m => '#');
          found, end := true, PastTerm(src, term, k + 1);
        }
      }
    }
  }

  /** Past the string whose contents start at `j`. */
  method ScanQuoted(src: string, from: nat) returns (j: nat)
    requires from <= |src|
    ensures j == QuoteEnd(src, from)
  {
    j := from;
    while j < |src|
      invariant from <= j <= |src| + 1 && QuoteEnd(src, j) == QuoteEnd(src, from)
    {
      if src[j] == '\\' {
        j := j + 2;
      } else if src[j] == '"' {
        j := j + 1;
        break;
      } else {
        j := j + 1;
      }
    }
  }

  /** Past the escaped character literal that starts at `i`. */
  method ScanTick(src: string, i: nat) returns (end: nat)
    requires i + 2 <= |src|
    ensures end == TickEnd(src, i + 2) + 1
  {
    var j := i + 2;
    while j < |src| && src[j] != '\''
      invariant i + 2 <= j <= |src| && TickEnd(src, j) == TickEnd(src, i + 2)
    {
      j := j + 1;
    }
    end := j + 1;
  }

  /** What the scan has still to report from a place and line on. */
  function Rest(src: string, i: nat, line: nat, alnum: Alnum): seq<Span> {
    SpansOf(src, Tokens(src, i, alnum), line)
  }

  lemma RestStep(src: string, i: nat, line: nat, alnum: Alnum)
    requires i < |src|
    ensures var t := TokenAt(src, i, alnum);
            Rest(src, i, line, alnum) ==
              (if IsComment(t.kind) then [SpanOf(src, t, line)] else []) +
              Rest(src, t.end, line + Counted(src, t), alnum)
  {
    var t := TokenAt(src, i, alnum);
    assert Tokens(src, i, alnum)[1..] == Tokens(src, t.end, alnum);
  }

  /** One token scanned: what is reported of it, the place and the line after it. */
  method ScanToken(src: string, i: nat, line: nat, alnum: Alnum) returns (out: seq<Span>, next: nat, after: nat)
    requires i < |src|
    ensures var t := TokenAt(src, i, alnum);
            next == t.end && after == line + Counted(src, t) &&
            out == if IsComment(t.kind) then [SpanOf(src, t, line)] else []
  {
    hide LineEnd, BlockEnd, HashEnd, PastTerm, QuoteEnd, TickEnd, Column, RawMark, Term, IsRaw, Newlines;
    var c := src[i];
    out, after := [], line;
    LoneCharacter(src, i);
    if c == '\n' {
      return [], i + 1, line + 1;
    }
    if c == '/' && i + 1 < |src| && src[i + 1] == '/' {
      var j := LineEnd(src, i + 2);
      NoNewlines(src, i, j);
      return [Span(line, Column(src, i), line, src[i..j])], j, line;
    }
    if c == '/' && i + 1 < |src| && src[i + 1] == '*' {
      var j, below := ScanBlock(src, i, line);
      return [Span(line, Column(src, i), below, src[i..j])], j, below;
    }
    var raw, end := ScanRaw(src, i, alnum);
    if raw {
      return [], end, line + Newlines(Slice(src, i, end));
    }
    if c == '"' || (c == 'b' && i + 1 < |src| && src[i + 1] == '"') {
      var j := ScanQuoted(src, i + if c == 'b' then 2 else 1);
      return [], j, line + Newlines(Slice(src, i, j));
    }
    if c == '\'' {
      if i + 1 < |src| && src[i + 1] == '\\' {
        next := ScanTick(src, i);
        return;
      }
      if i + 2 < |src| && src[i + 2] == '\'' {
        return [], i + 3, line;
      }
    }
    next := i + 1;
  }

  lemma LoneCharacter(src: string, i: nat)
    requires i < |src|
    ensures Newlines(src[i..i + 1]) == if src[i] == '\n' then 1 else 0
  {
    NewlinesNext(src, i, i);
    assert src[i..i] == "";
  }

  lemma {:induction false} NoNewlines(src: string, i: nat, j: nat)
    requires i <= j <= |src| && forall k | i <= k < j :: src[k] != '\n'
    ensures Newlines(src[i..j]) == 0
    decreases j
  {
    if i < j {
      NewlinesNext(src, i, j - 1);
      NoNewlines(src, i, j - 1);
    } else {
      assert src[i..j] == "";
    }
  }

  /** Every comment of the source, in order. */
  method RustCommentSpans(src: string, alnum: Alnum) returns (out: seq<Span>)
    ensures out == SpansOf(src, Tokens(src, 0, alnum), 1)
  {
    hide TokenAt, Tokens, SpansOf, Counted, SpanOf;
    out := [];
    var i, line := 0, 1;
    while i < |src|
      invariant i <= |src| + 1
      invariant out + Rest(src, i, line, alnum) == SpansOf(src, Tokens(src, 0, alnum), 1)
      decreases |src| + 1 - i
    {
      RestStep(src, i, line, alnum);
      var more, next, after := ScanToken(src, i, line, alnum);
      out, i, line := out + more, next, after;
    }
    NothingLeft(src, i, line, alnum);
  }

  lemma NothingLeft(src: string, i: nat, line: nat, alnum: Alnum)
    requires i >= |src|
    ensures Rest(src, i, line, alnum) == []
  {
  }
}
