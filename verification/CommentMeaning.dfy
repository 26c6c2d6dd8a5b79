/** What the scanner's tokens are: a tiling of the source, each kind ending where its own definition says. */
module CommentMeaning {
  import opened CommentScanner
  import opened Wrappers

  // ---------------------------------------------------------------- the tiling

  /** The tokens lie end to end from `i` to past the last character, each the token of its place. */
  ghost predicate Tiles(src: string, tokens: seq<Token>, i: nat, alnum: Alnum) {
    && (forall m | 0 <= m < |tokens| :: tokens[m].start < |src| && tokens[m] == TokenAt(src, tokens[m].start, alnum))
    && (forall m | 0 <= m < |tokens| - 1 :: tokens[m].end == tokens[m + 1].start)
    && (tokens != [] ==> tokens[0].start == i && tokens[|tokens| - 1].end >= |src|)
    && (tokens == [] ==> i >= |src|)
  }

  lemma {:induction false} TokensTile(src: string, i: nat, alnum: Alnum)
    ensures Tiles(src, Tokens(src, i, alnum), i, alnum)
    decreases |src| + 1 - i
  {
    hide TokenAt;
    if i < |src| {
      TokensTile(src, TokenAt(src, i, alnum).end, alnum);
    }
  }

  lemma {:induction false} TilesAscend(src: string, tokens: seq<Token>, i: nat, alnum: Alnum, m: nat, p: nat)
    requires Tiles(src, tokens, i, alnum) && m < p < |tokens|
    ensures tokens[m].end <= tokens[p].start
    decreases p
  {
    if m < p - 1 {
      TilesAscend(src, tokens, i, alnum, m, p - 1);
    }
  }

  /** No two tokens share a character: a comment holds nothing of a string, nor a string anything reported. */
  lemma TokensDisjoint(src: string, alnum: Alnum, m: nat, p: nat, k: nat)
    requires var tokens := Tokens(src, 0, alnum);
             m < |tokens| && p < |tokens| && tokens[m].start <= k < tokens[m].end &&
             tokens[p].start <= k < tokens[p].end
    ensures m == p
  {
    var tokens := Tokens(src, 0, alnum);
    TokensTile(src, 0, alnum);
    if m < p {
      TilesAscend(src, tokens, 0, alnum, m, p);
    } else if p < m {
      TilesAscend(src, tokens, 0, alnum, p, m);
    }
  }

  function Texts(src: string, tokens: seq<Token>): string {
    if tokens == [] then "" else Text(src, tokens[0]) + Texts(src, tokens[1..])
  }

  /** Nothing is left out: the tokens' texts make up the source. */
  lemma {:induction false} TokensCover(src: string, i: nat, alnum: Alnum)
    ensures Texts(src, Tokens(src, i, alnum)) == if i <= |src| then src[i..] else ""
    decreases |src| + 1 - i
  {
    hide TokenAt;
    if i < |src| {
      var t := TokenAt(src, i, alnum);
      TokensCover(src, t.end, alnum);
      assert Tokens(src, i, alnum)[1..] == Tokens(src, t.end, alnum);
    }
  }

  // ---------------------------------------------------------------- what is reported, and on which line

  function Comments(tokens: seq<Token>): seq<Token> {
    if tokens == [] then [] else (if IsComment(tokens[0].kind) then [tokens[0]] else []) + Comments(tokens[1..])
  }

  /** The newlines of the character literals among the tokens, which no line number counts. */
  function Uncounted(src: string, tokens: seq<Token>): nat {
    if tokens == [] then 0 else Newlines(Text(src, tokens[0])) - Counted(src, tokens[0]) + Uncounted(src, tokens[1..])
  }

  /** Every comment token and no other is reported, in order, with its text. */
  lemma {:induction false} SpansAreComments(src: string, tokens: seq<Token>, line: nat)
    ensures var spans, comments := SpansOf(src, tokens, line), Comments(tokens);
            |spans| == |comments| && forall k | 0 <= k < |spans| :: spans[k].text == Text(src, comments[k])
  {
    if tokens != [] {
      SpansAreComments(src, tokens[1..], line + Counted(src, tokens[0]));
    }
  }

  /**
   The comment at token `m`: it starts on one more than the newlines before it, less those in character literals, and
   ends on as many more as it holds.
   */
  lemma {:induction false} SpanLines(src: string, tokens: seq<Token>, i: nat, line: nat, alnum: Alnum, m: nat)
    requires Tiles(src, tokens, i, alnum) && m < |tokens| && IsComment(tokens[m].kind)
    ensures var spans, n := SpansOf(src, tokens, line), |Comments(tokens[..m])|;
            n < |spans| && tokens[m].start <= |src| && i <= tokens[m].start &&
            spans[n].text == Text(src, tokens[m]) && spans[n].column == Column(src, tokens[m].start) &&
            spans[n].startLine + Uncounted(src, tokens[..m]) == line + Newlines(src[i..tokens[m].start]) &&
            spans[n].endLine == spans[n].startLine + Newlines(spans[n].text)
    decreases m
  {
    hide TokenAt, Newlines, Column;
    if m == 0 {
      assert tokens[..0] == [] && src[i..i] == "";
      NoText();
    } else {
      var t := tokens[0];
      LineAfter(src, tokens, i, alnum);
      HeadTaken(src, tokens, line, m);
      hide Tiles, Counted, Text, SpansOf, Comments, Uncounted;
      SpanLines(src, tokens[1..], t.end, line + Counted(src, t), alnum, m - 1);
      assert tokens[1..][m - 1] == tokens[m];
      var start := tokens[m].start;
      assert src[i..start] == src[i..t.end] + src[t.end..start];
      NewlinesSplit(src[i..t.end], src[t.end..start]);
    }
  }

  /** The first token's part in what is reported, and in what is not counted. */
  lemma HeadTaken(src: string, tokens: seq<Token>, line: nat, m: nat)
    requires 0 < m < |tokens|
    ensures var here := if IsComment(tokens[0].kind) then [SpanOf(src, tokens[0], line)] else [];
            SpansOf(src, tokens, line) == here + SpansOf(src, tokens[1..], line + Counted(src, tokens[0])) &&
            |Comments(tokens[..m])| == |here| + |Comments(tokens[1..][..m - 1])|
    ensures Uncounted(src, tokens[..m]) ==
            Newlines(Text(src, tokens[0])) - Counted(src, tokens[0]) + Uncounted(src, tokens[1..][..m - 1])
  {
    hide SpanOf, Counted, Newlines, Text;
    assert tokens[..m][1..] == tokens[1..][..m - 1] && tokens[..m][0] == tokens[0];
  }

  lemma NoText()
    ensures Newlines("") == 0
  {
  }

  lemma LineAfter(src: string, tokens: seq<Token>, i: nat, alnum: Alnum)
    requires Tiles(src, tokens, i, alnum) && |tokens| > 1
    ensures tokens[0].start == i < tokens[0].end == tokens[1].start < |src| &&
            Text(src, tokens[0]) == src[i..tokens[0].end]
    ensures Newlines(Text(src, tokens[0])) >= Counted(src, tokens[0])
    ensures Tiles(src, tokens[1..], tokens[0].end, alnum)
  {
    hide TokenAt, Newlines, Column;
    assert tokens[0] == TokenAt(src, tokens[0].start, alnum);
  }

  /** No character literal of the source holds a newline. */
  ghost predicate PlainLiterals(src: string, alnum: Alnum) {
    forall t | t in Tokens(src, 0, alnum) :: Newlines(Text(src, t)) == Counted(src, t)
  }

  lemma {:induction false} NothingUncounted(src: string, tokens: seq<Token>)
    requires forall t | t in tokens :: Newlines(Text(src, t)) == Counted(src, t)
    ensures Uncounted(src, tokens) == 0
  {
    if tokens != [] {
      NothingUncounted(src, tokens[1..]);
    }
  }

  /** Where no character literal holds a newline, a comment's line is one more than the newlines before it. */
  lemma LinesExact(src: string, alnum: Alnum, m: nat)
    requires PlainLiterals(src, alnum) && m < |Tokens(src, 0, alnum)| && IsComment(Tokens(src, 0, alnum)[m].kind)
    ensures var tokens := Tokens(src, 0, alnum);
            var spans, n := SpansOf(src, tokens, 1), |Comments(tokens[..m])|;
            n < |spans| && tokens[m].start <= |src| && spans[n].startLine == 1 + Newlines(src[..tokens[m].start])
  {
    hide TokenAt;
    var tokens := Tokens(src, 0, alnum);
    TokensTile(src, 0, alnum);
    SpanLines(src, tokens, 0, 1, alnum, m);
    assert src[0..tokens[m].start] == src[..tokens[m].start];
    NothingUncounted(src, tokens[..m]);
  }

  // ---------------------------------------------------------------- block comments

  /**
   Past the mark that closes the comment whose inside starts at `j`, comments inside it closed first; none if it never
   is.
   */
  function Close(src: string, j: nat): (e: Option<nat>)
    ensures e.Some? ==> j < e.value <= |src|
    decreases |src| - j
  {
    if j >= |src| then None
    else if Opens(src, j) then
      var inner := Close(src, j + 2);
      if inner.None? then None else Close(src, inner.value)
    else if Closes(src, j) then Some(j + 2)
    else Close(src, j + 1)
  }

  /** Counting the depth finds the same end as closing the inner comments one by one. */
  lemma {:induction false} DepthIsNesting(src: string, j: nat, depth: nat)
    requires j <= |src| && depth > 0
    ensures BlockEnd(src, j, depth) ==
      (match Close(src, j) case None => |src| case Some(e) => if depth == 1 then e else BlockEnd(src, e, depth - 1))
    decreases |src| - j
  {
    if j < |src| {
      if Opens(src, j) {
        DepthIsNesting(src, j + 2, depth + 1);
        var inner := Close(src, j + 2);
        if inner.Some? {
          DepthIsNesting(src, inner.value, depth);
        }
      } else if !Closes(src, j) {
        DepthIsNesting(src, j + 1, depth);
      }
    }
  }

  /**
   A comment token's text: a line comment runs to its line's end, a block comment to its matching close or the end.
   */
  lemma CommentMeans(src: string, i: nat, alnum: Alnum)
    requires i < |src|
    ensures var t := TokenAt(src, i, alnum);
            && (t.kind == LineComment ==> t.end == LineEnd(src, i) <= |src| && src[i] == '/' && At(src, i + 1, '/'))
            && (t.kind == BlockComment ==>
                  Opens(src, i) && t.end == if Close(src, i + 2).Some? then Close(src, i + 2).value else |src|)
  {
    if Opens(src, i) {
      DepthIsNesting(src, i + 2, 1);
    }
    if src[i] == '/' && At(src, i + 1, '/') {
      assert LineEnd(src, i) == LineEnd(src, i + 1) == LineEnd(src, i + 2);
    }
  }

  // ---------------------------------------------------------------- strings

  /** How many backslashes stand right before `k`, back to `from`. */
  function Backslashes(src: string, from: nat, k: nat): nat {
    if k <= from || k > |src| || src[k - 1] != '\\' then 0 else Backslashes(src, from, k - 1) + 1
  }

  /** A quote that ends the string: an even number of backslashes before it. */
  predicate Bare(src: string, from: nat, k: nat) {
    from <= k && At(src, k, '"') && Backslashes(src, from, k) % 2 == 0
  }

  /** A string ends past its first bare quote, or past the source when it has none. */
  lemma QuoteEndMeans(src: string, from: nat)
    requires from <= |src|
    ensures var e := QuoteEnd(src, from);
            (forall k | from <= k < e - 1 :: !Bare(src, from, k)) &&
            (if exists k :: Bare(src, from, k) then e >= 1 && Bare(src, from, e - 1) else e >= |src|)
  {
    QuoteFrom(src, from, from);
    var e := QuoteEnd(src, from);
    if k: nat :| Bare(src, from, k) {
      assert from <= k < |src|;
    }
  }

  lemma {:induction false} QuoteFrom(src: string, from: nat, j: nat)
    requires from <= j <= |src| + 1 && from <= |src|
    requires Backslashes(src, from, j) % 2 == 0 && forall k | from <= k < j :: !Bare(src, from, k)
    ensures var e := QuoteEnd(src, j);
            (forall k | from <= k < e - 1 :: !Bare(src, from, k)) &&
            ((e > j && Bare(src, from, e - 1)) || (e >= |src| && forall k :: !Bare(src, from, k)))
    decreases |src| + 1 - j
  {
    if j < |src| {
      if src[j] == '\\' {
        assert Backslashes(src, from, j + 1) == Backslashes(src, from, j) + 1;
        QuoteFrom(src, from, j + 2);
      } else if src[j] != '"' {
        QuoteFrom(src, from, j + 1);
      } else {
        assert Bare(src, from, j);
      }
    }
  }

  /** A raw string ends past the first quote with as many hashes, or at the end. */
  lemma {:induction false} PastTermMeans(src: string, term: string, k: nat)
    requires k <= |src|
    ensures var e := PastTerm(src, term, k);
            (forall m | k <= m < e - |term| :: !Occurs(src, term, m)) &&
            ((e >= k + |term| && Occurs(src, term, e - |term|)) ||
             (e == |src| && forall m: nat | k <= m :: !Occurs(src, term, m)))
    decreases |src| - k
  {
    if !Occurs(src, term, k) && k < |src| {
      PastTermMeans(src, term, k + 1);
      if PastTerm(src, term, k + 1) == |src| && forall m: nat | k + 1 <= m :: !Occurs(src, term, m) {
        assert forall m: nat | k <= m :: !Occurs(src, term, m);
      }
    }
  }

  // ---------------------------------------------------------------- what starts where

  /** The text at a place. */
  predicate Reads(src: string, i: nat, text: string) {
    i + |text| <= |src| && src[i..i + |text|] == text
  }

  function Hashes(n: nat): string {
    seq(n, k => '#')
  }

  /** A raw string's opening: r or br, some hashes, a quote. */
  ghost predicate OpensRaw(src: string, i: nat, byte: bool, hashes: nat) {
    var mark := if byte then "br" else "r";
    Reads(src, i, mark) && Reads(src, i + |mark|, Hashes(hashes)) && Reads(src, i + |mark| + hashes, "\"")
  }

  lemma HashesRead(src: string, k: nat, n: nat)
    ensures Reads(src, k, Hashes(n)) <==> k + n <= |src| && forall m | k <= m < k + n :: src[m] == '#'
  {
    if k + n <= |src| {
      var text := src[k..k + n];
      if text == Hashes(n) {
        forall m | k <= m < k + n ensures src[m] == '#' {
          assert text[m - k] == Hashes(n)[m - k];
        }
      }
      if forall m | k <= m < k + n :: src[m] == '#' {
        assert text == Hashes(n);
      }
    }
  }

  /** A run of hashes that ends is as long as it is. */
  lemma HashEndIs(src: string, k: nat, n: nat)
    requires k + n < |src| && src[k + n] != '#' && forall m | k <= m < k + n :: src[m] == '#'
    ensures HashEnd(src, k) == k + n
  {
  }

  /** No letter, digit or underscore stands before. */
  predicate Boundary(src: string, i: nat, alnum: Alnum)
    requires i <= |src|
  {
    i == 0 || !(alnum(src[i - 1]) || src[i - 1] == '_')
  }

  lemma HashesFound(src: string, i: nat, byte: bool, hashes: nat)
    requires OpensRaw(src, i, byte, hashes)
    ensures var r := if byte then i + 1 else i;
            r + 1 + hashes < |src| && src[r] == 'r' && HashEnd(src, r + 1) == r + 1 + hashes
            && src[r + 1 + hashes] == '"' && (byte ==> src[i] == 'b')
  {
    hide Reads, Hashes, HashEnd;
    var mark, r := if byte then "br" else "r", if byte then i + 1 else i;
    assert |mark| == r + 1 - i;
    MarkRead(src, i, byte);
    QuoteRead(src, r + 1 + hashes);
    HashesRead(src, r + 1, hashes);
    HashEndIs(src, r + 1, hashes);
  }

  lemma MarkRead(src: string, i: nat, byte: bool)
    ensures Reads(src, i, if byte then "br" else "r") <==>
      if byte then i + 1 < |src| && src[i] == 'b' && src[i + 1] == 'r' else i < |src| && src[i] == 'r'
  {
    if byte && i + 1 < |src| {
      assert src[i..i + 2] == [src[i], src[i + 1]];
    } else if !byte && i < |src| {
      assert src[i..i + 1] == [src[i]];
    }
  }

  lemma QuoteRead(src: string, k: nat)
    ensures Reads(src, k, "\"") <==> k < |src| && src[k] == '"'
  {
    if k < |src| {
      assert src[k..k + 1] == [src[k]];
    }
  }

  /**
   What a place starts, by the text there: a comment's slashes, a raw string's opening where no word runs on, a quote or
   a byte string's, an escape or a single character between ticks.
   */
  lemma KindMeans(src: string, i: nat, alnum: Alnum)
    requires i < |src|
    ensures var kind := KindAt(src, i, alnum);
            && (kind == LineComment <==> Reads(src, i, "//"))
            && (kind == BlockComment <==> Reads(src, i, "/*"))
            && (kind == RawString <==>
                  Boundary(src, i, alnum) && exists byte, hashes: nat :: OpensRaw(src, i, byte, hashes))
            && (kind == Quoted <==> Reads(src, i, "\"") || Reads(src, i, "b\""))
            && (kind == EscapedChar <==> Reads(src, i, "'\\"))
            && (kind == PlainChar <==>
                  Reads(src, i, "'") && !Reads(src, i, "'\\") && i + 2 < |src| && src[i + 2] == '\'')
            && (kind == Newline <==> src[i] == '\n')
  {
    if i + 1 < |src| {
      assert src[i..i + 2] == [src[i], src[i + 1]];
    }
    assert src[i..i + 1] == [src[i]];
    RawMeans(src, i, alnum);
  }

  /** A block comment's depth rises at a slash and a star and falls at a star and a slash. */
  lemma MarksMean(src: string, j: nat)
    ensures Opens(src, j) <==> Reads(src, j, "/*")
    ensures Closes(src, j) <==> Reads(src, j, "*/")
  {
    if j + 1 < |src| {
      assert src[j..j + 2] == [src[j], src[j + 1]];
    }
  }

  lemma RawMeans(src: string, i: nat, alnum: Alnum)
    requires i < |src|
    ensures IsRaw(src, i, alnum) <==>
      Boundary(src, i, alnum) && exists byte, hashes: nat :: OpensRaw(src, i, byte, hashes)
  {
    hide OpensRaw;
    if IsRaw(src, i, alnum) {
      var r := RawMark(src, i);
      RawOpens(src, i, r == i + 1, HashEnd(src, r + 1) - (r + 1));
    }
    if Boundary(src, i, alnum) && exists byte, hashes: nat :: OpensRaw(src, i, byte, hashes) {
      var byte, hashes: nat :| OpensRaw(src, i, byte, hashes);
      OpenedIsRaw(src, i, alnum, byte, hashes);
    }
  }

  lemma OpenedIsRaw(src: string, i: nat, alnum: Alnum, byte: bool, hashes: nat)
    requires i < |src| && Boundary(src, i, alnum) && OpensRaw(src, i, byte, hashes)
    ensures IsRaw(src, i, alnum)
  {
    HashesFound(src, i, byte, hashes);
    hide OpensRaw, HashEnd;
    assert RawMark(src, i) == if byte then i + 1 else i;
  }

  lemma RawOpens(src: string, i: nat, byte: bool, hashes: nat)
    requires var r := if byte then i + 1 else i;
             && r + 1 + hashes < |src| && src[r] == 'r' && HashEnd(src, r + 1) == r + 1 + hashes
             && src[r + 1 + hashes] == '"' && (byte ==> src[i] == 'b')
    ensures OpensRaw(src, i, byte, hashes)
  {
    var r := if byte then i + 1 else i;
    MarkRead(src, i, byte);
    QuoteRead(src, r + 1 + hashes);
    hide Reads;
    HashesRead(src, r + 1, hashes);
  }

  lemma RawEnd(src: string, i: nat, alnum: Alnum, byte: bool, hashes: nat)
    requires i < |src| && KindAt(src, i, alnum) == RawString && OpensRaw(src, i, byte, hashes)
    ensures i + (if byte then 2 else 1) + hashes + 1 <= |src|
    ensures TokenAt(src, i, alnum).end ==
            PastTerm(src, "\"" + Hashes(hashes), i + (if byte then 2 else 1) + hashes + 1)
  {
    HashesFound(src, i, byte, hashes);
    hide OpensRaw, Reads, PastTerm, HashEnd;
    var r := if byte then i + 1 else i;
    assert RawMark(src, i) == r;
    assert Term(src, i) == "\"" + Hashes(hashes);
  }

  /** A raw string ends past the first quote, after its opening, that as many hashes follow; or at the end. */
  lemma RawEnds(src: string, i: nat, alnum: Alnum, byte: bool, hashes: nat)
    requires i < |src| && KindAt(src, i, alnum) == RawString && OpensRaw(src, i, byte, hashes)
    ensures var open := i + (if byte then 2 else 1) + hashes + 1;
            var close, e := "\"" + Hashes(hashes), TokenAt(src, i, alnum).end;
            && (forall m | open <= m < e - |close| :: !Reads(src, m, close))
            && ((e >= open + |close| && Reads(src, e - |close|, close)) ||
                (e == |src| && forall m: nat | open <= m :: !Reads(src, m, close)))
  {
    hide TokenAt, KindAt, OpensRaw, Hashes, PastTerm, Reads, Occurs;
    RawEnd(src, i, alnum, byte, hashes);
    var close, open := "\"" + Hashes(hashes), i + (if byte then 2 else 1) + hashes + 1;
    PastTermMeans(src, close, open);
    ReadsOccurs(src, close);
  }

  lemma ReadsOccurs(src: string, text: string)
    ensures forall m: nat :: Reads(src, m, text) == Occurs(src, text, m)
  {
  }

  // ---------------------------------------------------------------- an escaped quote

  /** Where a literal that starts with an escape closes: past the first quote after the escaped character. */
  function LiteralEnd(src: string, i: nat): nat
    requires i + 3 <= |src|
  {
    TickEnd(src, i + 3) + 1
  }

  /** The scanner ends such a literal where it closes exactly when the escaped character is not itself a quote. */
  lemma EscapedLiteralEnds(src: string, i: nat, alnum: Alnum)
    requires i + 3 <= |src| && KindAt(src, i, alnum) == EscapedChar
    ensures TokenAt(src, i, alnum).end == LiteralEnd(src, i) <==> src[i + 2] != '\''
    ensures src[i + 2] == '\'' ==> TokenAt(src, i, alnum).end == i + 3 < LiteralEnd(src, i)
  {
  }

  const ESCAPED_QUOTE := "'\\'','\"' // c"

  lemma EscapedQuoteTokens(alnum: Alnum)
    ensures Tokens(ESCAPED_QUOTE, 0, alnum) == [Token(EscapedChar, 0, 3), Token(PlainChar, 3, 6), Token(Quoted, 6, 13)]
  {
    hide Tokens;
    var src := ESCAPED_QUOTE;
    assert |src| == 13 && TokenAt(src, 0, alnum) == Token(EscapedChar, 0, 3);
    assert TokenAt(src, 3, alnum) == Token(PlainChar, 3, 6);
    assert QuoteEnd(src, 7) == 13 by {
      assert QuoteEnd(src, 13) == 13;
      assert QuoteEnd(src, 10) == QuoteEnd(src, 11) == QuoteEnd(src, 12) == 13;
      assert QuoteEnd(src, 8) == QuoteEnd(src, 9) == 13;
    }
    assert TokenAt(src, 6, alnum) == Token(Quoted, 6, 13);
    TokensFrom(src, 13, alnum);
    TokensFrom(src, 6, alnum);
    TokensFrom(src, 3, alnum);
    TokensFrom(src, 0, alnum);
  }

  lemma TokensFrom(src: string, i: nat, alnum: Alnum)
    ensures Tokens(src, i, alnum) ==
            if i >= |src| then [] else [TokenAt(src, i, alnum)] + Tokens(src, TokenAt(src, i, alnum).end, alnum)
  {
  }

  /**
   What that costs: after an escaped quote the literal's own close opens the next token, here `','`, the quote after it
   opens a string, and the comment at the end of the line is inside that string and is not reported.
   */
  lemma EscapedQuoteHidesComment(alnum: Alnum)
    ensures ESCAPED_QUOTE[9..] == "// c" && LiteralEnd(ESCAPED_QUOTE, 0) == 4
    ensures SpansOf(ESCAPED_QUOTE, Tokens(ESCAPED_QUOTE, 0, alnum), 1) == []
  {
    EscapedQuoteTokens(alnum);
    SpansAreComments(ESCAPED_QUOTE, Tokens(ESCAPED_QUOTE, 0, alnum), 1);
    assert Comments([Token(EscapedChar, 0, 3), Token(PlainChar, 3, 6), Token(Quoted, 6, 13)]) == [] by {
      assert Comments([Token(PlainChar, 3, 6), Token(Quoted, 6, 13)]) == Comments([Token(Quoted, 6, 13)]) == [];
    }
  }

  // ---------------------------------------------------------------- a newline in a literal

  const NEWLINE_LITERAL := "'\n' // c"

  lemma NewlineTokens(alnum: Alnum)
    ensures Tokens(NEWLINE_LITERAL, 0, alnum) == [Token(PlainChar, 0, 3), Token(Other, 3, 4), Token(LineComment, 4, 8)]
  {
    hide Tokens;
    var src := NEWLINE_LITERAL;
    assert |src| == 8 && TokenAt(src, 0, alnum) == Token(PlainChar, 0, 3);
    assert TokenAt(src, 3, alnum) == Token(Other, 3, 4);
    assert TokenAt(src, 4, alnum) == Token(LineComment, 4, 8);
    TokensFrom(src, 8, alnum);
    TokensFrom(src, 4, alnum);
    TokensFrom(src, 3, alnum);
    TokensFrom(src, 0, alnum);
  }

  lemma OneNewlineBefore()
    ensures Newlines(NEWLINE_LITERAL[..4]) == 1
  {
    assert NEWLINE_LITERAL[..4] == "'" + "\n" + "' ";
    NewlinesSplit("'" + "\n", "' ");
    NewlinesSplit("'", "\n");
    NewlinesSplit("'", " ");
    assert "'" + " " == "' ";
    assert Newlines("'") == Newlines(" ") == Newlines("") == 0 && Newlines("\n") == 1;
  }

  /** The third token is the comment at place 4, and its one span says line 1. */
  predicate ReportedFirst(tokens: seq<Token>, spans: seq<Span>) {
    && |spans| == 1 && spans[0].text == "// c" && spans[0].startLine == 1
    && |tokens| > 2 && tokens[2].kind == LineComment && tokens[2].start == 4
  }

  /**
   A literal that holds a newline, and a comment after it: the comment is on the second line and reported on the first.
   */
  lemma NewlineMisplaces(alnum: Alnum)
    ensures var tokens := Tokens(NEWLINE_LITERAL, 0, alnum);
            ReportedFirst(tokens, SpansOf(NEWLINE_LITERAL, tokens, 1)) && Newlines(NEWLINE_LITERAL[..4]) == 1
  {
    NewlineTokens(alnum);
    hide Tokens;
    NewlineSpans();
    OneNewlineBefore();
  }

  lemma NewlineSpans()
    ensures var spans := SpansOf(NEWLINE_LITERAL,
                                 [Token(PlainChar, 0, 3), Token(Other, 3, 4), Token(LineComment, 4, 8)], 1);
            |spans| == 1 && spans[0].text == "// c" && spans[0].startLine == 1
  {
    var src := NEWLINE_LITERAL;
    assert src[4..8] == "// c";
    assert src[3..4] == " " && " "[..0] == "" && Newlines(" ") == 0;
    assert Counted(src, Token(Other, 3, 4)) == 0 && Counted(src, Token(PlainChar, 0, 3)) == 0;
    hide Newlines, Column, Counted;
    var last := [Token(LineComment, 4, 8)];
    var two := [Token(Other, 3, 4)] + last;
    var three := [Token(PlainChar, 0, 3)] + two;
    assert three == [Token(PlainChar, 0, 3), Token(Other, 3, 4), Token(LineComment, 4, 8)];
    assert last[1..] == [] && two[1..] == last && three[1..] == two;
    assert SpansOf(src, last, 1) == [SpanOf(src, last[0], 1)];
    assert SpansOf(src, two, 1) == SpansOf(src, last, 1);
    assert SpansOf(src, three, 1) == SpansOf(src, two, 1);
  }
}
