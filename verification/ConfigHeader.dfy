/**
 The comment header that carries a mint's claims to the audit: one line a delta, written with the key before the first
 colon, and read back by cutting at the first colon and stripping blanks.
 */
module ConfigHeader {
  import opened ConfigMint
  import opened Text
  import opened Wrappers

  /** Which characters the reader strips. */
  type Blank = char -> bool

  function StripLeft(s: string, blank: Blank): string {
    if s == "" || !blank(s[0]) then s else StripLeft(s[1..], blank)
  }

  function StripRight(s: string, blank: Blank): string {
    if s == "" || !blank(s[|s| - 1]) then s else StripRight(s[..|s| - 1], blank)
  }

  function Strip(s: string, blank: Blank): string {
    StripRight(StripLeft(s, blank), blank)
  }

  /** What stands before the first `c`. */
  function UpTo(s: string, c: char): string {
    if s == "" || s[0] == c then "" else [s[0]] + UpTo(s[1..], c)
  }

  /** What stands after the first `c`. */
  function After(s: string, c: char): string {
    if s == "" then "" else if s[0] == c then s[1..] else After(s[1..], c)
  }

  const DELTA := "# delta:"
  const TEMPLATE := "# template:"
  const MINTED_BY := "# minted-by: tools/mint_config.py"

  /** The line of one delta, its two values rendered. */
  function DeltaLine(key: string, was: string, now: string): string {
    DELTA + " " + key + ": " + was + " -> " + now
  }

  /** The line past as many characters as the delta lines' mark has. */
  function PastMark(line: string): string {
    if |line| < |DELTA| then "" else line[|DELTA|..]
  }

  /** The key a delta line is read to claim. */
  function ReadKey(line: string, blank: Blank): string {
    Strip(UpTo(Strip(PastMark(line), blank), ':'), blank)
  }

  /** The key up to its first colon, without outer blanks. */
  function Cut(key: string, blank: Blank): string {
    Strip(UpTo(key, ':'), blank)
  }

  // ---------------------------------------------------------------- one key

  lemma {:induction false} StripLeftJoin(a: string, b: string, blank: Blank)
    requires b != "" && !blank(b[0])
    ensures StripLeft(a + b, blank) == StripLeft(a, blank) + b
  {
    if a == "" {
      assert a + b == b;
    } else {
      assert (a + b)[1..] == a[1..] + b;
      StripLeftJoin(a[1..], b, blank);
    }
  }

  lemma {:induction false} StripRightJoin(a: string, b: string, blank: Blank)
    requires b != "" && !blank(b[0])
    ensures StripRight(a + b, blank) == a + StripRight(b, blank)
    ensures StripRight(b, blank) != "" && StripRight(b, blank)[0] == b[0]
  {
    if |b| > 1 && blank(b[|b| - 1]) {
      assert (a + b)[..|a + b| - 1] == a + b[..|b| - 1];
      StripRightJoin(a, b[..|b| - 1], blank);
    }
  }

  lemma {:induction false} UpToJoin(a: string, b: string, c: char)
    requires b != "" && b[0] == c
    ensures UpTo(a + b, c) == UpTo(a, c)
  {
    if a == "" {
      assert a + b == b;
    } else {
      assert (a + b)[1..] == a[1..] + b;
      UpToJoin(a[1..], b, c);
    }
  }

  lemma {:induction false} UpToStripped(s: string, c: char, blank: Blank)
    requires !blank(c)
    ensures UpTo(StripLeft(s, blank), c) == StripLeft(UpTo(s, c), blank)
  {
    if s != "" && blank(s[0]) {
      UpToStripped(s[1..], c, blank);
      assert UpTo(s, c)[1..] == UpTo(s[1..], c);
    }
  }

  lemma {:induction false} StripLeftTwice(s: string, blank: Blank)
    ensures StripLeft(StripLeft(s, blank), blank) == StripLeft(s, blank)
  {
    if s != "" && blank(s[0]) {
      StripLeftTwice(s[1..], blank);
    }
  }

  /** Whatever the values, the key read is the key written up to its first colon, without outer blanks. */
  lemma KeyReadBack(key: string, was: string, now: string, blank: Blank)
    requires blank(' ') && !blank(':')
    ensures ReadKey(DeltaLine(key, was, now), blank) == Cut(key, blank)
  {
    var rest := ": " + was + " -> " + now;
    var line := DeltaLine(key, was, now);
    assert line[|DELTA|..] == [' '] + (key + rest) && (line[|DELTA|..])[1..] == key + rest;
    StripLeftJoin(key, rest, blank);
    var k := StripLeft(key, blank);
    assert StripLeft(line[|DELTA|..], blank) == k + rest;
    StripRightJoin(k, rest, blank);
    UpToJoin(k, StripRight(rest, blank), ':');
    UpToStripped(key, ':', blank);
    StripLeftTwice(UpTo(key, ':'), blank);
  }

  /** The key holds no colon and neither starts nor ends with a blank. */
  predicate Survives(key: string, blank: Blank) {
    ':' !in key && (key != "" ==> !blank(key[0]) && !blank(key[|key| - 1]))
  }

  lemma {:induction false} StripLeftShrinks(s: string, blank: Blank)
    ensures |StripLeft(s, blank)| <= |s| && (StripLeft(s, blank) == s <==> s == "" || !blank(s[0]))
    ensures |StripLeft(s, blank)| == |s| ==> StripLeft(s, blank) == s
  {
    if s != "" && blank(s[0]) {
      StripLeftShrinks(s[1..], blank);
    }
  }

  lemma {:induction false} StripRightShrinks(s: string, blank: Blank)
    ensures |StripRight(s, blank)| <= |s| && (StripRight(s, blank) == s <==> s == "" || !blank(s[|s| - 1]))
    ensures |StripRight(s, blank)| == |s| ==> StripRight(s, blank) == s
  {
    if s != "" && blank(s[|s| - 1]) {
      StripRightShrinks(s[..|s| - 1], blank);
    }
  }

  lemma {:induction false} UpToShrinks(s: string, c: char)
    ensures |UpTo(s, c)| <= |s| && (UpTo(s, c) == s <==> c !in s)
    ensures |UpTo(s, c)| == |s| ==> UpTo(s, c) == s
  {
    if s != "" && s[0] != c {
      UpToShrinks(s[1..], c);
      assert s == [s[0]] + s[1..];
    }
  }

  /** A key written in the header is read back as itself exactly when it survives. */
  lemma SurvivesExactly(key: string, was: string, now: string, blank: Blank)
    requires blank(' ') && !blank(':')
    ensures ReadKey(DeltaLine(key, was, now), blank) == key <==> Survives(key, blank)
  {
    KeyReadBack(key, was, now, blank);
    var cut := UpTo(key, ':');
    UpToShrinks(key, ':');
    StripLeftShrinks(cut, blank);
    StripRightShrinks(StripLeft(cut, blank), blank);
  }

  // ---------------------------------------------------------------- the whole header

  predicate IsBreak(c: char, breaks: char -> bool) {
    c == '\n' || breaks(c)
  }

  /** The place of the first line break, or the end. */
  function FirstBreak(s: string, breaks: char -> bool): (k: nat)
    ensures k <= |s| && (k < |s| ==> IsBreak(s[k], breaks))
  {
    if s == "" || IsBreak(s[0], breaks) then 0 else FirstBreak(s[1..], breaks) + 1
  }

  /** The text's lines, a carriage return before a newline breaking once with it. */
  function Lines(s: string, breaks: char -> bool): seq<string>
    decreases |s|
  {
    if s == "" then []
    else
      var k := FirstBreak(s, breaks);
      if k == |s| then [s]
      else
        var next := if s[k] == '\r' && k + 1 < |s| && s[k + 1] == '\n' then k + 2 else k + 1;
        [s[..k]] + Lines(s[next..], breaks)
  }

  predicate OneLine(s: string, breaks: char -> bool) {
    forall i | 0 <= i < |s| :: !IsBreak(s[i], breaks)
  }

  /** Each line and its newline. */
  function Written(lines: seq<string>): string {
    if lines == [] then "" else lines[0] + "\n" + Written(lines[1..])
  }

  lemma {:induction false} BreakAfter(line: string, rest: string, breaks: char -> bool)
    requires OneLine(line, breaks)
    ensures FirstBreak(line + "\n" + rest, breaks) == |line|
  {
    if line == "" {
      assert line + "\n" + rest == "\n" + rest;
    } else {
      assert (line + "\n" + rest)[1..] == line[1..] + "\n" + rest;
      BreakAfter(line[1..], rest, breaks);
    }
  }

  lemma FirstLine(line: string, rest: string, breaks: char -> bool)
    requires OneLine(line, breaks)
    ensures Lines(line + "\n" + rest, breaks) == [line] + Lines(rest, breaks)
  {
    BreakAfter(line, rest, breaks);
    hide FirstBreak, OneLine;
    var text := line + "\n" + rest;
    assert text[|line|] == '\n' && text[..|line|] == line && text[|line| + 1..] == rest;
  }

  /** A carriage return and a newline break once, like the newline alone. */
  lemma CrLfBreaksOnce(line: string, rest: string, breaks: char -> bool)
    requires OneLine(line, breaks) && breaks('\r')
    ensures Lines(line + "\r\n" + rest, breaks) == [line] + Lines(rest, breaks)
  {
    CrAfter(line, "\n" + rest, breaks);
    hide FirstBreak, OneLine;
    var text := line + "\r\n" + rest;
    assert text == line + "\r" + ("\n" + rest);
    assert text[|line|] == '\r' && text[|line| + 1] == '\n';
    assert text[..|line|] == line && text[|line| + 2..] == rest;
  }

  lemma {:induction false} CrAfter(line: string, rest: string, breaks: char -> bool)
    requires OneLine(line, breaks) && breaks('\r')
    ensures FirstBreak(line + "\r" + rest, breaks) == |line|
  {
    if line == "" {
      assert line + "\r" + rest == "\r" + rest;
    } else {
      assert (line + "\r" + rest)[1..] == line[1..] + "\r" + rest;
      CrAfter(line[1..], rest, breaks);
    }
  }

  /** Lines written are read back, and after them those of what follows. */
  lemma {:induction false} LinesReadBack(lines: seq<string>, body: string, breaks: char -> bool)
    requires forall l | l in lines :: OneLine(l, breaks)
    ensures Lines(Written(lines) + body, breaks) == lines + Lines(body, breaks)
  {
    hide Lines, OneLine;
    if lines == [] {
      assert Written(lines) + body == body;
    } else {
      var rest := Written(lines[1..]) + body;
      assert Written(lines) + body == lines[0] + "\n" + rest;
      FirstLine(lines[0], rest, breaks);
      LinesReadBack(lines[1..], body, breaks);
    }
  }

  /** The leading comment lines. */
  function Comments(lines: seq<string>): seq<string> {
    if lines == [] || !("#" <= lines[0]) then [] else [lines[0]] + Comments(lines[1..])
  }

  predicate IsDelta(line: string) {
    !(TEMPLATE <= line) && DELTA <= line
  }

  /** The keys the comments claim, none of them empty. */
  function ClaimsRead(comments: seq<string>, blank: Blank): set<string> {
    set l | l in comments && IsDelta(l) && ReadKey(l, blank) != "" :: ReadKey(l, blank)
  }

  /** The template the last line that names one names. */
  function TemplateRead(comments: seq<string>, blank: Blank): Option<string> {
    if comments == [] then None
    else
      var last := comments[|comments| - 1];
      if TEMPLATE <= last then Some(Strip(After(last, ':'), blank))
      else TemplateRead(comments[..|comments| - 1], blank)
  }

  function ClaimOf(line: string, blank: Blank): set<string> {
    if IsDelta(line) && ReadKey(line, blank) != "" then {ReadKey(line, blank)} else {}
  }

  lemma OneClaimMore(comments: seq<string>, line: string, blank: Blank)
    ensures ClaimsRead(comments + [line], blank) == ClaimsRead(comments, blank) + ClaimOf(line, blank)
  {
    hide ReadKey, IsDelta;
    assert forall l :: l in comments + [line] <==> l in comments || l == line;
  }

  lemma OneTemplateMore(comments: seq<string>, line: string, blank: Blank)
    ensures TemplateRead(comments + [line], blank) ==
            if TEMPLATE <= line then Some(Strip(After(line, ':'), blank)) else TemplateRead(comments, blank)
  {
    assert (comments + [line])[..|comments|] == comments;
  }

  /** The reader's loop: the leading comments give the template and the claims. */
  method ParseHeader(lines: seq<string>, blank: Blank) returns (template: Option<string>, claimed: set<string>)
    ensures template == TemplateRead(Comments(lines), blank)
    ensures claimed == ClaimsRead(Comments(lines), blank)
  {
    hide ReadKey, Strip, After, ClaimsRead, TemplateRead;
    ReadNothing(blank);
    template, claimed := None, {};
    var i := 0;
    while i < |lines|
      invariant i <= |lines| && Comments(lines) == lines[..i] + Comments(lines[i..])
      invariant template == TemplateRead(lines[..i], blank) && claimed == ClaimsRead(lines[..i], blank)
    {
      var line := lines[i];
      if !("#" <= line) {
        break;
      }
      assert lines[..i + 1] == lines[..i] + [line];
      OneClaimMore(lines[..i], line, blank);
      OneTemplateMore(lines[..i], line, blank);
      if TEMPLATE <= line {
        template := Some(Strip(After(line, ':'), blank));
      } else if DELTA <= line {
        var key := ReadKey(line, blank);
        if key != "" {
          claimed := claimed + {key};
        }
      }
      i := i + 1;
    }
    assert Comments(lines) == lines[..i];
  }

  lemma ReadNothing(blank: Blank)
    ensures ClaimsRead([], blank) == {} && TemplateRead([], blank) == None
  {
  }

  /** A claim is what follows the mark of some comment, up to its first colon and stripped, unless nothing is left. */
  lemma ClaimsMean(comments: seq<string>, blank: Blank, key: string)
    ensures key in ClaimsRead(comments, blank) <==>
      key != "" && exists rest :: "# delta:" + rest in comments && key == Strip(UpTo(Strip(rest, blank), ':'), blank)
  {
    hide Strip, UpTo;
    forall l | l in comments && IsDelta(l)
      ensures l == "# delta:" + l[8..] && ReadKey(l, blank) == Strip(UpTo(Strip(l[8..], blank), ':'), blank)
    {
    }
    if rest :| "# delta:" + rest in comments && key == Strip(UpTo(Strip(rest, blank), ':'), blank) {
      var l := "# delta:" + rest;
      assert l[3] == 'e' && TEMPLATE[3] == 'e' && l[2] == 'd' && TEMPLATE[2] == 't';
      assert l[8..] == rest && IsDelta(l);
    }
  }

  /** The template is what follows the mark of the last comment that holds it, stripped; none when no comment does. */
  lemma {:induction false} TemplateMeans(comments: seq<string>, blank: Blank, i: nat, rest: string)
    requires i < |comments| && comments[i] == "# template:" + rest
    requires forall j | i < j < |comments| :: !("# template:" <= comments[j])
    ensures TemplateRead(comments, blank) == Some(Strip(rest, blank))
    decreases |comments|
  {
    hide Strip;
    if i == |comments| - 1 {
      AfterTemplate(rest);
    } else {
      TemplateMeans(comments[..|comments| - 1], blank, i, rest);
    }
  }

  lemma AfterTemplate(rest: string)
    ensures After("# template:" + rest, ':') == rest
  {
    AfterJoin("# template", ":" + rest, ':');
    assert "# template:" + rest == "# template" + (":" + rest);
  }

  lemma {:induction false} NoTemplate(comments: seq<string>, blank: Blank)
    requires forall j | 0 <= j < |comments| :: !("# template:" <= comments[j])
    ensures TemplateRead(comments, blank) == None
  {
    if comments != [] {
      NoTemplate(comments[..|comments| - 1], blank);
    }
  }

  // ---------------------------------------------------------------- what a mint stamps, read back

  /** A delta's key and its two values, rendered. */
  datatype Stamp = Stamp(key: string, was: string, now: string)

  function DeltaLines(stamps: seq<Stamp>): seq<string> {
    seq(|stamps|, i requires 0 <= i < |stamps| => DeltaLine(stamps[i].key, stamps[i].was, stamps[i].now))
  }

  function Header(template: string, stamps: seq<Stamp>): seq<string> {
    [MINTED_BY, TEMPLATE + " " + template] + DeltaLines(stamps)
  }

  /** The reader strips spaces and no colon, and the header's own text and values hold no line break. */
  ghost predicate Readable(blank: Blank, breaks: char -> bool, template: string, stamps: seq<Stamp>) {
    && blank(' ') && !blank(':') && forall l | l in Header(template, stamps) :: OneLine(l, breaks)
  }

  /** The header, and a body that does not go on with a comment: its comments are the header. */
  lemma HeaderComments(template: string, stamps: seq<Stamp>, body: string, breaks: char -> bool)
    requires forall l | l in Header(template, stamps) :: OneLine(l, breaks)
    requires body == "" || body[0] != '#'
    ensures Comments(Lines(Written(Header(template, stamps)) + body, breaks)) == Header(template, stamps)
  {
    LinesReadBack(Header(template, stamps), body, breaks);
    BodyLines(body, breaks);
    HeaderStarts(template, stamps);
    hide Lines, OneLine, Header, Comments, Written;
    CommentsFirst(Header(template, stamps), Lines(body, breaks));
  }

  lemma HeaderStarts(template: string, stamps: seq<Stamp>)
    ensures forall l | l in Header(template, stamps) :: l != "" && l[0] == '#'
  {
    forall i | 0 <= i < |stamps| ensures DeltaLines(stamps)[i] != "" && DeltaLines(stamps)[i][0] == '#' {
    }
  }

  lemma BodyLines(body: string, breaks: char -> bool)
    requires body == "" || body[0] != '#'
    ensures var lines := Lines(body, breaks); lines == [] || lines[0] == "" || lines[0][0] != '#'
  {
  }

  lemma {:induction false} CommentsFirst(comments: seq<string>, rest: seq<string>)
    requires forall l | l in comments :: l != "" && l[0] == '#'
    requires rest == [] || rest[0] == "" || rest[0][0] != '#'
    ensures Comments(comments + rest) == comments
  {
    if comments == [] {
      assert comments + rest == rest;
    } else {
      assert (comments + rest)[1..] == comments[1..] + rest && forall l | l in comments[1..] :: l in comments;
      assert comments[0] in comments && comments[0][..1] == "#";
      CommentsFirst(comments[1..], rest);
    }
  }

  /** The keys as the header carries them: up to the first colon, without outer blanks, none that comes to nothing. */
  function Carried(stamps: seq<Stamp>, blank: Blank): set<string> {
    (set i | 0 <= i < |stamps| :: Cut(stamps[i].key, blank)) - {""}
  }

  /** The header's first two lines claim nothing; each of the others claims its key as it is carried. */
  lemma HeaderKeys(template: string, stamps: seq<Stamp>, blank: Blank)
    requires blank(' ') && !blank(':')
    ensures ClaimsCut(Header(template, stamps), stamps, blank)
  {
    var header := Header(template, stamps);
    FirstTwo(template);
    hide ReadKey, Cut;
    forall i | 0 <= i < |stamps|
      ensures IsDelta(header[i + 2]) && ReadKey(header[i + 2], blank) == Cut(stamps[i].key, blank)
    {
      DeltaIsDelta(stamps[i]);
      hide IsDelta;
      KeyReadBack(stamps[i].key, stamps[i].was, stamps[i].now, blank);
    }
  }

  /** A header whose later lines claim the keys as they are carried. */
  ghost predicate ClaimsCut(header: seq<string>, stamps: seq<Stamp>, blank: Blank) {
    && |header| == |stamps| + 2 && !IsDelta(header[0]) && !IsDelta(header[1])
    && forall i | 0 <= i < |stamps| ::
         IsDelta(header[i + 2]) && ReadKey(header[i + 2], blank) == Cut(stamps[i].key, blank)
  }

  lemma FirstTwo(template: string)
    ensures !IsDelta(MINTED_BY) && !IsDelta(TEMPLATE + " " + template)
  {
    var line := TEMPLATE + " " + template;
    assert DELTA[2] != MINTED_BY[2] && line[..|TEMPLATE|] == TEMPLATE;
  }

  lemma CutsRead(header: seq<string>, stamps: seq<Stamp>, blank: Blank, i: nat)
    requires ClaimsCut(header, stamps, blank) && i < |stamps| && Cut(stamps[i].key, blank) != ""
    ensures Cut(stamps[i].key, blank) in ClaimsRead(header, blank)
  {
    hide ReadKey, Cut, IsDelta;
    var l := header[i + 2];
    assert l in header && IsDelta(l) && ReadKey(l, blank) == Cut(stamps[i].key, blank);
  }

  lemma ReadsCarried(header: seq<string>, stamps: seq<Stamp>, blank: Blank, n: nat)
    requires ClaimsCut(header, stamps, blank) && n < |header| && IsDelta(header[n]) && ReadKey(header[n], blank) != ""
    ensures ReadKey(header[n], blank) in Carried(stamps, blank)
  {
    hide ReadKey, Cut, IsDelta;
    assert header[n] == header[n - 2 + 2] && ReadKey(header[n], blank) == Cut(stamps[n - 2].key, blank);
  }

  lemma HeaderClaims(template: string, stamps: seq<Stamp>, blank: Blank)
    requires blank(' ') && !blank(':')
    ensures ClaimsRead(Header(template, stamps), blank) == Carried(stamps, blank)
  {
    HeaderKeys(template, stamps, blank);
    hide ReadKey, Cut, IsDelta, Header, ClaimsCut;
    var header := Header(template, stamps);
    forall i | 0 <= i < |stamps| && Cut(stamps[i].key, blank) != ""
      ensures Cut(stamps[i].key, blank) in ClaimsRead(header, blank)
    {
      CutsRead(header, stamps, blank, i);
    }
    forall n | 0 <= n < |header| && IsDelta(header[n]) && ReadKey(header[n], blank) != ""
      ensures ReadKey(header[n], blank) in Carried(stamps, blank)
    {
      ReadsCarried(header, stamps, blank, n);
    }
  }

  lemma DeltaIsDelta(s: Stamp)
    ensures IsDelta(DeltaLine(s.key, s.was, s.now))
  {
    assert DeltaLine(s.key, s.was, s.now)[2] == 'd' && TEMPLATE[2] == 't';
  }

  lemma HeaderTemplate(template: string, stamps: seq<Stamp>, blank: Blank)
    requires blank(' ') && !blank(':')
    ensures TemplateRead(Header(template, stamps), blank) == Some(Strip(template, blank))
    decreases |stamps|
  {
    hide Strip;
    var header := Header(template, stamps);
    if stamps == [] {
      var line := TEMPLATE + " " + template;
      assert header[..1] == [MINTED_BY] && header[1] == line && line[..|TEMPLATE|] == TEMPLATE;
      AfterMark(template);
      assert StripLeft(" " + template, blank) == StripLeft(template, blank) by {
        assert (" " + template)[1..] == template;
      }
      assert Strip(" " + template, blank) == Strip(template, blank) by {
        StripSpace(template, blank);
      }
    } else {
      var last := |stamps| - 1;
      HeaderTemplate(template, stamps[..last], blank);
      assert header[..|header| - 1] == Header(template, stamps[..last]);
      DeltaIsDelta(stamps[last]);
    }
  }

  lemma StripSpace(s: string, blank: Blank)
    requires blank(' ')
    ensures Strip(" " + s, blank) == Strip(s, blank)
  {
    assert (" " + s)[1..] == s;
  }

  lemma AfterMark(template: string)
    ensures After(TEMPLATE + " " + template, ':') == " " + template
  {
    AfterJoin("# template", ":" + " " + template, ':');
    assert TEMPLATE + " " + template == "# template" + (":" + " " + template);
  }

  lemma {:induction false} AfterJoin(a: string, b: string, c: char)
    requires c !in a && b != "" && b[0] == c
    ensures After(a + b, c) == b[1..]
  {
    if a == "" {
      assert a + b == b;
    } else {
      assert (a + b)[1..] == a[1..] + b;
      AfterJoin(a[1..], b, c);
    }
  }

  // ---------------------------------------------------------------- mint, then audit

  /** The stamps of the deltas, with their values' renderings. */
  function Stamps(deltas: seq<Delta>, texts: seq<(string, string)>): seq<Stamp>
    requires |texts| == |deltas|
  {
    seq(|deltas|, i requires 0 <= i < |deltas| => Stamp(deltas[i].dotted, texts[i].0, texts[i].1))
  }

  /** Where every key survives the header, it carries the claims of the deltas. */
  lemma CarriedClaims(deltas: seq<Delta>, texts: seq<(string, string)>, blank: Blank)
    requires |texts| == |deltas| && blank(' ') && !blank(':')
    requires forall i | 0 <= i < |deltas| :: deltas[i].dotted != "" && Survives(deltas[i].dotted, blank)
    ensures Carried(Stamps(deltas, texts), blank) == Claims(deltas)
  {
    forall i | 0 <= i < |deltas| ensures Cut(deltas[i].dotted, blank) == deltas[i].dotted {
      SurvivesExactly(deltas[i].dotted, texts[i].0, texts[i].1, blank);
      KeyReadBack(deltas[i].dotted, texts[i].0, texts[i].1, blank);
    }
    hide Cut, Survives;
    assert forall i | 0 <= i < |deltas| :: Stamps(deltas, texts)[i].key == deltas[i].dotted;
  }

  /**
   A mint written out with its header, and the audit of what was written. It says MATCH exactly when the keys as the
   header carries them and the changes against the template it names cover each other; where every key is safe and
   survives the header, and the template's name does, exactly when every key set covers a leaf that changed.
   */
  method MintThenAudit(templates: map<string, Node>, name: string, deltas: seq<Delta>, texts: seq<(string, string)>,
                       body: string, blank: Blank, breaks: char -> bool)
      returns (rc: int)
    requires |texts| == |deltas| && forall n | n in templates :: templates[n].Block?
    requires Readable(blank, breaks, name, Stamps(deltas, texts)) && (body == "" || body[0] != '#')
    ensures rc == 2 <==>
            name !in templates || Minted(templates[name], deltas, |deltas|).None? ||
            Strip(name, blank) == "" || Strip(name, blank) !in templates
    ensures rc != 2 ==>
              var ft, fc := Flat(templates[Strip(name, blank)]), Flat(Minted(templates[name], deltas, |deltas|).value);
              rc == if Matches(fc, ft, Carried(Stamps(deltas, texts), blank)) then 0 else 1
    ensures rc != 2 && Strip(name, blank) == name &&
            (forall i | 0 <= i < |deltas| :: Safe(deltas[i].dotted) && Survives(deltas[i].dotted, blank)) ==>
              var ft, fc := Flat(templates[name]), Flat(Minted(templates[name], deltas, |deltas|).value);
              rc == 0 <==> forall i | 0 <= i < |deltas| :: CoversSome(deltas[i].dotted, DiffKeys(fc, ft))
  {
    hide Minted, Matches, Carried, Strip, Header, Lines, Written, Comments, ClaimsRead, TemplateRead, Flat, Survives;
    if name !in templates {
      return 2;
    }
    var minted, claims := Mint(templates[name], deltas);
    if minted.None? {
      return 2;
    }
    MintedIsBlock(templates[name], deltas, |deltas|);
    var stamps := Stamps(deltas, texts);
    var text := Written(Header(name, stamps)) + body;
    HeaderComments(name, stamps, body, breaks);
    HeaderClaims(name, stamps, blank);
    HeaderTemplate(name, stamps, blank);
    var template, claimed := ParseHeader(Lines(text, breaks), blank);
    if template.None? || template.value == "" || template.value !in templates {
      return 2;
    }
    hide Claims, CoversSome, DiffKeys, Safe;
    var ft := FlatLeaves(templates[template.value], "");
    var fc := FlatLeaves(minted.value, "");
    FlatIs(templates[template.value]);
    FlatIs(minted.value);
    var unclaimed, idle;
    rc, unclaimed, idle := Audit(fc, ft, claimed);
    AuditedClaims(templates[name], deltas, texts, blank);
  }

  lemma FlatIs(doc: Node)
    ensures Flat(doc) == Table("", LeavesOf(doc))
  {
  }

  lemma AuditedClaims(template: Node, deltas: seq<Delta>, texts: seq<(string, string)>, blank: Blank)
    requires template.Block? && Minted(template, deltas, |deltas|).Some?
    requires |texts| == |deltas| && blank(' ') && !blank(':')
    ensures (forall i | 0 <= i < |deltas| :: Safe(deltas[i].dotted) && Survives(deltas[i].dotted, blank)) ==>
              var ft, fc := Flat(template), Flat(Minted(template, deltas, |deltas|).value);
              Matches(fc, ft, Carried(Stamps(deltas, texts), blank)) <==>
              forall i | 0 <= i < |deltas| :: CoversSome(deltas[i].dotted, DiffKeys(fc, ft))
  {
    if forall i | 0 <= i < |deltas| :: Safe(deltas[i].dotted) && Survives(deltas[i].dotted, blank) {
      assert forall i | 0 <= i < |deltas| :: deltas[i].dotted != "";
      hide Minted, Matches, Carried, Flat, Claims, CoversSome, DiffKeys, Safe, Survives;
      CarriedClaims(deltas, texts, blank);
      MintedMatches(template, deltas);
    }
  }

  /** A template with one key that holds a colon, and what setting it makes of it. */
  function Colon(n: int): Node {
    Block([Entry("a:b", Leaf(Scalar(n)))])
  }

  lemma ColonTable(n: int)
    ensures Flat(Colon(n)) == map["a:b" := Scalar(n)]
  {
    var doc := Colon(n);
    assert LeavesOf(Leaf(Scalar(n))) == [([], Scalar(n))] && ["a:b"] + [] == ["a:b"];
    assert Below("a:b", [([], Scalar(n))]) == [(["a:b"], Scalar(n))] && LeavesUpTo(doc, 0) == [];
    assert LeavesUpTo(doc, 1) == [] + Below("a:b", LeavesOf(Leaf(Scalar(n)))) == [(["a:b"], Scalar(n))];
    assert Dotted("", ["a:b"]) == Dotted("a:b", []) == "a:b";
    assert Table("", [(["a:b"], Scalar(n))][..0]) == map[];
  }

  lemma ColonMinted(was: int, now: int)
    ensures Minted(Colon(was), [Delta("a:b", Leaf(Scalar(now)))], 1) == Some(Colon(now))
  {
    var deltas := [Delta("a:b", Leaf(Scalar(now)))];
    assert Split("b", '.') == ["b"] && Split(":b", '.') == [":b"] && Split("a:b", '.') == ["a:b"] && ["a:b"][1..] == [];
    assert Minted(Colon(was), deltas, 0) == Some(Colon(was));
    assert NodeAt(Colon(was), ["a:b"]) == Some(Leaf(Scalar(was)));
    assert SetAt(Colon(was), ["a:b"], Leaf(Scalar(now))).items == Colon(now).items;
  }

  lemma OneClaim(d: Delta)
    ensures Claims([d]) == {d.dotted}
  {
    assert [d][0] == d;
  }

  lemma OneCarried(d: Delta, text: (string, string), blank: Blank)
    ensures Carried(Stamps([d], [text]), blank) == {Cut(d.dotted, blank)} - {""}
  {
    hide Cut;
    var stamps := Stamps([d], [text]);
    assert |stamps| == 1 && stamps[0].key == d.dotted;
    assert (set i | 0 <= i < |stamps| :: Cut(stamps[i].key, blank)) == {Cut(d.dotted, blank)};
  }

  lemma ColonDiffers(was: int, now: int)
    requires was != now
    ensures DiffKeys(Flat(Colon(now)), Flat(Colon(was))) == {"a:b"}
  {
    ColonTable(was);
    ColonTable(now);
  }

  /** An honest mint of that key: its claim covers its one change, and the claim the header carries covers none. */
  lemma ColonKeyMisread(blank: Blank, was: int, now: int, text: (string, string))
    requires blank(' ') && !blank(':') && !blank('a') && was != now
    ensures var deltas := [Delta("a:b", Leaf(Scalar(now)))];
            var ft, fc := Flat(Colon(was)), Flat(Colon(now));
            && Minted(Colon(was), deltas, 1) == Some(Colon(now)) && Safe("a:b")
            && Matches(fc, ft, Claims(deltas))
            && Carried(Stamps(deltas, [text]), blank) == {"a"} && !Matches(fc, ft, {"a"})
  {
    var d := Delta("a:b", Leaf(Scalar(now)));
    ColonMinted(was, now);
    ColonDiffers(was, now);
    OneClaim(d);
    OneCarried(d, text, blank);
    ColonCut(blank);
    hide Minted, Flat, DiffKeys, Claims, Carried, Cut, Stamps;
    var ft, fc := Flat(Colon(was)), Flat(Colon(now));
    assert "a:b" in DiffKeys(fc, ft);
    assert Covers("a:b", "a:b") && !Covers("a", "a:b") by {
      assert ("a" + ".")[1] != "a:b"[1];
    }
    assert CoversSome("a:b", DiffKeys(fc, ft)) && SomeCovers({"a:b"}, "a:b") && !SomeCovers({"a"}, "a:b");
  }

  lemma ColonCut(blank: Blank)
    requires !blank('a')
    ensures Cut("a:b", blank) == "a"
  {
    assert UpTo("a:b", ':') == ['a'] + UpTo(":b", ':') == "a";
  }
}
