/** Splitting a string on a separator character and joining it back. */
module Text {

  /** The parts of `s` between occurrences of `sep`: one more part than there are separators. */
  function Split(s: string, sep: char): (parts: seq<string>)
    ensures |parts| >= 1
    ensures Join(parts, sep) == s
    ensures forall p | p in parts :: sep !in p
  {
    if s == "" then [""]
    else
      var rest := Split(s[1..], sep);
      if s[0] == sep then [""] + rest
      else
        [[s[0]] + rest[0]] + rest[1..]
  }

  /** The parts with `sep` between neighbours. */
  function Join(parts: seq<string>, sep: char): string
    requires |parts| >= 1
  {
    if |parts| == 1 then parts[0] else parts[0] + [sep] + Join(parts[1..], sep)
  }

  /** Splitting undoes joining whenever no part holds the separator. */
  lemma {:induction false} SplitOfJoin(parts: seq<string>, sep: char)
    requires |parts| >= 1
    requires forall p | p in parts :: sep !in p
    ensures Split(Join(parts, sep), sep) == parts
    decreases |parts|, |parts[0]|
  {
    var head := parts[0];
    var joined := Join(parts, sep);
    if head == "" {
      if |parts| > 1 {
        SplitOfJoin(parts[1..], sep);
        assert joined[0] == sep && joined[1..] == Join(parts[1..], sep);
      }
    } else {
      var shorter := [head[1..]] + parts[1..];
      assert sep !in head;
      assert forall p | p in shorter :: p == head[1..] || p in parts;
      SplitOfJoin(shorter, sep);
      assert parts[1..] == shorter[1..];
      assert joined[0] == head[0] && joined[0] != sep;
      assert joined[1..] == Join(shorter, sep);
      assert [head[0]] + head[1..] == head;
    }
  }
}
