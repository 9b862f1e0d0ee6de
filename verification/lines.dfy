/** The lines of a Markdown source and the tests `Markdown` makes on one line. */
module Lines {
  // --- Characters -----------------------------------------------------------------------

  /** JavaScript white space and line terminators: what \s matches and `trim` removes. */
  predicate Space(c: char)
  {
    || c == ' ' || '\t' <= c <= '\r' || c == '\U{A0}' || c == '\U{1680}' || '\U{2000}' <= c <= '\U{200A}'
    || c == '\U{2028}' || c == '\U{2029}' || c == '\U{202F}' || c == '\U{205F}' || c == '\U{3000}' || c == '\U{FEFF}'
  }

  /** What the dot of a regular expression matches. */
  predicate Dot(c: char)
  {
    c != '\n' && c != '\r' && c != '\U{2028}' && c != '\U{2029}'
  }

  predicate Digit(c: char)
  {
    '0' <= c <= '9'
  }

  predicate Dash(c: char)
  {
    c == '-'
  }

  predicate Hash(c: char)
  {
    c == '#'
  }

  /** The class [\s:|-] of a table's second line. */
  predicate Ruling(c: char)
  {
    Space(c) || c == ':' || c == '|' || c == '-'
  }

  /** The white space and line terminators of ECMAScript, by code point. */
  lemma {:induction false} SpacesAre(c: char)
    ensures Space(c) <==> c as int in {9, 10, 11, 12, 13, 32, 160, 5760, 8192, 8193, 8194, 8195, 8196, 8197, 8198, 8199,
                                       8200, 8201, 8202, 8232, 8233, 8239, 8287, 12288, 65279}
  {
  }

  predicate All(s: string, from: int, to: int, p: char -> bool)
    requires 0 <= from && to <= |s|
  {
    forall x :: from <= x < to ==> p(s[x])
  }

  /** The end of the longest run of `p` from `from`: a greedy star. */
  function Greedy(s: string, from: nat, p: char -> bool): (k: nat)
    requires from <= |s|
    ensures from <= k <= |s| && All(s, from, k, p) && (k == |s| || !p(s[k]))
    decreases |s| - from
  {
    if from < |s| && p(s[from]) then Greedy(s, from + 1, p) else from
  }

  lemma {:induction false} GreedyIs(s: string, from: nat, k: nat, p: char -> bool)
    requires from <= k <= |s| && All(s, from, k, p) && (k == |s| || !p(s[k]))
    ensures Greedy(s, from, p) == k
  {
  }

  // --- Splitting and joining ----------------------------------------------------------------

  /** `s.split(c)`. */
  function Split(s: string, c: char): (parts: seq<string>)
    ensures 0 < |parts|
  {
    if |s| == 0 then [""]
    else
      var before, x := Split(s[..|s| - 1], c), s[|s| - 1];
      if x == c then before + [""]
      else before[..|before| - 1] + [before[|before| - 1] + [x]]
  }

  /** `parts.join(glue)`. */
  function Join(parts: seq<string>, glue: string): string
  {
    if |parts| == 0 then ""
    else if |parts| == 1 then parts[0]
    else Join(parts[..|parts| - 1], glue) + glue + parts[|parts| - 1]
  }

  lemma {:induction false} JoinSnoc(parts: seq<string>, last: string, glue: string)
    requires 0 < |parts|
    ensures Join(parts + [last], glue) == Join(parts, glue) + glue + last
  {
    assert (parts + [last])[..|parts|] == parts;
  }

  lemma {:induction false} Longer(a: string, b: string, c: string, x: char)
    ensures a + b + (c + [x]) == a + b + c + [x]
  {
  }

  lemma {:induction false} JoinLonger(before: seq<string>, last: string, x: char, glue: string)
    ensures Join(before + [last + [x]], glue) == Join(before + [last], glue) + [x]
  {
    if |before| == 0 {
      assert before + [last + [x]] == [last + [x]] && before + [last] == [last];
    } else {
      JoinSnoc(before, last + [x], glue);
      JoinSnoc(before, last, glue);
      Longer(Join(before, glue), glue, last, x);
    }
  }

  lemma {:induction false} JoinSplit(s: string, c: char)
    ensures Join(Split(s, c), [c]) == s
  {
    if 0 < |s| {
      var before, x := Split(s[..|s| - 1], c), s[|s| - 1];
      JoinSplit(s[..|s| - 1], c);
      assert s == s[..|s| - 1] + [x];
      var n := |before| - 1;
      assert before == before[..n] + [before[n]];
      JoinSnoc(before, "", [c]);
      JoinLonger(before[..n], before[n], x, [c]);
    }
  }

  lemma {:induction false} SplitParts(s: string, c: char)
    ensures forall i :: 0 <= i < |Split(s, c)| ==> c !in Split(s, c)[i]
  {
    if 0 < |s| { SplitParts(s[..|s| - 1], c); }
  }

  lemma {:induction false} SplitPart(w: string, c: char)
    requires c !in w
    ensures Split(w, c) == [w]
  {
    if 0 < |w| {
      SplitPart(w[..|w| - 1], c);
      assert w == w[..|w| - 1] + [w[|w| - 1]];
    }
  }

  lemma {:induction false} SplitAppend(s: string, w: string, c: char)
    requires c !in w
    ensures Split(s + [c] + w, c) == Split(s, c) + [w]
  {
    if |w| == 0 {
      assert s + [c] + w == s + [c];
      assert (s + [c])[..|s|] == s;
    } else {
      var v, x := w[..|w| - 1], w[|w| - 1];
      SplitAppend(s, v, c);
      assert (s + [c] + w)[..|s + [c] + w| - 1] == s + [c] + v;
      assert w == v + [x];
      assert (Split(s, c) + [v])[..|Split(s, c)|] == Split(s, c);
    }
  }

  lemma {:induction false} SplitJoin(parts: seq<string>, c: char)
    requires 0 < |parts| && forall i :: 0 <= i < |parts| ==> c !in parts[i]
    ensures Split(Join(parts, [c]), c) == parts
  {
    var n := |parts| - 1;
    assert parts == parts[..n] + [parts[n]];
    if n == 0 {
      SplitPart(parts[0], c);
    } else {
      SplitJoin(parts[..n], c);
      SplitAppend(Join(parts[..n], [c]), parts[n], c);
      JoinSnoc(parts[..n], parts[n], [c]);
    }
  }

  /** `replace(/\r\n/g, "\n")`. */
  function Unix(s: string): string
  {
    if |s| == 0 then ""
    else if 2 <= |s| && s[0] == '\r' && s[1] == '\n' then "\n" + Unix(s[2..])
    else [s[0]] + Unix(s[1..])
  }

  function LinesOf(source: string): (lines: seq<string>)
    ensures 0 < |lines|
  {
    Split(Unix(source), '\n')
  }

  /** Joining the lines gives back the source with every CRLF turned into a newline. */
  lemma {:induction false} LinesLoseNothing(source: string)
    ensures Join(LinesOf(source), "\n") == Unix(source)
    ensures forall i :: 0 <= i < |LinesOf(source)| ==> '\n' !in LinesOf(source)[i]
  {
    JoinSplit(Unix(source), '\n');
    SplitParts(Unix(source), '\n');
  }

  function Trim(s: string): (r: string)
    decreases |s|
  {
    if 0 < |s| && Space(s[0]) then Trim(s[1..])
    else if 0 < |s| && Space(s[|s| - 1]) then Trim(s[..|s| - 1])
    else s
  }

  /** `line.trim() === ''`. */
  predicate Blank(line: string)
  {
    Trim(line) == ""
  }

  lemma {:induction false} BlankIsAllSpace(line: string)
    ensures Blank(line) <==> All(line, 0, |line|, Space)
    decreases |line|
  {
    if 0 < |line| && Space(line[0]) {
      BlankIsAllSpace(line[1..]);
      assert forall x :: 1 <= x < |line| ==> line[x] == line[1..][x - 1];
    } else if 0 < |line| && Space(line[|line| - 1]) {
      assert !Space(line[0]);
      BlankIsAllSpace(line[..|line| - 1]);
    }
  }

  predicate StartsWith(line: string, prefix: string)
  {
    prefix <= line
  }

  // --- The tests, as the code makes them --------------------------------------------------------

  predicate IsFence(line: string)
  {
    StartsWith(line, "```")
  }

  /** /^---+\s*$/ */
  predicate IsRule(line: string)
  {
    var k := Greedy(line, 0, Dash);
    3 <= k && Greedy(line, k, Space) == |line|
  }

  /** /^(#{1,4})\s+(.*)$/, with the lengths of what it captures. */
  function HeadingLevel(line: string): (k: nat)
    ensures k <= |line|
  {
    Greedy(line, 0, Hash)
  }

  function HeadingStart(line: string): (m: nat)
    ensures HeadingLevel(line) <= m <= |line|
  {
    Greedy(line, HeadingLevel(line), Space)
  }

  predicate IsHeading(line: string)
  {
    && 1 <= HeadingLevel(line) <= 4 && HeadingLevel(line) < HeadingStart(line)
    && Greedy(line, HeadingStart(line), Dot) == |line|
  }

  /** /^\s*\|?[\s:|-]+\|?\s*$/ */
  predicate IsRuling(line: string)
  {
    0 < |line| && Greedy(line, 0, Ruling) == |line|
  }

  predicate HasBar(line: string)
  {
    '|' in line
  }

  predicate IsQuote(line: string)
  {
    StartsWith(line, ">")
  }

  /** `replace(/^>\s?/, "")` */
  function Unquote(line: string): string
  {
    if !IsQuote(line) then line
    else if 1 < |line| && Space(line[1]) then line[2..]
    else line[1..]
  }

  /** The end of a list marker after the indentation; 0 when there is none. */
  function MarkerEnd(line: string): (b: nat)
    ensures b <= |line|
  {
    var a := Greedy(line, 0, Space);
    if a < |line| && (line[a] == '-' || line[a] == '*') then a + 1
    else
      var d := Greedy(line, a, Digit);
      if a < d < |line| && line[d] == '.' then d + 1 else 0
  }

  /** /^\s*([-*]|\d+\.)\s+/: where the item's text begins; 0 when the line is no item. */
  function ItemStart(line: string): (c: nat)
    ensures c <= |line|
  {
    var b := MarkerEnd(line);
    var c := Greedy(line, b, Space);
    if 0 < b < c then c else 0
  }

  predicate IsItem(line: string)
  {
    0 < ItemStart(line)
  }

  function ItemText(line: string): string
  {
    line[ItemStart(line)..]
  }

  /** /^\s*\d+\.\s+/ */
  predicate IsNumbered(line: string)
  {
    var a := Greedy(line, 0, Space);
    IsItem(line) && a < |line| && Digit(line[a])
  }

  // --- The regular expressions, as splits of the line ----------------------------------------------

  ghost predicate RuleMatch(line: string)
  {
    exists k :: 3 <= k <= |line| && (forall x :: 0 <= x < k ==> line[x] == '-') && All(line, k, |line|, Space)
  }

  ghost predicate HeadingMatch(line: string, k: int, m: int)
  {
    && 1 <= k <= 4 && k < m <= |line|
    && (forall x :: 0 <= x < k ==> line[x] == '#') && All(line, k, m, Space)
    && (forall x :: m <= x < |line| ==> line[x] !in {'\n', '\r', '\U{2028}', '\U{2029}'})
  }

  /** [from, to) holds one `c` or nothing. */
  predicate Maybe(line: string, from: int, to: int, c: char)
    requires 0 <= from && to <= |line|
  {
    to == from || (to == from + 1 && line[from] == c)
  }

  ghost predicate RulingSplit(line: string, a: int, b: int, c: int, d: int)
  {
    && 0 <= a <= b < c <= d <= |line|
    && All(line, 0, a, Space) && Maybe(line, a, b, '|') && Maybe(line, c, d, '|') && All(line, d, |line|, Space)
    && (forall x :: b <= x < c ==> Space(line[x]) || line[x] in {':', '|', '-'})
  }

  ghost predicate Numeral(line: string, a: int, b: int)
    requires 0 <= a < b <= |line|
  {
    a + 1 < b && (forall x :: a <= x < b - 1 ==> '0' <= line[x] <= '9') && line[b - 1] == '.'
  }

  ghost predicate ItemSplit(line: string, a: int, b: int, c: int)
  {
    && 0 <= a < b < c <= |line|
    && All(line, 0, a, Space)
    && ((b == a + 1 && (line[a] == '-' || line[a] == '*')) || Numeral(line, a, b))
    && All(line, b, c, Space)
  }

  lemma {:induction false} RuleTest(line: string)
    ensures IsRule(line) <==> RuleMatch(line)
  {
    if k :| 3 <= k <= |line| && (forall x :: 0 <= x < k ==> line[x] == '-') && All(line, k, |line|, Space) {
      GreedyIs(line, 0, k, Dash);
      GreedyIs(line, k, |line|, Space);
    }
  }

  /** The heading test, and that the captured text is the shortest the expression allows. */
  lemma {:induction false} HeadingTest(line: string)
    ensures IsHeading(line) <==> exists k, m :: HeadingMatch(line, k, m)
    ensures forall k, m :: HeadingMatch(line, k, m) ==> k == HeadingLevel(line) && m <= HeadingStart(line)
    ensures IsHeading(line) ==> HeadingMatch(line, HeadingLevel(line), HeadingStart(line))
  {
    forall k, m | HeadingMatch(line, k, m)
      ensures k == HeadingLevel(line) && m <= HeadingStart(line) && IsHeading(line)
    {
      assert Space(line[k]);
      GreedyIs(line, 0, k, Hash);
      GreedyIs(line, HeadingStart(line), |line|, Dot);
    }
    if IsHeading(line) {
      assert HeadingMatch(line, HeadingLevel(line), HeadingStart(line));
    }
  }

  lemma {:induction false} RulingTest(line: string)
    ensures IsRuling(line) <==> exists a, b, c, d :: RulingSplit(line, a, b, c, d)
  {
    forall a, b, c, d | RulingSplit(line, a, b, c, d) ensures IsRuling(line) {
      GreedyIs(line, 0, |line|, Ruling);
    }
    if IsRuling(line) {
      assert RulingSplit(line, 0, 0, |line|, |line|);
    }
  }

  lemma {:induction false} ItemFound(line: string, a: int, b: int, c: int)
    requires ItemSplit(line, a, b, c)
    ensures MarkerEnd(line) == b && c <= ItemStart(line)
    ensures IsNumbered(line) <==> Numeral(line, a, b)
  {
    GreedyIs(line, 0, a, Space);
    if Numeral(line, a, b) {
      assert Digit(line[a]);
      GreedyIs(line, a, b - 1, Digit);
    }
  }

  /** The list test; a split in front of white space is unique, and the item's text is the shortest. */
  lemma {:induction false} ItemTest(line: string)
    ensures IsItem(line) <==> exists a, b, c :: ItemSplit(line, a, b, c)
    ensures forall a, b, c :: ItemSplit(line, a, b, c) ==> b == MarkerEnd(line) && c <= ItemStart(line)
    ensures IsItem(line) ==> ItemSplit(line, Greedy(line, 0, Space), MarkerEnd(line), ItemStart(line))
    ensures IsNumbered(line) <==> exists a, b, c :: ItemSplit(line, a, b, c) && Numeral(line, a, b)
  {
    forall a, b, c | ItemSplit(line, a, b, c)
      ensures b == MarkerEnd(line) && c <= ItemStart(line) && (IsNumbered(line) <==> Numeral(line, a, b))
    {
      ItemFound(line, a, b, c);
    }
    if IsItem(line) {
      assert ItemSplit(line, Greedy(line, 0, Space), MarkerEnd(line), ItemStart(line));
    }
  }
}
