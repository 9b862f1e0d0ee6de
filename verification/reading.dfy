/** What is written line by line reads back: items, quotes, fences and lines of either ending. */
module Reading {
  import opened Lines
  import opened Markdown
  import opened Documents

  // --- Line endings --------------------------------------------------------------------------

  /** No line break inside the line, and no carriage return that a newline after it would swallow. */
  predicate PlainLine(line: string)
  {
    '\n' !in line && (line == "" || line[|line| - 1] != '\r')
  }

  lemma {:induction false} UnixLine(line: string, rest: string)
    requires '\n' !in line && (line == "" || line[|line| - 1] != '\r' || rest == "" || rest[0] != '\n')
    ensures Unix(line + rest) == line + Unix(rest)
  {
    if line == "" {
      assert line + rest == rest;
    } else {
      assert line + rest == [line[0]] + (line[1..] + rest);
      UnixLine(line[1..], rest);
      assert 2 <= |line| ==> (line + rest)[1] == line[1];
      assert [line[0]] + (line[1..] + Unix(rest)) == line + Unix(rest);
    }
  }

  lemma {:induction false} UnixBreak(rest: string)
    ensures Unix("\r\n" + rest) == "\n" + Unix(rest) && Unix("\n" + rest) == "\n" + Unix(rest)
  {
    assert ("\r\n" + rest)[2..] == rest && ("\n" + rest)[1..] == rest;
  }

  lemma {:induction false} JoinCons(first: string, rest: seq<string>, glue: string)
    requires 0 < |rest|
    ensures Join([first] + rest, glue) == first + (glue + Join(rest, glue))
  {
    var n := |rest| - 1;
    assert ([first] + rest)[..n + 1] == [first] + rest[..n];
    if 0 < n {
      JoinCons(first, rest[..n], glue);
    } else {
      assert [first] + rest[..n] == [first];
    }
    Assoc(first, glue, Join(rest[..n], glue), glue, rest[n]);
  }

  lemma {:induction false} Assoc(a: string, b: string, c: string, d: string, e: string)
    ensures a + (b + c) + d + e == a + (b + (c + d + e))
  {
  }

  lemma {:induction false} UnixOfLines(lines: seq<string>, glue: string)
    requires 0 < |lines| && (glue == "\n" || glue == "\r\n")
    requires forall i :: 0 <= i < |lines| ==> '\n' !in lines[i] && (glue == "\n" ==> PlainLine(lines[i]))
    ensures Unix(Join(lines, glue)) == Join(lines, "\n")
  {
    var first, rest := lines[0], lines[1..];
    if |rest| == 0 {
      UnixLine(first, "");
      assert first + "" == first && lines == [first];
    } else {
      UnixOfLines(rest, glue);
      assert lines == [first] + rest;
      JoinCons(first, rest, glue);
      JoinCons(first, rest, "\n");
      UnixLine(first, glue + Join(rest, glue));
      UnixBreak(Join(rest, glue));
    }
  }

  /** Lines put together with CRLF read back as they are; with newlines they do too, unless one ends in a
      carriage return. */
  lemma {:induction false} LinesReadBack(lines: seq<string>, glue: string)
    requires 0 < |lines| && (glue == "\n" || glue == "\r\n")
    requires forall i :: 0 <= i < |lines| ==> '\n' !in lines[i] && (glue == "\n" ==> PlainLine(lines[i]))
    ensures LinesOf(Join(lines, glue)) == lines
  {
    UnixOfLines(lines, glue);
    SplitJoin(lines, '\n');
  }

  // --- Trimming --------------------------------------------------------------------------------

  /** Nothing to trim. */
  predicate Trimmed(s: string)
  {
    s == "" || (!Space(s[0]) && !Space(s[|s| - 1]))
  }

  /** White space around a text is taken off, and nothing else. */
  lemma {:induction false} TrimExactly(before: string, s: string, after: string)
    requires All(before, 0, |before|, Space) && All(after, 0, |after|, Space) && Trimmed(s)
    ensures Trim(before + s + after) == s
    decreases |before| + |after|
  {
    var line := before + s + after;
    if 0 < |before| {
      TrimExactly(before[1..], s, after);
      assert line[1..] == before[1..] + s + after;
      assert line[0] == before[0];
    } else if 0 < |after| {
      var n := |after| - 1;
      TrimExactly(before, s, after[..n]);
      if s == "" {
        TrimBlank(line);
        assert line == after;
      } else {
        assert line[0] == s[0] && line[|line| - 1] == after[n];
        assert line[..|line| - 1] == before + s + after[..n];
      }
    } else {
      assert line == s;
    }
  }

  lemma {:induction false} TrimBlank(line: string)
    ensures All(line, 0, |line|, Space) ==> Trim(line) == ""
  {
    BlankIsAllSpace(line);
  }

  // --- List items ----------------------------------------------------------------------------------

  /** A dash, a star, or digits and a dot. */
  predicate Marker(m: string)
  {
    m == "-" || m == "*" || (2 <= |m| && All(m, 0, |m| - 1, Digit) && m[|m| - 1] == '.')
  }

  /** A text that does not begin with white space. */
  predicate Flush(t: string)
  {
    t == "" || !Space(t[0])
  }

  function ItemLine(indent: string, marker: string, gap: string, t: string): string
  {
    indent + marker + gap + t
  }

  lemma {:induction false} ItemLineSplits(indent: string, marker: string, gap: string, t: string)
    requires All(indent, 0, |indent|, Space) && Marker(marker) && 0 < |gap| && All(gap, 0, |gap|, Space)
    ensures var a := |indent|; var b := a + |marker|;
            ItemSplit(ItemLine(indent, marker, gap, t), a, b, b + |gap|)
    ensures var a := |indent|; var b := a + |marker|;
            Numeral(ItemLine(indent, marker, gap, t), a, b) <==> marker != "-" && marker != "*"
  {
    var line := ItemLine(indent, marker, gap, t);
    var a := |indent|;
    var b := a + |marker|;
    assert forall x :: 0 <= x < a ==> line[x] == indent[x];
    assert forall x :: a <= x < b ==> line[x] == marker[x - a];
    assert forall x :: b <= x < b + |gap| ==> line[x] == gap[x - b];
    assert forall x :: 0 <= x < |marker| ==> marker[x] == line[a + x];
    if Numeral(line, a, b) { assert |marker| == b - a; }
  }

  /** Indentation, a marker, white space and a text make an item of exactly that text, numbered exactly when
      the marker is. */
  lemma {:induction false} ItemReadsBack(indent: string, marker: string, gap: string, t: string)
    requires All(indent, 0, |indent|, Space) && Marker(marker) && 0 < |gap| && All(gap, 0, |gap|, Space) && Flush(t)
    ensures var line := ItemLine(indent, marker, gap, t);
            IsItem(line) && ItemText(line) == t && (IsNumbered(line) <==> marker != "-" && marker != "*")
  {
    var line := ItemLine(indent, marker, gap, t);
    var b := |indent| + |marker|;
    ItemLineSplits(indent, marker, gap, t);
    ItemFound(line, |indent|, b, b + |gap|);
    assert line[b + |gap|..] == t;
    GreedyIs(line, b, b + |gap|, Space);
  }

  // --- Quotes ----------------------------------------------------------------------------------------

  /** Of a quoted line the mark goes, and one white-space character after it, and nothing else. */
  lemma {:induction false} QuoteReadsBack(t: string, c: char)
    ensures Flush(t) ==> IsQuote(">" + t) && Unquote(">" + t) == t
    ensures Space(c) ==> IsQuote(">" + [c] + t) && Unquote(">" + [c] + t) == t
  {
    assert (">" + t)[1..] == t && (">" + [c] + t)[2..] == t;
    assert t != "" ==> (">" + t)[1] == t[0];
  }

  // --- Lines that go on with a paragraph -----------------------------------------------------------------

  /** A paragraph goes on exactly over lines with something on them that do not begin with a hash, a quote
      mark or a fence and match neither the item's nor the rule's expression. */
  lemma {:induction false} ContinuesExactly(line: string)
    ensures Continues(line) <==>
            && !All(line, 0, |line|, Space) && line[0] != '#' && line[0] != '>' && !("```" <= line)
            && !RuleMatch(line) && !exists a, b, c :: ItemSplit(line, a, b, c)
  {
    BlankIsAllSpace(line);
    RuleTest(line);
    ItemTest(line);
  }

  // --- Documents that read back ------------------------------------------------------------------------

  lemma {:induction false} OneLink(p: Piece, fits: Piece -> bool)
    requires fits(p) && p.from == 0
    ensures Chain([p], fits) && StartOf([p], 1) == p.to
  {
    assert Chain([], fits);
    assert [p][..0] == [];
  }

  /** The piece that holds all lines, when it fits, is the document. */
  lemma {:induction false} OnePiece(lines: seq<string>, p: Piece, ps: seq<Piece>)
    requires Fits(lines, p) && p.from == 0 && p.to == |lines| && Document(lines, ps)
    ensures ps == [p]
  {
    assert FitsIn(lines)(p);
    OneLink(p, FitsIn(lines));
    DocumentOnce(lines, ps, [p]);
  }

  lemma {:induction false} TextsAre<T>(lines: seq<string>, from: nat, end: nat, f: string -> T, texts: seq<T>)
    requires from <= end <= |lines| && end - from <= |texts|
    requires forall k :: from <= k < end ==> f(lines[k]) == texts[k - from]
    ensures Texts(lines, from, end, f) == texts[..end - from]
  {
    if from < end {
      TextsAre(lines, from, end - 1, f, texts);
      assert texts[..end - from] == texts[..end - 1 - from] + [texts[end - 1 - from]];
    }
  }

  /** Lines written as items of the same kind of marker, with any spacing, one per text, none with a bar. */
  ghost predicate WrittenItems(lines: seq<string>, ordered: bool, texts: seq<string>)
  {
    && |lines| == |texts| && 0 < |lines|
    && forall k :: 0 <= k < |lines| ==>
         IsItem(lines[k]) && ItemText(lines[k]) == texts[k] && IsNumbered(lines[k]) == ordered && !HasBar(lines[k])
  }

  lemma {:induction false} ItemKind(line: string)
    requires IsItem(line)
    ensures !IsFence(line) && !IsRule(line) && !IsHeading(line) && !IsQuote(line)
  {
    ItemTest(line);
    var a, b, c := Greedy(line, 0, Space), MarkerEnd(line), ItemStart(line);
    assert ItemSplit(line, a, b, c);
    assert Space(line[b]);
    if a == 0 && line[0] == '-' {
      assert b == 1;
      GreedyIs(line, 0, 1, Dash);
    }
  }

  lemma {:induction false} ItemTexts(lines: seq<string>, ordered: bool, texts: seq<string>)
    requires WrittenItems(lines, ordered, texts)
    ensures Texts(lines, 0, |lines|, ItemText) == texts && Run(lines, 0, |lines|, IsItem)
  {
    TextsAre(lines, 0, |lines|, ItemText, texts);
    assert texts[..|lines|] == texts;
  }

  lemma {:induction false} ListIsFit(lines: seq<string>, p: Piece)
    requires 0 < |lines| && p.from == 0 && p.to == |lines| && IsItem(lines[0]) && !HasBar(lines[0])
    requires ListFits(lines, p, IsItem, IsNumbered, ItemText)
    ensures Fits(lines, p)
  {
    ItemKind(lines[0]);
  }

  /** A list of written items reads back as the list of their texts. */
  lemma {:induction false} ListReadsBack(lines: seq<string>, ordered: bool, texts: seq<string>, ps: seq<Piece>)
    requires WrittenItems(lines, ordered, texts) && Document(lines, ps)
    ensures ps == [Piece(List(ordered, texts), 0, |lines|)]
  {
    var p := Piece(List(ordered, texts), 0, |lines|);
    ItemTexts(lines, ordered, texts);
    ListIsFit(lines, p);
    OnePiece(lines, p, ps);
  }

  lemma {:induction false} QuotedTexts(texts: seq<string>, lines: seq<string>)
    requires |texts| == |lines| && forall k :: 0 <= k < |texts| ==> lines[k] == "> " + texts[k]
    ensures forall k :: 0 <= k < |lines| ==> IsQuote(lines[k])
    ensures Texts(lines, 0, |lines|, Unquote) == texts
  {
    forall k | 0 <= k < |lines| ensures IsQuote(lines[k]) && Unquote(lines[k]) == texts[k] {
      QuoteReadsBack(texts[k], ' ');
      assert ">" + [' '] + texts[k] == lines[k];
    }
    TextsAre(lines, 0, |lines|, Unquote, texts);
    assert texts[..|lines|] == texts;
  }

  lemma {:induction false} QuoteKind(line: string)
    requires IsQuote(line)
    ensures !IsFence(line) && !IsRule(line) && !IsHeading(line)
  {
    GreedyIs(line, 0, 0, Dash);
    GreedyIs(line, 0, 0, Hash);
  }

  /** Quoted lines without a bar read back as one quote of their texts. */
  lemma {:induction false} QuotesReadBack(texts: seq<string>, lines: seq<string>, ps: seq<Piece>)
    requires 0 < |texts| == |lines| && forall k :: 0 <= k < |texts| ==> lines[k] == "> " + texts[k] && '|' !in texts[k]
    requires Document(lines, ps)
    ensures ps == [Piece(Quote(Join(texts, " ")), 0, |lines|)]
  {
    var p := Piece(Quote(Join(texts, " ")), 0, |lines|);
    QuotedTexts(texts, lines);
    QuoteKind(lines[0]);
    assert Fits(lines, p);
    OnePiece(lines, p, ps);
  }

  lemma {:induction false} CodeFits(lang: string, code: seq<string>, lines: seq<string>, p: Piece)
    requires Trimmed(lang) && forall k :: 0 <= k < |code| ==> !("```" <= code[k])
    requires lines == ["```" + lang] + code + ["```"]
    requires p == Piece(Fence(lang, Join(code, "\n")), 0, |lines|)
    ensures IsFence(lines[0]) && FenceFits(lines, p, |code| + 1)
  {
    assert lines[0][3..] == lang && "" + lang + "" == lang;
    TrimExactly("", lang, "");
    assert lines[1..|code| + 1] == code;
  }

  /** Code between fences reads back as it is, with the language of the opening fence. */
  lemma {:induction false} CodeReadsBack(lang: string, code: seq<string>, ps: seq<Piece>)
    requires Trimmed(lang) && forall k :: 0 <= k < |code| ==> !("```" <= code[k])
    requires Document(["```" + lang] + code + ["```"], ps)
    ensures ps == [Piece(Fence(lang, Join(code, "\n")), 0, |code| + 2)]
  {
    var lines := ["```" + lang] + code + ["```"];
    var p := Piece(Fence(lang, Join(code, "\n")), 0, |lines|);
    CodeFits(lang, code, lines, p);
    FenceIsFit(lines, p, |code| + 1);
    OnePiece(lines, p, ps);
  }

  // --- Tables -------------------------------------------------------------------------------------------

  ghost predicate RulingMatch(line: string)
  {
    exists a, b, c, d :: RulingSplit(line, a, b, c, d)
  }

  /** A table starts exactly at a line with a bar over one that matches the expression of the second line. */
  lemma {:induction false} TableStartsExactly(lines: seq<string>, i: nat)
    requires i < |lines|
    ensures TableStarts(lines, i) <==>
            && (exists k :: 0 <= k < |lines[i]| && lines[i][k] == '|')
            && i + 1 < |lines| && RulingMatch(lines[i + 1])
  {
    if i + 1 < |lines| { RulingTest(lines[i + 1]); }
  }

  /** A line written from cells, with a bar around every one. */
  function RowLine(cells: seq<string>): string
  {
    "|" + Join(cells, "|") + "|"
  }

  ghost predicate CellsOk(cells: seq<string>)
  {
    0 < |cells| && forall i :: 0 <= i < |cells| ==> Cell(cells[i])
  }

  lemma {:induction false} RowKind(cells: seq<string>)
    ensures var line := RowLine(cells); !IsFence(line) && !IsRule(line) && !IsHeading(line) && HasBar(line)
  {
    GreedyIs(RowLine(cells), 0, 0, Dash);
    GreedyIs(RowLine(cells), 0, 0, Hash);
  }

  ghost predicate WrittenRows(lines: seq<string>, rows: seq<seq<string>>)
  {
    && |lines| == |rows| + 2 && (forall k :: 0 <= k < |rows| ==> CellsOk(rows[k]))
    && forall k :: 2 <= k < |lines| ==> lines[k] == RowLine(rows[k - 2])
  }

  lemma {:induction false} RowOfLine(line: string, cells: seq<string>)
    requires line == RowLine(cells) && CellsOk(cells)
    ensures Cells(line) == cells && HasBar(line)
  {
    RowRoundTrip(cells);
    RowKind(cells);
  }

  lemma {:induction false} RowLines(lines: seq<string>, rows: seq<seq<string>>)
    requires WrittenRows(lines, rows)
    ensures forall k :: 2 <= k < |lines| ==> Cells(lines[k]) == rows[k - 2] && HasBar(lines[k])
  {
    forall k | 2 <= k < |lines| ensures Cells(lines[k]) == rows[k - 2] && HasBar(lines[k]) {
      RowOfLine(lines[k], rows[k - 2]);
    }
  }

  lemma {:induction false} RowTexts(lines: seq<string>, rows: seq<seq<string>>)
    requires WrittenRows(lines, rows)
    ensures Texts(lines, 2, |lines|, Cells) == rows && Run(lines, 2, |lines|, HasBar)
  {
    RowLines(lines, rows);
    TextsAre(lines, 2, |lines|, Cells, rows);
    assert rows[..|lines| - 2] == rows;
  }

  /** A head, a ruling and rows read back as the table of their cells. */
  lemma {:induction false} TableReadsBack(head: seq<string>, ruling: string, rows: seq<seq<string>>, lines: seq<string>,
                                          ps: seq<Piece>)
    requires CellsOk(head) && RulingMatch(ruling) && WrittenRows(lines, rows)
    requires lines[0] == RowLine(head) && lines[1] == ruling
    requires Document(lines, ps)
    ensures ps == [Piece(Table(head, rows), 0, |lines|)]
  {
    var p := Piece(Table(head, rows), 0, |lines|);
    RowKind(head);
    RowRoundTrip(head);
    RulingTest(ruling);
    RowTexts(lines, rows);
    TableIsFit(lines, p);
    OnePiece(lines, p, ps);
  }
}
