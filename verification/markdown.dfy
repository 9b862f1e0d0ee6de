/** The block loop `Markdown` of `dashboard/src/app/docs/md.tsx`. */
module Markdown {
  import opened Inline
  import opened Lines

  type Spans = seq<Span>

  /** A block, with its texts as the lines give them. */
  datatype Block =
    | Fence(lang: string, code: string)
    | Rule
    | Heading(level: nat, title: string)
    | Table(head: seq<string>, rows: seq<seq<string>>)
    | Quote(text: string)
    | List(ordered: bool, items: seq<string>)
    | Paragraph(text: string)
    | Nothing // a skipped blank line

  /** What is pushed for a block: its texts lexed. */
  datatype Node =
    | PreNode(lang: string, code: string)
    | RuleNode
    | HeadingNode(level: nat, title: Spans)
    | TableNode(head: seq<Spans>, rows: seq<seq<Spans>>)
    | QuoteNode(text: Spans)
    | ListNode(ordered: bool, items: seq<Spans>)
    | ParagraphNode(text: Spans)

  /** A block and the lines [from, to) it consumes. */
  datatype Piece = Piece(block: Block, from: nat, to: nat)

  datatype Kind = KFence | KRule | KHeading | KTable | KQuote | KList | KBlank | KParagraph

  predicate TableStarts(lines: seq<string>, i: nat)
    requires i < |lines|
  {
    HasBar(lines[i]) && i + 1 < |lines| && IsRuling(lines[i + 1])
  }

  /** The first test of the loop that line i passes. */
  function KindAt(lines: seq<string>, i: nat): Kind
    requires i < |lines|
  {
    if IsFence(lines[i]) then KFence
    else if IsRule(lines[i]) then KRule
    else if IsHeading(lines[i]) then KHeading
    else if TableStarts(lines, i) then KTable
    else if IsQuote(lines[i]) then KQuote
    else if IsItem(lines[i]) then KList
    else if Blank(lines[i]) then KBlank
    else KParagraph
  }

  predicate NoFence(line: string)
  {
    !IsFence(line)
  }

  /** A line that goes on with the paragraph above it. */
  predicate Continues(line: string)
  {
    && !Blank(line) && !StartsWith(line, "#") && !IsFence(line)
    && !StartsWith(line, ">") && !IsItem(line) && !IsRule(line)
  }

  /** [from, to) is the longest run of lines from `from` that satisfy `p`. */
  ghost predicate Run(lines: seq<string>, from: int, to: int, p: string -> bool)
  {
    && 0 <= from <= to <= |lines|
    && (forall k :: from <= k < to ==> p(lines[k]))
    && (to < |lines| ==> !p(lines[to]))
  }

  // --- Cells and texts ------------------------------------------------------------------------

  function DropFirstBar(s: string): string
  {
    if 0 < |s| && s[0] == '|' then s[1..] else s
  }

  function DropLastBar(s: string): string
  {
    if 0 < |s| && s[|s| - 1] == '|' then s[..|s| - 1] else s
  }

  function TrimAll(parts: seq<string>): (r: seq<string>)
    ensures |r| == |parts|
  {
    if |parts| == 0 then [] else TrimAll(parts[..|parts| - 1]) + [Trim(parts[|parts| - 1])]
  }

  /** `parseRow`. */
  function Cells(line: string): (cells: seq<string>)
    ensures 0 < |cells|
  {
    TrimAll(Split(DropLastBar(DropFirstBar(Trim(line))), '|'))
  }

  /** What `f` takes from each of the lines [from, to). */
  function Texts<T>(lines: seq<string>, from: nat, to: nat, f: string -> T): (r: seq<T>)
    requires from <= to <= |lines|
    ensures |r| == to - from
  {
    if from == to then [] else Texts(lines, from, to - 1, f) + [f(lines[to - 1])]
  }

  // --- What each piece is ------------------------------------------------------------------------

  /** `line.slice(3).trim()` of an opening fence. */
  function FenceLang(line: string): string
  {
    if IsFence(line) then Trim(line[3..]) else ""
  }

  /** An opening fence takes the lines up to the next fence, and that fence too when there is one. */
  ghost predicate FenceFits(lines: seq<string>, p: Piece, e: int)
    requires p.from < |lines|
  {
    && Run(lines, p.from + 1, e, NoFence)
    && p.to == (if e < |lines| then e + 1 else e)
    && p.block == Fence(FenceLang(lines[p.from]), Join(lines[p.from + 1..e], "\n"))
  }

  /** The head is the first line; the second line only rules. */
  ghost predicate TableFits(lines: seq<string>, p: Piece, cells: string -> seq<string>)
  {
    && p.from + 2 <= p.to && Run(lines, p.from + 2, p.to, HasBar)
    && p.block.Table? && p.block.head == cells(lines[p.from]) && p.block.rows == Texts(lines, p.from + 2, p.to, cells)
  }

  ghost predicate QuoteFits(lines: seq<string>, p: Piece, text: string -> string)
  {
    Run(lines, p.from, p.to, IsQuote) && p.block == Quote(Join(Texts(lines, p.from, p.to, text), " "))
  }

  ghost predicate ListFits(lines: seq<string>, p: Piece, item: string -> bool, numbered: string -> bool,
                           text: string -> string)
  {
    && p.from < p.to && Run(lines, p.from, p.to, item)
    && p.block.List? && p.block.ordered == numbered(lines[p.from]) && p.block.items == Texts(lines, p.from, p.to, text)
  }

  ghost predicate ParagraphFits(lines: seq<string>, p: Piece)
  {
    Run(lines, p.from + 1, p.to, Continues) && p.block == Paragraph(Join(lines[p.from..p.to], " "))
  }

  /** Piece p is what its first line and the lines after it call for. */
  ghost predicate Fits(lines: seq<string>, p: Piece)
  {
    && p.from < p.to <= |lines|
    && match KindAt(lines, p.from)
       case KFence => exists e :: FenceFits(lines, p, e)
       case KRule => p.block == Rule && p.to == p.from + 1
       case KHeading => p.block == Heading(HeadingLevel(lines[p.from]), lines[p.from][HeadingStart(lines[p.from])..])
         && p.to == p.from + 1
       case KTable => TableFits(lines, p, Cells)
       case KQuote => QuoteFits(lines, p, Unquote)
       case KList => ListFits(lines, p, IsItem, IsNumbered, ItemText)
       case KBlank => p.block == Nothing && p.to == p.from + 1
       case KParagraph => ParagraphFits(lines, p)
  }

  /** Where piece k has to begin. */
  function StartOf(ps: seq<Piece>, k: nat): nat
    requires k <= |ps|
  {
    if k == 0 then 0 else ps[k - 1].to
  }

  /** Contiguous pieces, in order from the first line, that all satisfy `fits`. */
  ghost predicate Chain(ps: seq<Piece>, fits: Piece -> bool)
  {
    var n := |ps| - 1;
    0 <= n ==> Chain(ps[..n], fits) && ps[n].from == StartOf(ps, n) && fits(ps[n])
  }

  ghost function FitsIn(lines: seq<string>): Piece -> bool
  {
    p => Fits(lines, p)
  }

  ghost predicate Partial(lines: seq<string>, ps: seq<Piece>)
  {
    Chain(ps, FitsIn(lines))
  }

  /** The pieces are all of the lines, each what its lines call for. */
  ghost predicate Document(lines: seq<string>, ps: seq<Piece>)
  {
    Partial(lines, ps) && StartOf(ps, |ps|) == |lines|
  }

  /** The nodes pushed: every block but the skipped blank lines. */
  function Nodes(ps: seq<Piece>): seq<Block>
  {
    if |ps| == 0 then []
    else if ps[|ps| - 1].block.Nothing? then Nodes(ps[..|ps| - 1])
    else Nodes(ps[..|ps| - 1]) + [ps[|ps| - 1].block]
  }

  // --- The loops ---------------------------------------------------------------------------------

  /** The fenced lines from i on, and the line that stopped them. */
  method ReadFenced(lines: seq<string>, from: nat) returns (buf: seq<string>, i: nat)
    requires from <= |lines|
    ensures Run(lines, from, i, NoFence) && buf == lines[from..i]
  {
    buf, i := [], from;
    while i < |lines| && !IsFence(lines[i])
      invariant from <= i <= |lines| && buf == lines[from..i]
      invariant forall k :: from <= k < i ==> NoFence(lines[k])
    {
      buf := buf + [lines[i]];
      i := i + 1;
    }
  }

  method ReadFence(lines: seq<string>, start: nat) returns (b: Block, i: nat)
    requires start < |lines| && KindAt(lines, start) == KFence
    ensures start < i <= |lines| + 1 && Fits(lines, Piece(b, start, if i <= |lines| then i else |lines|))
  {
    var lang := FenceLang(lines[start]);
    var buf;
    buf, i := ReadFenced(lines, start + 1);
    b := Fence(lang, Join(buf, "\n"));
    FenceIsFit(lines, Piece(b, start, if i < |lines| then i + 1 else i), i);
    i := i + 1;
  }

  lemma {:induction false} FenceIsFit(lines: seq<string>, p: Piece, e: nat)
    requires p.from < |lines| && KindAt(lines, p.from) == KFence && FenceFits(lines, p, e)
    ensures Fits(lines, p)
  {
  }

  /** The rows of a table, with whatever `parse` makes of a line. */
  method ReadRows(lines: seq<string>, from: nat, parse: string -> seq<string>) returns (rows: seq<seq<string>>, i: nat)
    requires from <= |lines|
    ensures Run(lines, from, i, HasBar) && rows == Texts(lines, from, i, parse)
  {
    rows, i := [], from;
    while i < |lines| && HasBar(lines[i])
      invariant from <= i <= |lines| && rows == Texts(lines, from, i, parse)
      invariant forall k :: from <= k < i ==> HasBar(lines[k])
    {
      rows := rows + [parse(lines[i])];
      i := i + 1;
    }
  }

  lemma {:induction false} IsTable(lines: seq<string>, p: Piece, cells: string -> seq<string>, head: seq<string>,
                                   rows: seq<seq<string>>)
    requires p.from + 2 <= p.to && Run(lines, p.from + 2, p.to, HasBar)
    requires head == cells(lines[p.from]) && rows == Texts(lines, p.from + 2, p.to, cells)
    requires p.block == Table(head, rows)
    ensures TableFits(lines, p, cells)
  {
  }

  lemma {:induction false} TableIsFit(lines: seq<string>, p: Piece)
    requires p.from < |lines| && KindAt(lines, p.from) == KTable && TableFits(lines, p, Cells)
    ensures Fits(lines, p)
  {
  }

  method ReadGrid(lines: seq<string>, start: nat, parse: string -> seq<string>) returns (b: Block, i: nat)
    requires start + 2 <= |lines|
    ensures start + 2 <= i <= |lines| && TableFits(lines, Piece(b, start, i), parse)
  {
    var head := parse(lines[start]);
    var rows;
    rows, i := ReadRows(lines, start + 2, parse);
    b := Table(head, rows);
    IsTable(lines, Piece(b, start, i), parse, head, rows);
  }

  method ReadTable(lines: seq<string>, start: nat) returns (b: Block, i: nat)
    requires start < |lines| && KindAt(lines, start) == KTable
    ensures start < i <= |lines| && Fits(lines, Piece(b, start, i))
  {
    b, i := ReadGrid(lines, start, Cells);
    TableIsFit(lines, Piece(b, start, i));
  }

  method ReadQuoted(lines: seq<string>, start: nat) returns (buf: seq<string>, i: nat)
    requires start <= |lines|
    ensures Run(lines, start, i, IsQuote) && buf == Texts(lines, start, i, Unquote)
  {
    buf, i := [], start;
    while i < |lines| && IsQuote(lines[i])
      invariant start <= i <= |lines| && buf == Texts(lines, start, i, Unquote)
      invariant forall k :: start <= k < i ==> IsQuote(lines[k])
    {
      buf := buf + [Unquote(lines[i])];
      i := i + 1;
    }
  }

  method ReadQuote(lines: seq<string>, start: nat) returns (b: Block, i: nat)
    requires start < |lines| && KindAt(lines, start) == KQuote
    ensures start < i <= |lines| && Fits(lines, Piece(b, start, i))
  {
    var buf;
    buf, i := ReadQuoted(lines, start);
    b := Quote(Join(buf, " "));
  }

  method ReadItems(lines: seq<string>, start: nat) returns (items: seq<string>, i: nat)
    requires start <= |lines|
    ensures Run(lines, start, i, IsItem) && items == Texts(lines, start, i, ItemText)
  {
    items, i := [], start;
    while i < |lines| && IsItem(lines[i])
      invariant start <= i <= |lines| && items == Texts(lines, start, i, ItemText)
      invariant forall k :: start <= k < i ==> IsItem(lines[k])
    {
      items := items + [ItemText(lines[i])];
      i := i + 1;
    }
  }

  method ReadList(lines: seq<string>, start: nat) returns (b: Block, i: nat)
    requires start < |lines| && KindAt(lines, start) == KList
    ensures start < i <= |lines| && Fits(lines, Piece(b, start, i))
  {
    var ordered := IsNumbered(lines[start]);
    var items;
    items, i := ReadItems(lines, start);
    b := List(ordered, items);
  }

  method ReadContinued(lines: seq<string>, start: nat) returns (buf: seq<string>, i: nat)
    requires start < |lines|
    ensures Run(lines, start + 1, i, Continues) && buf == lines[start..i]
  {
    buf, i := [lines[start]], start + 1;
    while i < |lines| && Continues(lines[i])
      invariant start < i <= |lines| && buf == lines[start..i]
      invariant forall k :: start < k < i ==> Continues(lines[k])
    {
      buf := buf + [lines[i]];
      i := i + 1;
    }
  }

  method ReadParagraph(lines: seq<string>, start: nat) returns (b: Block, i: nat)
    requires start < |lines| && KindAt(lines, start) == KParagraph
    ensures start < i <= |lines| && Fits(lines, Piece(b, start, i))
  {
    var buf;
    buf, i := ReadContinued(lines, start);
    b := Paragraph(Join(buf, " "));
  }

  /** One turn of the outer loop: the block at `start` and the line to go on from, one past the end
      after an unclosed fence. */
  method ReadBlock(lines: seq<string>, start: nat) returns (b: Block, i: nat)
    requires start < |lines|
    ensures start < i <= |lines| + 1
    ensures Fits(lines, Piece(b, start, if i <= |lines| then i else |lines|))
  {
    if IsFence(lines[start]) {
      b, i := ReadFence(lines, start);
    } else if IsRule(lines[start]) {
      b, i := Rule, start + 1;
    } else if IsHeading(lines[start]) {
      b, i := Heading(HeadingLevel(lines[start]), lines[start][HeadingStart(lines[start])..]), start + 1;
    } else if TableStarts(lines, start) {
      b, i := ReadTable(lines, start);
    } else if IsQuote(lines[start]) {
      b, i := ReadQuote(lines, start);
    } else if IsItem(lines[start]) {
      b, i := ReadList(lines, start);
    } else if Blank(lines[start]) {
      b, i := Nothing, start + 1;
    } else {
      b, i := ReadParagraph(lines, start);
    }
  }

  lemma {:induction false} ChainGrows(ps: seq<Piece>, p: Piece, fits: Piece -> bool)
    requires Chain(ps, fits) && p.from == StartOf(ps, |ps|) && fits(p)
    ensures Chain(ps + [p], fits)
  {
    assert (ps + [p])[..|ps|] == ps;
  }

  // --- The nodes ------------------------------------------------------------------------------------

  ghost predicate LexedEach(texts: seq<string>, spans: seq<Spans>)
  {
    var n := |texts|;
    |spans| == n && (0 < n ==> LexedEach(texts[..n - 1], spans[..n - 1]) && Lexed(texts[n - 1], spans[n - 1]))
  }

  ghost predicate LexedRows(texts: seq<seq<string>>, rows: seq<seq<Spans>>)
  {
    var n := |texts|;
    |rows| == n && (0 < n ==> LexedRows(texts[..n - 1], rows[..n - 1]) && LexedEach(texts[n - 1], rows[n - 1]))
  }

  /** The node of a block: the same block with every text lexed. */
  ghost predicate NodeOf(b: Block, n: Node)
  {
    match b
    case Fence(lang, code) => n == PreNode(lang, code)
    case Rule => n == RuleNode
    case Heading(level, title) => n.HeadingNode? && n.level == level && Lexed(title, n.title)
    case Table(head, rows) => n.TableNode? && LexedEach(head, n.head) && LexedRows(rows, n.rows)
    case Quote(text) => n.QuoteNode? && Lexed(text, n.text)
    case List(ordered, items) => n.ListNode? && n.ordered == ordered && LexedEach(items, n.items)
    case Paragraph(text) => n.ParagraphNode? && Lexed(text, n.text)
    case Nothing => false
  }

  ghost predicate NodesOf(bs: seq<Block>, ns: seq<Node>)
  {
    var n := |bs|;
    |ns| == n && (0 < n ==> NodesOf(bs[..n - 1], ns[..n - 1]) && NodeOf(bs[n - 1], ns[n - 1]))
  }

  method LexEach(texts: seq<string>) returns (spans: seq<Spans>)
    ensures LexedEach(texts, spans)
  {
    spans := [];
    var k := 0;
    while k < |texts|
      invariant 0 <= k <= |texts| && LexedEach(texts[..k], spans)
    {
      var s := Lex(texts[k]);
      assert texts[..k + 1][..k] == texts[..k] && (spans + [s])[..k] == spans;
      spans := spans + [s];
      k := k + 1;
    }
    assert texts[..k] == texts;
  }

  lemma {:induction false} RowsGrow(texts: seq<seq<string>>, rows: seq<seq<Spans>>, k: nat, row: seq<Spans>)
    requires k < |texts| && LexedRows(texts[..k], rows) && LexedEach(texts[k], row)
    ensures LexedRows(texts[..k + 1], rows + [row])
  {
    var t, r := texts[..k + 1], rows + [row];
    assert t[..k] == texts[..k] && r[..k] == rows && t[k] == texts[k] && r[k] == row;
    assert LexedRows(t[..k], r[..k]);
  }

  method LexRows(texts: seq<seq<string>>) returns (rows: seq<seq<Spans>>)
    ensures LexedRows(texts, rows)
  {
    rows := [];
    var k := 0;
    while k < |texts|
      invariant 0 <= k <= |texts| && LexedRows(texts[..k], rows)
    {
      var row := LexEach(texts[k]);
      RowsGrow(texts, rows, k, row);
      rows := rows + [row];
      k := k + 1;
    }
    assert texts[..k] == texts;
  }

  method MakeNode(b: Block) returns (n: Node)
    requires !b.Nothing?
    ensures NodeOf(b, n)
  {
    match b
    case Fence(lang, code) => n := PreNode(lang, code);
    case Rule => n := RuleNode;
    case Heading(level, title) =>
      var s := Lex(title);
      n := HeadingNode(level, s);
    case Table(head, rows) =>
      var header := LexEach(head);
      var body := LexRows(rows);
      n := TableNode(header, body);
    case Quote(text) =>
      var s := Lex(text);
      n := QuoteNode(s);
    case List(ordered, items) =>
      var inner := LexEach(items);
      n := ListNode(ordered, inner);
    case Paragraph(text) =>
      var s := Lex(text);
      n := ParagraphNode(s);
  }

  lemma {:induction false} NodesGrow(bs: seq<Block>, ns: seq<Node>, b: Block, n: Node)
    requires NodesOf(bs, ns) && NodeOf(b, n)
    ensures NodesOf(bs + [b], ns + [n])
  {
    assert (bs + [b])[..|bs|] == bs && (ns + [n])[..|ns|] == ns;
  }

  /** `Markdown`: the nodes of all the blocks of the document, in order. */
  method MakeDocument(source: string) returns (nodes: seq<Node>)
    ensures exists ps :: Document(LinesOf(source), ps) && NodesOf(Nodes(ps), nodes)
  {
    var lines := LinesOf(source);
    nodes := [];
    ghost var ps: seq<Piece> := [];
    var i := 0;
    while i < |lines|
      invariant 0 <= i <= |lines| + 1 && StartOf(ps, |ps|) == (if i <= |lines| then i else |lines|)
      invariant Partial(lines, ps) && NodesOf(Nodes(ps), nodes)
      decreases |lines| + 1 - i
    {
      var b, j := ReadBlock(lines, i);
      ghost var p := Piece(b, i, if j <= |lines| then j else |lines|);
      ChainGrows(ps, p, FitsIn(lines));
      assert (ps + [p])[..|ps|] == ps;
      if !b.Nothing? {
        var n := MakeNode(b);
        NodesGrow(Nodes(ps), nodes, b, n);
        nodes := nodes + [n];
      }
      ps := ps + [p];
      i := j;
    }
    assert Document(lines, ps);
  }
}
