/** A blank line separates: when what stands before it and what stands after it are read independently. */
module Separation {
  import opened Lines
  import opened Markdown
  import opened Documents

  /** No fence left open. */
  predicate Closed(lines: seq<string>, p: Piece)
  {
    p.block.Fence? ==> p.from + 1 < p.to <= |lines| && IsFence(lines[p.to - 1])
  }

  predicate AllClosed(lines: seq<string>, ps: seq<Piece>)
  {
    forall k :: 0 <= k < |ps| ==> Closed(lines, ps[k])
  }

  /** A piece of one line with a bar, in which a white-space line below would be read as the second line of
      a table: the last line of `a`, unless a test before the table's catches it. */
  predicate Bare(a: seq<string>, p: Piece)
  {
    && p.from + 1 == |a| && HasBar(a[p.from])
    && (KindAt(a, p.from).KQuote? || KindAt(a, p.from).KList? || KindAt(a, p.from).KParagraph?)
  }

  predicate NoneBare(a: seq<string>, ps: seq<Piece>)
  {
    forall k :: 0 <= k < |ps| ==> !Bare(a, ps[k])
  }

  /** `c` begins with the lines of `a` and then `w`. */
  predicate Parts(a: seq<string>, w: string, c: seq<string>)
  {
    |a| < |c| && c[|a|] == w && forall i :: 0 <= i < |a| ==> c[i] == a[i]
  }

  /** A blank line ends every run but a fence's, and only an empty one is no ruling. */
  lemma {:induction false} BlankStops(w: string)
    requires Blank(w)
    ensures !HasBar(w) && !IsQuote(w) && !IsItem(w) && !Continues(w) && !IsFence(w) && !IsRule(w) && !IsHeading(w)
    ensures IsRuling(w) <==> w != ""
  {
    BlankIsAllSpace(w);
    GreedyIs(w, 0, |w|, Space);
    GreedyIs(w, 0, 0, Dash);
    GreedyIs(w, 0, 0, Hash);
    GreedyIs(w, 0, |w|, Ruling);
  }

  // --- The lines before -------------------------------------------------------------------

  lemma {:induction false} RunLeft(a: seq<string>, w: string, c: seq<string>, from: int, to: int, p: string -> bool)
    requires Parts(a, w, c) && Run(a, from, to, p) && !p(w)
    ensures Run(c, from, to, p)
  {
  }

  /** Only the kind of a bare last line changes, and only over a line of white space. */
  lemma {:induction false} KindLeft(a: seq<string>, w: string, c: seq<string>, p: Piece)
    requires Parts(a, w, c) && Blank(w) && p.from < |a|
    ensures KindAt(c, p.from) == if w != "" && Bare(a, p) then KTable else KindAt(a, p.from)
  {
    BlankStops(w);
    if Blank(a[p.from]) { BlankStops(a[p.from]); }
  }

  lemma {:induction false} TextsLeft<T>(a: seq<string>, w: string, c: seq<string>, from: nat, to: nat, f: string -> T)
    requires Parts(a, w, c) && from <= to <= |a|
    ensures Texts(c, from, to, f) == Texts(a, from, to, f)
  {
    if from < to {
      TextsLeft(a, w, c, from, to - 1, f);
    }
  }

  lemma {:induction false} SliceLeft(a: seq<string>, w: string, c: seq<string>, from: nat, to: nat)
    requires Parts(a, w, c) && from <= to <= |a|
    ensures c[from..to] == a[from..to]
  {
  }

  lemma {:induction false} LastIsFenced(a: seq<string>, p: Piece, e: nat)
    requires p.from < |a| && FenceFits(a, p, e)
    ensures Closed(a, p) ==> e < |a|
  {
    if e == |a| && p.from + 1 < e { assert NoFence(a[e - 1]); }
  }

  lemma {:induction false} FenceLeft(a: seq<string>, w: string, c: seq<string>, p: Piece, e: nat)
    requires Parts(a, w, c) && p.from < |a| && FenceFits(a, p, e) && Closed(a, p)
    ensures FenceFits(c, p, e)
  {
    LastIsFenced(a, p, e);
    SliceLeft(a, w, c, p.from + 1, e);
  }

  lemma {:induction false} TableLeft(a: seq<string>, w: string, c: seq<string>, p: Piece, cells: string -> seq<string>)
    requires Parts(a, w, c) && !HasBar(w) && TableFits(a, p, cells)
    ensures TableFits(c, p, cells)
  {
    RunLeft(a, w, c, p.from + 2, p.to, HasBar);
    TextsLeft(a, w, c, p.from + 2, p.to, cells);
  }

  lemma {:induction false} QuoteLeft(a: seq<string>, w: string, c: seq<string>, p: Piece, text: string -> string)
    requires Parts(a, w, c) && !IsQuote(w) && QuoteFits(a, p, text)
    ensures QuoteFits(c, p, text)
  {
    RunLeft(a, w, c, p.from, p.to, IsQuote);
    TextsLeft(a, w, c, p.from, p.to, text);
  }

  lemma {:induction false} ListLeft(a: seq<string>, w: string, c: seq<string>, p: Piece,
                  item: string -> bool, numbered: string -> bool, text: string -> string)
    requires Parts(a, w, c) && !item(w) && ListFits(a, p, item, numbered, text)
    ensures ListFits(c, p, item, numbered, text)
  {
    RunLeft(a, w, c, p.from, p.to, item);
    TextsLeft(a, w, c, p.from, p.to, text);
  }

  lemma {:induction false} ParagraphLeft(a: seq<string>, w: string, c: seq<string>, p: Piece)
    requires Parts(a, w, c) && !Continues(w) && p.from < p.to && ParagraphFits(a, p)
    ensures ParagraphFits(c, p)
  {
    RunLeft(a, w, c, p.from + 1, p.to, Continues);
    SliceLeft(a, w, c, p.from, p.to);
  }

  lemma {:induction false} FitsLeft(a: seq<string>, w: string, c: seq<string>, p: Piece)
    requires Parts(a, w, c) && Blank(w) && Fits(a, p) && Closed(a, p) && (w != "" ==> !Bare(a, p))
    ensures Fits(c, p)
  {
    KindLeft(a, w, c, p);
    BlankStops(w);
    match KindAt(a, p.from)
    case KFence =>
      var e: nat :| FenceFits(a, p, e);
      FenceLeft(a, w, c, p, e);
    case KTable => TableLeft(a, w, c, p, Cells);
    case KQuote => QuoteLeft(a, w, c, p, Unquote);
    case KList => ListLeft(a, w, c, p, IsItem, IsNumbered, ItemText);
    case KParagraph => ParagraphLeft(a, w, c, p);
    case _ =>
  }

  lemma {:induction false} FenceStaysClosed(a: seq<string>, w: string, c: seq<string>, p: Piece, d: nat, e: nat)
    requires Parts(a, w, c) && !IsFence(w) && p.from < p.to <= |a| && FenceFits(a, p, d) && FenceFits(c, p, e)
    ensures Closed(a, p)
  {
    assert d < |a| ==> !NoFence(a[d]);
    assert e < |c| ==> !NoFence(c[e]);
  }

  /** A piece that is right with and without the lines that follow is closed and not bare. */
  lemma {:induction false} StaysApart(a: seq<string>, w: string, c: seq<string>, p: Piece)
    requires Parts(a, w, c) && Blank(w) && Fits(a, p) && Fits(c, p)
    ensures Closed(a, p) && (w != "" ==> !Bare(a, p))
  {
    KindLeft(a, w, c, p);
    BlankStops(w);
    FenceKind(a, p);
    FenceKind(c, p);
    if p.block.Fence? {
      var d: nat :| FenceFits(a, p, d);
      var e: nat :| FenceFits(c, p, e);
      FenceStaysClosed(a, w, c, p, d, e);
    }
  }

  // --- The lines after ----------------------------------------------------------------------

  predicate Tail(b: seq<string>, c: seq<string>, d: nat)
  {
    |c| == d + |b| && forall i :: d <= i < |c| ==> c[i] == b[i - d]
  }

  function Moved(p: Piece, d: nat): Piece
  {
    Piece(p.block, p.from + d, p.to + d)
  }

  lemma {:induction false} RunRight(b: seq<string>, c: seq<string>, d: nat, from: int, to: int, p: string -> bool)
    requires Tail(b, c, d) && Run(b, from, to, p)
    ensures Run(c, from + d, to + d, p)
  {
    assert to < |b| ==> c[to + d] == b[to];
  }

  lemma {:induction false} KindRight(b: seq<string>, c: seq<string>, d: nat, i: nat)
    requires Tail(b, c, d) && i < |b|
    ensures KindAt(c, i + d) == KindAt(b, i)
  {
    assert c[i + d] == b[i];
    assert i + 1 < |b| ==> c[i + d + 1] == b[i + 1];
  }

  lemma {:induction false} TextsRight<T>(b: seq<string>, c: seq<string>, d: nat, from: nat, to: nat, f: string -> T)
    requires Tail(b, c, d) && from <= to <= |b|
    ensures Texts(c, from + d, to + d, f) == Texts(b, from, to, f)
  {
    if from < to {
      TextsRight(b, c, d, from, to - 1, f);
      assert c[to - 1 + d] == b[to - 1];
    }
  }

  lemma {:induction false} SliceRight(b: seq<string>, c: seq<string>, d: nat, from: nat, to: nat)
    requires Tail(b, c, d) && from <= to <= |b|
    ensures c[from + d..to + d] == b[from..to]
  {
  }

  lemma {:induction false} FenceRight(b: seq<string>, c: seq<string>, d: nat, p: Piece, e: nat)
    requires Tail(b, c, d) && p.from < |b| && FenceFits(b, p, e)
    ensures FenceFits(c, Moved(p, d), e + d)
  {
    assert c[p.from + d] == b[p.from];
    RunRight(b, c, d, p.from + 1, e, NoFence);
    SliceRight(b, c, d, p.from + 1, e);
  }

  lemma {:induction false} TableRight(b: seq<string>, c: seq<string>, d: nat, p: Piece, cells: string -> seq<string>)
    requires Tail(b, c, d) && TableFits(b, p, cells)
    ensures TableFits(c, Moved(p, d), cells)
  {
    assert c[p.from + d] == b[p.from];
    RunRight(b, c, d, p.from + 2, p.to, HasBar);
    TextsRight(b, c, d, p.from + 2, p.to, cells);
  }

  lemma {:induction false} QuoteRight(b: seq<string>, c: seq<string>, d: nat, p: Piece, text: string -> string)
    requires Tail(b, c, d) && QuoteFits(b, p, text)
    ensures QuoteFits(c, Moved(p, d), text)
  {
    RunRight(b, c, d, p.from, p.to, IsQuote);
    TextsRight(b, c, d, p.from, p.to, text);
  }

  lemma {:induction false} ListRight(b: seq<string>, c: seq<string>, d: nat, p: Piece,
                  item: string -> bool, numbered: string -> bool, text: string -> string)
    requires Tail(b, c, d) && ListFits(b, p, item, numbered, text)
    ensures ListFits(c, Moved(p, d), item, numbered, text)
  {
    assert c[p.from + d] == b[p.from];
    RunRight(b, c, d, p.from, p.to, item);
    TextsRight(b, c, d, p.from, p.to, text);
  }

  lemma {:induction false} ParagraphRight(b: seq<string>, c: seq<string>, d: nat, p: Piece)
    requires Tail(b, c, d) && p.from < p.to && ParagraphFits(b, p)
    ensures ParagraphFits(c, Moved(p, d))
  {
    RunRight(b, c, d, p.from + 1, p.to, Continues);
    SliceRight(b, c, d, p.from, p.to);
  }

  lemma {:induction false} FitsRight(b: seq<string>, c: seq<string>, d: nat, p: Piece)
    requires Tail(b, c, d) && Fits(b, p)
    ensures Fits(c, Moved(p, d))
  {
    KindRight(b, c, d, p.from);
    assert c[p.from + d] == b[p.from];
    match KindAt(b, p.from)
    case KFence =>
      var e: nat :| FenceFits(b, p, e);
      FenceRight(b, c, d, p, e);
    case KTable => TableRight(b, c, d, p, Cells);
    case KQuote => QuoteRight(b, c, d, p, Unquote);
    case KList => ListRight(b, c, d, p, IsItem, IsNumbered, ItemText);
    case KParagraph => ParagraphRight(b, c, d, p);
    case _ =>
  }

  // --- Together -------------------------------------------------------------------------------

  lemma {:induction false} AllLeft(ps: seq<Piece>, f: Piece -> bool, g: Piece -> bool)
    requires Chain(ps, f) && forall k :: 0 <= k < |ps| ==> f(ps[k]) ==> g(ps[k])
    ensures Chain(ps, g)
  {
    if 0 < |ps| { AllLeft(ps[..|ps| - 1], f, g); }
  }

  function AllMoved(ps: seq<Piece>, d: nat): (r: seq<Piece>)
    ensures |r| == |ps|
  {
    if |ps| == 0 then [] else AllMoved(ps[..|ps| - 1], d) + [Moved(ps[|ps| - 1], d)]
  }

  /** A chain, then another moved behind it. */
  lemma {:induction false} AllRight(before: seq<Piece>, qs: seq<Piece>, d: nat, f: Piece -> bool, g: Piece -> bool)
    requires Chain(before, g) && StartOf(before, |before|) == d && Chain(qs, f)
    requires forall q :: f(q) ==> g(Moved(q, d))
    ensures Chain(before + AllMoved(qs, d), g)
    ensures StartOf(before + AllMoved(qs, d), |before| + |qs|) == StartOf(qs, |qs|) + d
  {
    var n := |qs| - 1;
    if n < 0 {
      assert before + AllMoved(qs, d) == before;
    } else {
      AllRight(before, qs[..n], d, f, g);
      assert StartOf(qs[..n], n) == StartOf(qs, n);
      assert before + AllMoved(qs, d) == (before + AllMoved(qs[..n], d)) + [Moved(qs[n], d)];
      ChainGrows(before + AllMoved(qs[..n], d), Moved(qs[n], d), g);
    }
  }

  lemma {:induction false} DocumentLeft(a: seq<string>, w: string, c: seq<string>, ps: seq<Piece>)
    requires Parts(a, w, c) && Blank(w) && Partial(a, ps) && AllClosed(a, ps) && (w == "" || NoneBare(a, ps))
    ensures Partial(c, ps)
  {
    forall k | 0 <= k < |ps| && Fits(a, ps[k]) ensures Fits(c, ps[k]) {
      FitsLeft(a, w, c, ps[k]);
    }
    AllLeft(ps, FitsIn(a), FitsIn(c));
  }

  lemma {:induction false} AllFitRight(b: seq<string>, c: seq<string>, d: nat)
    requires Tail(b, c, d)
    ensures forall q :: FitsIn(b)(q) ==> FitsIn(c)(Moved(q, d))
  {
    forall q | Fits(b, q) ensures Fits(c, Moved(q, d)) {
      FitsRight(b, c, d, q);
    }
  }

  lemma {:induction false} DocumentRight(b: seq<string>, c: seq<string>, d: nat, before: seq<Piece>, qs: seq<Piece>)
    requires Tail(b, c, d) && Partial(c, before) && StartOf(before, |before|) == d && Partial(b, qs)
    ensures Partial(c, before + AllMoved(qs, d))
    ensures StartOf(before + AllMoved(qs, d), |before| + |qs|) == StartOf(qs, |qs|) + d
  {
    AllFitRight(b, c, d);
    AllRight(before, qs, d, FitsIn(b), FitsIn(c));
  }

  lemma {:induction false} GapFits(a: seq<string>, w: string, c: seq<string>)
    requires Parts(a, w, c) && Blank(w)
    ensures Fits(c, Piece(Nothing, |a|, |a| + 1))
  {
    BlankStops(w);
  }

  lemma {:induction false} DocumentGap(a: seq<string>, w: string, c: seq<string>, ps: seq<Piece>)
    requires Parts(a, w, c) && Blank(w) && Partial(c, ps) && StartOf(ps, |ps|) == |a|
    ensures Partial(c, ps + [Piece(Nothing, |a|, |a| + 1)])
    ensures StartOf(ps + [Piece(Nothing, |a|, |a| + 1)], |ps| + 1) == |a| + 1
  {
    GapFits(a, w, c);
    ChainGrows(ps, Piece(Nothing, |a|, |a| + 1), FitsIn(c));
  }

  lemma {:induction false} DocumentAround(a: seq<string>, w: string, b: seq<string>, c: seq<string>,
                                          ps: seq<Piece>, qs: seq<Piece>, before: seq<Piece>)
    requires Parts(a, w, c) && Blank(w) && Tail(b, c, |a| + 1) && before == ps + [Piece(Nothing, |a|, |a| + 1)]
    requires Partial(a, ps) && StartOf(ps, |ps|) == |a| && Partial(b, qs) && StartOf(qs, |qs|) == |b|
    requires AllClosed(a, ps) && (w == "" || NoneBare(a, ps))
    ensures Document(c, before + AllMoved(qs, |a| + 1))
  {
    DocumentLeft(a, w, c, ps);
    DocumentGap(a, w, c, ps);
    DocumentRight(b, c, |a| + 1, before, qs);
  }

  lemma {:induction false} DocumentApart(a: seq<string>, w: string, c: seq<string>, ps: seq<Piece>, whole: seq<Piece>)
    requires Parts(a, w, c) && Blank(w) && Partial(a, ps) && Partial(c, whole) && ps <= whole
    ensures AllClosed(a, ps) && (w == "" || NoneBare(a, ps))
  {
    forall k | 0 <= k < |ps| ensures Closed(a, ps[k]) && (w != "" ==> !Bare(a, ps[k])) {
      PieceAt(ps, k, FitsIn(a));
      PieceAt(whole, k, FitsIn(c));
      StaysApart(a, w, c, ps[k]);
    }
  }

  lemma {:induction false} Whole(a: seq<string>, w: string, b: seq<string>)
    ensures Parts(a, w, a + [w] + b) && Tail(b, a + [w] + b, |a| + 1)
  {
  }

  /** The document of the lines before, the skipped line, and the document of the lines after. */
  function Joined(a: seq<string>, ps: seq<Piece>, qs: seq<Piece>): seq<Piece>
  {
    ps + [Piece(Nothing, |a|, |a| + 1)] + AllMoved(qs, |a| + 1)
  }

  /** A blank line `w` splits a document in two exactly when no fence before it is left open and, unless
      the line is empty, the last line before it is no bare line with a bar, which would open a table. */
  lemma {:induction false} BlankLineSeparates(a: seq<string>, w: string, b: seq<string>, ps: seq<Piece>, qs: seq<Piece>)
    requires Blank(w) && Document(a, ps) && Document(b, qs)
    ensures Document(a + [w] + b, Joined(a, ps, qs)) <==> AllClosed(a, ps) && (w == "" || NoneBare(a, ps))
  {
    Whole(a, w, b);
    if AllClosed(a, ps) && (w == "" || NoneBare(a, ps)) {
      DocumentAround(a, w, b, a + [w] + b, ps, qs, ps + [Piece(Nothing, |a|, |a| + 1)]);
    }
    if Document(a + [w] + b, Joined(a, ps, qs)) {
      DocumentApart(a, w, a + [w] + b, ps, Joined(a, ps, qs));
    }
  }

  lemma {:induction false} EmptyIsBlank()
    ensures Blank("")
  {
  }

  /** An empty line splits a document in two exactly when no fence before it is left open. */
  lemma {:induction false} EmptyLineSeparates(a: seq<string>, b: seq<string>, ps: seq<Piece>, qs: seq<Piece>)
    requires Document(a, ps) && Document(b, qs)
    ensures Document(a + [""] + b, Joined(a, ps, qs)) <==> AllClosed(a, ps)
  {
    EmptyIsBlank();
    BlankLineSeparates(a, "", b, ps, qs);
  }

  lemma {:induction false} BareTable(lines: seq<string>, cells: string -> seq<string>)
    requires |lines| == 2
    ensures TableFits(lines, Piece(Table(cells(lines[0]), []), 0, 2), cells)
  {
  }

  lemma {:induction false} OnePiece(lines: seq<string>, ps: seq<Piece>, p: Piece)
    requires Document(lines, ps) && p.from == 0 && p.to == |lines| && FitsIn(lines)(p)
    ensures ps == [p]
  {
    ChainGrows([], p, FitsIn(lines));
    assert [] + [p] == [p];
    DocumentOnce(lines, ps, [p]);
  }

  /** What a bare line over a line of white space becomes: a table with a head and no rows. */
  lemma {:induction false} WhiteLineRulesATable(line: string, w: string, ps: seq<Piece>)
    requires Blank(w) && w != "" && Bare([line], Piece(Nothing, 0, 1)) && Document([line, w], ps)
    ensures ps == [Piece(Table(Cells(line), []), 0, 2)]
  {
    KindLeft([line], w, [line, w], Piece(Nothing, 0, 1));
    BareTable([line, w], Cells);
    TableIsFit([line, w], Piece(Table(Cells(line), []), 0, 2));
    OnePiece([line, w], ps, Piece(Table(Cells(line), []), 0, 2));
  }
}
