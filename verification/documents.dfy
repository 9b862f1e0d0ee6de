/** What holds of every document the block loop produces. */
module Documents {
  import opened Lines
  import opened Markdown

  // --- One answer --------------------------------------------------------------------------

  lemma {:induction false} SameEnd(lines: seq<string>, from: int, a: int, b: int, p: string -> bool)
    requires Run(lines, from, a, p) && Run(lines, from, b, p)
    ensures a == b
  {
  }

  lemma {:induction false} FenceOnce(lines: seq<string>, p: Piece, q: Piece)
    requires p.from < |lines| && p.from == q.from
    requires (exists d :: FenceFits(lines, p, d)) && (exists e :: FenceFits(lines, q, e))
    ensures p == q
  {
    var d :| FenceFits(lines, p, d);
    var e :| FenceFits(lines, q, e);
    SameEnd(lines, p.from + 1, d, e, NoFence);
  }

  lemma {:induction false} TableOnce(lines: seq<string>, p: Piece, q: Piece, cells: string -> seq<string>)
    requires p.from == q.from && TableFits(lines, p, cells) && TableFits(lines, q, cells)
    ensures p == q
  {
    SameEnd(lines, p.from + 2, p.to, q.to, HasBar);
  }

  lemma {:induction false} QuoteOnce(lines: seq<string>, p: Piece, q: Piece, text: string -> string)
    requires p.from == q.from && QuoteFits(lines, p, text) && QuoteFits(lines, q, text)
    ensures p == q
  {
    SameEnd(lines, p.from, p.to, q.to, IsQuote);
  }

  lemma {:induction false} ListOnce(lines: seq<string>, p: Piece, q: Piece, item: string -> bool,
                                    numbered: string -> bool, text: string -> string)
    requires p.from == q.from && ListFits(lines, p, item, numbered, text) && ListFits(lines, q, item, numbered, text)
    ensures p == q
  {
    SameEnd(lines, p.from, p.to, q.to, item);
  }

  lemma {:induction false} ParagraphOnce(lines: seq<string>, p: Piece, q: Piece)
    requires p.from == q.from && p.from < p.to && q.from < q.to && ParagraphFits(lines, p) && ParagraphFits(lines, q)
    ensures p == q
  {
    SameEnd(lines, p.from + 1, p.to, q.to, Continues);
  }

  /** The lines alone fix the piece that begins at a line. */
  lemma {:induction false} FitsOnce(lines: seq<string>, p: Piece, q: Piece)
    requires Fits(lines, p) && Fits(lines, q) && p.from == q.from
    ensures p == q
  {
    match KindAt(lines, p.from)
    case KFence => FenceOnce(lines, p, q);
    case KTable => TableOnce(lines, p, q, Cells);
    case KQuote => QuoteOnce(lines, p, q, Unquote);
    case KList => ListOnce(lines, p, q, IsItem, IsNumbered, ItemText);
    case KParagraph => ParagraphOnce(lines, p, q);
    case _ =>
  }

  /** Contiguous ranges in order from 0, none empty, within n lines. */
  predicate Tiles(n: nat, ps: seq<Piece>)
  {
    var k := |ps| - 1;
    0 <= k ==> Tiles(n, ps[..k]) && ps[k].from == StartOf(ps, k) && ps[k].from < ps[k].to <= n
  }

  lemma {:induction false} ChainTiles(n: nat, ps: seq<Piece>, fits: Piece -> bool)
    requires Chain(ps, fits) && forall p :: fits(p) ==> p.from < p.to <= n
    ensures Tiles(n, ps)
  {
    if 0 < |ps| { ChainTiles(n, ps[..|ps| - 1], fits); }
  }

  lemma {:induction false} PartialTiles(lines: seq<string>, ps: seq<Piece>)
    requires Partial(lines, ps)
    ensures Tiles(|lines|, ps)
  {
    ChainTiles(|lines|, ps, FitsIn(lines));
  }

  lemma {:induction false} PieceAt(ps: seq<Piece>, k: nat, fits: Piece -> bool)
    requires Chain(ps, fits) && k < |ps|
    ensures Chain(ps[..k], fits) && ps[k].from == StartOf(ps, k) && fits(ps[k])
    decreases |ps|
  {
    var n := |ps| - 1;
    if k < n {
      PieceAt(ps[..n], k, fits);
      assert ps[..n][..k] == ps[..k] && ps[..n][k] == ps[k];
    }
  }

  lemma {:induction false} StartsAgree(ps: seq<Piece>, qs: seq<Piece>, k: nat)
    requires k <= |ps| && k <= |qs| && ps[..k] == qs[..k]
    ensures StartOf(ps, k) == StartOf(qs, k)
  {
    assert 0 < k ==> ps[..k][k - 1] == ps[k - 1] && qs[..k][k - 1] == qs[k - 1];
  }

  lemma {:induction false} PrefixSame(ps: seq<Piece>, qs: seq<Piece>, k: nat, fits: Piece -> bool)
    requires Chain(ps, fits) && Chain(qs, fits) && k <= |ps| && k <= |qs|
    requires forall p, q :: fits(p) && fits(q) && p.from == q.from ==> p == q
    ensures ps[..k] == qs[..k]
  {
    if 0 < k {
      PrefixSame(ps, qs, k - 1, fits);
      PieceAt(ps, k - 1, fits);
      PieceAt(qs, k - 1, fits);
      StartsAgree(ps, qs, k - 1);
      assert ps[..k] == ps[..k - 1] + [ps[k - 1]] && qs[..k] == qs[..k - 1] + [qs[k - 1]];
    }
  }

  lemma {:induction false} StartInside(n: nat, ps: seq<Piece>, k: nat)
    requires Tiles(n, ps)
    ensures k < |ps| ==> StartOf(ps, k) < StartOf(ps, |ps|)
    decreases |ps|
  {
    var m := |ps| - 1;
    if k < m {
      StartInside(n, ps[..m], k);
      assert StartOf(ps[..m], k) == StartOf(ps, k) && StartOf(ps[..m], m) == StartOf(ps, m);
    }
  }

  /** The documents of a list of lines are all the same one. */
  lemma {:induction false} DocumentOnce(lines: seq<string>, ps: seq<Piece>, qs: seq<Piece>)
    requires Document(lines, ps) && Document(lines, qs)
    ensures ps == qs
  {
    var k := if |ps| <= |qs| then |ps| else |qs|;
    forall p, q | Fits(lines, p) && Fits(lines, q) && p.from == q.from ensures p == q {
      FitsOnce(lines, p, q);
    }
    PrefixSame(ps, qs, k, FitsIn(lines));
    StartsAgree(ps, qs, k);
    PartialTiles(lines, ps);
    PartialTiles(lines, qs);
    StartInside(|lines|, ps, k);
    StartInside(|lines|, qs, k);
    assert ps[..|ps|] == ps && qs[..|qs|] == qs;
  }

  // --- Every line, once -----------------------------------------------------------------------

  predicate Holds(p: Piece, i: nat)
  {
    p.from <= i < p.to
  }

  /** How many pieces hold line i. */
  function Holders(ps: seq<Piece>, i: nat): nat
  {
    if |ps| == 0 then 0 else Holders(ps[..|ps| - 1], i) + (if Holds(ps[|ps| - 1], i) then 1 else 0)
  }

  lemma {:induction false} HeldOnce(n: nat, ps: seq<Piece>, i: nat)
    requires Tiles(n, ps)
    ensures Holders(ps, i) == if i < StartOf(ps, |ps|) then 1 else 0
  {
    var k := |ps| - 1;
    if 0 <= k {
      HeldOnce(n, ps[..k], i);
      assert StartOf(ps[..k], k) == StartOf(ps, k);
    }
  }

  /** Blocks and skipped blanks cover every line, each exactly once, in order and without a gap. */
  lemma {:induction false} EveryLineOnce(lines: seq<string>, ps: seq<Piece>, i: nat)
    requires Document(lines, ps)
    ensures Tiles(|lines|, ps)
    ensures Holders(ps, i) == if i < |lines| then 1 else 0
  {
    PartialTiles(lines, ps);
    HeldOnce(|lines|, ps, i);
  }

  /** The lines the pieces consume, one after the other. */
  function Consumed(lines: seq<string>, ps: seq<Piece>): seq<string>
  {
    if |ps| == 0 then []
    else
      var p := ps[|ps| - 1];
      Consumed(lines, ps[..|ps| - 1]) + (if p.from <= p.to <= |lines| then lines[p.from..p.to] else [])
  }

  lemma {:induction false} ConsumedIsPrefix(lines: seq<string>, ps: seq<Piece>)
    requires Tiles(|lines|, ps)
    ensures StartOf(ps, |ps|) <= |lines| && Consumed(lines, ps) == lines[..StartOf(ps, |ps|)]
  {
    var n := |ps| - 1;
    if 0 <= n {
      ConsumedIsPrefix(lines, ps[..n]);
      assert StartOf(ps[..n], n) == StartOf(ps, n);
      assert lines[..ps[n].from] + lines[ps[n].from..ps[n].to] == lines[..ps[n].to];
    }
  }

  /** The pieces of a source, put back together, are the source with every CRLF turned into a newline. */
  lemma {:induction false} NothingLost(source: string, ps: seq<Piece>)
    requires Document(LinesOf(source), ps)
    ensures Join(Consumed(LinesOf(source), ps), "\n") == Unix(source)
  {
    var lines := LinesOf(source);
    PartialTiles(lines, ps);
    ConsumedIsPrefix(lines, ps);
    assert lines[..|lines|] == lines;
    LinesLoseNothing(source);
  }

  // --- Fences ------------------------------------------------------------------------------------

  /** The code of a piece is its lines after the first, up to a closing fence, or to the end of the source
      when no fence closes it. */
  predicate Verbatim(lines: seq<string>, p: Piece)
  {
    && p.from < p.to <= |lines| && p.block.Fence?
    && ((p.to == |lines| && (forall i :: p.from < i < p.to ==> !IsFence(lines[i]))
         && p.block.code == Join(lines[p.from + 1..], "\n"))
        || (p.from + 1 < p.to && IsFence(lines[p.to - 1]) && (forall i :: p.from < i < p.to - 1 ==> !IsFence(lines[i]))
            && p.block.code == Join(lines[p.from + 1..p.to - 1], "\n")))
  }

  lemma {:induction false} FenceIsVerbatim(lines: seq<string>, p: Piece, e: nat)
    requires p.from < |lines| && FenceFits(lines, p, e)
    ensures Verbatim(lines, p)
  {
    assert forall i :: p.from < i < e ==> NoFence(lines[i]);
    if e == |lines| {
      assert lines[p.from + 1..e] == lines[p.from + 1..];
    }
  }

  lemma {:induction false} FenceKind(lines: seq<string>, p: Piece)
    requires Fits(lines, p)
    ensures IsFence(lines[p.from]) <==> p.block.Fence?
    ensures p.block.Fence? ==> exists e: nat :: FenceFits(lines, p, e)
  {
    if IsFence(lines[p.from]) {
      var e: nat :| FenceFits(lines, p, e);
    }
  }

  /** A piece is a code block exactly when it begins with a fence; its code is its lines as they are, and no
      line inside it opens anything. */
  lemma {:induction false} FencesAreVerbatim(lines: seq<string>, ps: seq<Piece>, k: nat)
    requires Document(lines, ps) && k < |ps|
    ensures ps[k].from < |lines| && (IsFence(lines[ps[k].from]) <==> ps[k].block.Fence?)
    ensures ps[k].block.Fence? ==> Verbatim(lines, ps[k])
  {
    PieceAt(ps, k, FitsIn(lines));
    var p := ps[k];
    FenceKind(lines, p);
    if p.block.Fence? {
      var e: nat :| FenceFits(lines, p, e);
      FenceIsVerbatim(lines, p, e);
    }
  }

  /** A fence that nothing closes takes every line after it. */
  lemma {:induction false} OpenFenceTakesAll(lines: seq<string>, ps: seq<Piece>)
    requires 0 < |lines| && IsFence(lines[0]) && forall i :: 0 < i < |lines| ==> !IsFence(lines[i])
    requires Document(lines, ps)
    ensures ps == [Piece(Fence(FenceLang(lines[0]), Join(lines[1..], "\n")), 0, |lines|)]
  {
    var p := Piece(Fence(FenceLang(lines[0]), Join(lines[1..], "\n")), 0, |lines|);
    OpenFenceFits(lines, p);
    ChainGrows([], p, FitsIn(lines));
    assert [] + [p] == [p];
    DocumentOnce(lines, ps, [p]);
  }

  lemma {:induction false} OpenFenceFits(lines: seq<string>, p: Piece)
    requires 0 < |lines| && IsFence(lines[0]) && forall i :: 0 < i < |lines| ==> !IsFence(lines[i])
    requires p == Piece(Fence(FenceLang(lines[0]), Join(lines[1..], "\n")), 0, |lines|)
    ensures Fits(lines, p)
  {
    assert lines[1..|lines|] == lines[1..];
    assert FenceFits(lines, p, |lines|);
  }

  // --- Table rows ----------------------------------------------------------------------------------

  predicate Cell(s: string)
  {
    '|' !in s && (s == "" || (!Space(s[0]) && !Space(s[|s| - 1])))
  }

  lemma {:induction false} TrimAllCells(cells: seq<string>)
    requires forall i :: 0 <= i < |cells| ==> Cell(cells[i])
    ensures TrimAll(cells) == cells
  {
    var n := |cells| - 1;
    if 0 <= n {
      TrimAllCells(cells[..n]);
      assert Cell(cells[n]);
      assert cells == cells[..n] + [cells[n]];
    }
  }

  lemma {:induction false} BarsOff(s: string)
    ensures DropLastBar(DropFirstBar(Trim("|" + s + "|"))) == s
  {
    var row := "|" + s + "|";
    assert Trim(row) == row;
    assert row[1..] == s + "|";
    assert (s + "|")[..|s|] == s;
  }

  /** A row written with a bar around every cell reads back as its cells. */
  lemma {:induction false} RowRoundTrip(cells: seq<string>)
    requires 0 < |cells| && forall i :: 0 <= i < |cells| ==> Cell(cells[i])
    ensures Cells("|" + Join(cells, "|") + "|") == cells
  {
    BarsOff(Join(cells, "|"));
    SplitJoin(cells, '|');
    TrimAllCells(cells);
  }
}
