/** The span lexer `inline` of `dashboard/src/app/docs/md.tsx`: code and bold inside a line of text. */
module Inline {
  datatype Span = Text(text: string) | Code(text: string) | Bold(text: string)

  /** A span with its delimiters put back. */
  function Show(s: Span): string
  {
    match s
    case Text(t) => t
    case Code(t) => "`" + t + "`"
    case Bold(t) => "**" + t + "**"
  }

  function Render(spans: seq<Span>): string
  {
    if |spans| == 0 then "" else Render(spans[..|spans| - 1]) + Show(spans[|spans| - 1])
  }

  // --- The regular expression -------------------------------------------------------

  /** What a backtick pair or a double-star pair may enclose. */
  predicate Enclosable(w: string, delimiter: char)
  {
    0 < |w| && delimiter !in w
  }

  /** text[i..j] is one match of the lexer's regular expression: a code span or a bold span. */
  ghost predicate IsMatch(text: string, i: int, j: int)
  {
    && 0 <= i < j <= |text|
    && ((exists w :: Enclosable(w, '`') && text[i..j] == Show(Code(w)))
        || (exists w :: Enclosable(w, '*') && text[i..j] == Show(Bold(w))))
  }

  /** A match starts at position i. */
  ghost predicate Starts(text: string, i: int)
  {
    exists j :: IsMatch(text, i, j)
  }

  /** First position of `c` at or after `from`, or the length of the text. */
  function IndexOf(text: string, c: char, from: nat): (k: nat)
    requires from <= |text|
    ensures from <= k <= |text| && (k < |text| ==> text[k] == c)
    ensures forall x :: from <= x < k ==> text[x] != c
    decreases |text| - from
  {
    if from == |text| || text[from] == c then from else IndexOf(text, c, from + 1)
  }

  /** The end of the match that starts at i; i itself when there is none. */
  function MatchEnd(text: string, i: nat): (j: nat)
    requires i < |text|
    ensures i <= j <= |text|
  {
    if text[i] == '`' then
      var k := IndexOf(text, '`', i + 1);
      if i + 1 < k < |text| then k + 1 else i
    else if text[i] == '*' && i + 1 < |text| && text[i + 1] == '*' then
      var k := IndexOf(text, '*', i + 2);
      if i + 2 < k && k + 1 < |text| && text[k + 1] == '*' then k + 2 else i
    else i
  }

  function SpanAt(text: string, i: nat, j: nat): Span
    requires i + 2 <= j <= |text| && (text[i] == '`' || i + 4 <= j)
  {
    if text[i] == '`' then Code(text[i + 1..j - 1]) else Bold(text[i + 2..j - 2])
  }

  lemma {:induction false} Cut(text: string, i: nat, m: nat, j: nat)
    requires i <= m <= j <= |text|
    ensures text[i..j] == text[i..m] + text[m..j]
  {
  }

  /** The text from i to j, cut after the first n and before the last n characters. */
  lemma {:induction false} CutEnds(text: string, i: nat, j: nat, n: nat)
    requires i + n + n <= j <= |text|
    ensures text[i..j] == text[i..i + n] + text[i + n..j - n] + text[j - n..j]
  {
    Cut(text, i, j - n, j);
    Cut(text, i, i + n, j - n);
  }

  lemma {:induction false} CodeShows(text: string, i: nat, j: nat)
    requires i + 3 <= j <= |text| && text[i] == '`' && text[j - 1] == '`'
    requires forall x :: i < x < j - 1 ==> text[x] != '`'
    ensures Enclosable(text[i + 1..j - 1], '`') && Show(Code(text[i + 1..j - 1])) == text[i..j]
  {
    CutEnds(text, i, j, 1);
    assert text[i..i + 1] == "`" && text[j - 1..j] == "`";
  }

  lemma {:induction false} BoldShows(text: string, i: nat, j: nat)
    requires i + 5 <= j <= |text| && text[i] == '*' && text[i + 1] == '*' && text[j - 2] == '*' && text[j - 1] == '*'
    requires forall x :: i + 1 < x < j - 2 ==> text[x] != '*'
    ensures Enclosable(text[i + 2..j - 2], '*') && Show(Bold(text[i + 2..j - 2])) == text[i..j]
  {
    CutEnds(text, i, j, 2);
    assert text[i..i + 2] == "**" && text[j - 2..j] == "**";
  }

  lemma {:induction false} MatchEndBounds(text: string, i: nat)
    requires i < |text| && i < MatchEnd(text, i)
    ensures var j := MatchEnd(text, i);
            if text[i] == '`' then
              i + 3 <= j <= |text| && text[j - 1] == '`' && forall x :: i < x < j - 1 ==> text[x] != '`'
            else
              && i + 5 <= j <= |text| && text[i] == '*' && text[i + 1] == '*' && text[j - 2] == '*'
                 && text[j - 1] == '*'
              && forall x :: i + 1 < x < j - 2 ==> text[x] != '*'
  {
  }

  /** What the regular expression captures from i on. */
  lemma {:induction false} MatchEndShows(text: string, i: nat)
    requires i < |text| && i < MatchEnd(text, i)
    ensures var j := MatchEnd(text, i);
            && i + 2 <= j && (text[i] == '`' || i + 4 <= j)
            && Show(SpanAt(text, i, j)) == text[i..j]
            && !SpanAt(text, i, j).Text?
            && Enclosable(SpanAt(text, i, j).text, if text[i] == '`' then '`' else '*')
  {
    var j := MatchEnd(text, i);
    MatchEndBounds(text, i);
    if text[i] == '`' {
      CodeShows(text, i, j);
    } else {
      BoldShows(text, i, j);
    }
  }

  lemma {:induction false} IndexIs(text: string, c: char, from: nat, k: nat)
    requires from <= k < |text| && text[k] == c
    requires forall x :: from <= x < k ==> text[x] != c
    ensures IndexOf(text, c, from) == k
  {
  }

  lemma {:induction false} Inside(text: string, i: nat, j: nat, d: string, w: string, x: nat)
    requires i <= j <= |text| && text[i..j] == d + w + d && i + |d| <= x < i + |d| + |w|
    ensures x < |text| && text[x] == w[x - i - |d|]
  {
    assert text[x] == text[i..j][x - i];
  }

  lemma {:induction false} CodeEnd(text: string, i: nat, j: nat, w: string)
    requires i < j <= |text| && Enclosable(w, '`') && text[i..j] == Show(Code(w))
    ensures MatchEnd(text, i) == j
  {
    assert text[i] == text[i..j][0] == '`' && text[j - 1] == text[i..j][|w| + 1] == '`';
    forall x | i + 1 <= x < j - 1 ensures text[x] != '`' {
      Inside(text, i, j, "`", w, x);
    }
    IndexIs(text, '`', i + 1, j - 1);
  }

  lemma {:induction false} BoldEnd(text: string, i: nat, j: nat, w: string)
    requires i < j <= |text| && Enclosable(w, '*') && text[i..j] == Show(Bold(w))
    ensures MatchEnd(text, i) == j
  {
    assert text[i] == text[i..j][0] == '*' && text[i + 1] == text[i..j][1] == '*';
    assert text[j - 2] == text[i..j][|w| + 2] == '*' && text[j - 1] == text[i..j][|w| + 3] == '*';
    forall x | i + 2 <= x < j - 2 ensures text[x] != '*' {
      Inside(text, i, j, "**", w, x);
    }
    IndexIs(text, '*', i + 2, j - 2);
  }

  /** The regular expression matches from i to j exactly when `MatchEnd` says so: greed never matters. */
  lemma {:induction false} MatchIsUnique(text: string, i: nat, j: int)
    requires i < |text|
    ensures IsMatch(text, i, j) <==> i < j == MatchEnd(text, i)
  {
    if IsMatch(text, i, j) {
      if w :| Enclosable(w, '`') && text[i..j] == Show(Code(w)) {
        CodeEnd(text, i, j, w);
      } else {
        var w :| Enclosable(w, '*') && text[i..j] == Show(Bold(w));
        BoldEnd(text, i, j, w);
      }
    }
    if i < j == MatchEnd(text, i) {
      MatchEndShows(text, i);
      assert SpanAt(text, i, j) == (if text[i] == '`' then Code(SpanAt(text, i, j).text)
                                    else Bold(SpanAt(text, i, j).text));
    }
  }

  /** `re.exec` from a given last index: the leftmost match, or the length of the text. */
  function FirstMatch(text: string, from: nat): (i: nat)
    requires from <= |text|
    ensures from <= i <= |text| && (i < |text| ==> i < MatchEnd(text, i))
    ensures forall x :: from <= x < i ==> MatchEnd(text, x) == x
    decreases |text| - from
  {
    if from == |text| || from < MatchEnd(text, from) then from else FirstMatch(text, from + 1)
  }

  // --- What a lexed text is -------------------------------------------------------------

  function Offset(spans: seq<Span>, k: nat): nat
    requires k <= |spans|
  {
    |Render(spans[..k])|
  }

  /** Span k: a text span is not empty, is not followed by another and no match starts in it; a code or bold
      span is what the regular expression allows. */
  ghost predicate SpanOk(text: string, spans: seq<Span>, k: nat)
    requires k < |spans|
  {
    match spans[k]
    case Text(t) =>
      && t != "" && (k + 1 < |spans| ==> !spans[k + 1].Text?)
      && forall x :: Offset(spans, k) <= x < Offset(spans, k) + |t| ==> !Starts(text, x)
    case Code(t) => Enclosable(t, '`')
    case Bold(t) => Enclosable(t, '*')
  }

  ghost predicate SpansOk(text: string, spans: seq<Span>, n: nat)
    requires n <= |spans|
  {
    0 < n ==> SpansOk(text, spans, n - 1) && SpanOk(text, spans, n - 1)
  }

  ghost predicate Lexed(text: string, spans: seq<Span>)
  {
    Render(spans) == text && SpansOk(text, spans, |spans|)
  }

  lemma {:induction false} OkAt(text: string, spans: seq<Span>, n: nat, k: nat)
    requires k < n <= |spans| && SpansOk(text, spans, n)
    ensures SpanOk(text, spans, k)
  {
    if k < n - 1 { OkAt(text, spans, n - 1, k); }
  }

  // --- The loop ----------------------------------------------------------------------------

  lemma {:induction false} TextFits(text: string, last: nat, i: nat)
    requires last < i <= |text| && i == FirstMatch(text, last)
    ensures Fits(text, Text(text[last..i]), last)
  {
    NothingStarts(text, last, i);
  }

  /** `out.push(text.slice(last, i))`, up to the next match. */
  method PushText(text: string, before: seq<Span>, last: nat, i: nat) returns (out: seq<Span>)
    requires Progress(text, before, last) && last < i == FirstMatch(text, last)
    requires !EndsInText(before)
    ensures out == before + [Text(text[last..i])] && Progress(text, out, i)
  {
    TextFits(text, last, i);
    Push(text, before, Text(text[last..i]), last);
    out := before + [Text(text[last..i])];
  }

  /** `out.push` of the match at i. */
  method PushMatch(text: string, before: seq<Span>, i: nat) returns (out: seq<Span>, j: nat)
    requires Progress(text, before, i) && i < |text| && i < MatchEnd(text, i)
    ensures i < j == MatchEnd(text, i) && Progress(text, out, j) && !EndsInText(out)
    ensures out == before + [SpanAt(text, i, j)]
  {
    j := MatchEnd(text, i);
    MatchEndShows(text, i);
    Push(text, before, SpanAt(text, i, j), i);
    out := before + [SpanAt(text, i, j)];
  }

  lemma {:induction false} AllDone(text: string, out: seq<Span>)
    requires Progress(text, out, |text|)
    ensures Lexed(text, out)
  {
    assert text[..|text|] == text;
  }

  /** `inline`: losslessly, leftmost match first. */
  method Lex(text: string) returns (out: seq<Span>)
    ensures Lexed(text, out)
  {
    out := [];
    var last := 0;
    var i := FirstMatch(text, 0);
    while i < |text|
      invariant last <= i <= |text| && i == FirstMatch(text, last) && Progress(text, out, last) && !EndsInText(out)
      decreases |text| - last
    {
      if i > last {
        out := PushText(text, out, last, i);
      }
      out, last := PushMatch(text, out, i);
      i := FirstMatch(text, last);
    }
    if last < |text| {
      out := PushText(text, out, last, i);
    }
    AllDone(text, out);
  }

  lemma {:induction false} NothingStarts(text: string, from: nat, to: nat)
    requires from <= to <= |text|
    requires forall x :: from <= x < to ==> MatchEnd(text, x) == x
    ensures forall x :: from <= x < to ==> !Starts(text, x)
  {
    forall x | from <= x < to ensures !Starts(text, x) {
      if j :| IsMatch(text, x, j) { MatchIsUnique(text, x, j); }
    }
  }

  lemma {:induction false} PushKeeps(text: string, out: seq<Span>, s: Span, k: nat)
    requires k < |out| && SpanOk(text, out, k)
    requires k + 1 == |out| && s.Text? ==> !out[k].Text?
    ensures SpanOk(text, out + [s], k)
  {
    assert (out + [s])[..k] == out[..k];
  }

  predicate EndsInText(out: seq<Span>)
  {
    0 < |out| && out[|out| - 1].Text?
  }

  lemma {:induction false} PushKeepsAll(text: string, out: seq<Span>, s: Span, n: nat)
    requires n <= |out| && SpansOk(text, out, n) && (s.Text? ==> !EndsInText(out))
    ensures SpansOk(text, out + [s], n)
  {
    if 0 < n {
      PushKeepsAll(text, out, s, n - 1);
      PushKeeps(text, out, s, n - 1);
    }
  }

  /** What the loop needs of the next span. */
  ghost predicate Fits(text: string, s: Span, last: nat)
  {
    && last + |Show(s)| <= |text| && Show(s) == text[last..last + |Show(s)|]
    && match s
       case Text(t) => t != "" && (forall x :: last <= x < last + |t| ==> !Starts(text, x))
       case Code(t) => Enclosable(t, '`')
       case Bold(t) => Enclosable(t, '*')
  }

  lemma {:induction false} PushAdds(text: string, out: seq<Span>, s: Span)
    requires Fits(text, s, |Render(out)|)
    ensures SpanOk(text, out + [s], |out|)
  {
    assert (out + [s])[..|out|] == out;
  }

  ghost predicate Progress(text: string, out: seq<Span>, last: nat)
  {
    last <= |text| && Render(out) == text[..last] && SpansOk(text, out, |out|)
  }

  /** One more span after a prefix that ends at `last`. */
  lemma {:induction false} Push(text: string, out: seq<Span>, s: Span, last: nat)
    requires Progress(text, out, last) && Fits(text, s, last)
    requires s.Text? ==> !EndsInText(out)
    ensures Progress(text, out + [s], last + |Show(s)|)
  {
    assert (out + [s])[..|out|] == out;
    assert text[..last + |Show(s)|] == text[..last] + Show(s);
    PushAdds(text, out, s);
    PushKeepsAll(text, out, s, |out|);
  }

  // --- Why the answer is the only one --------------------------------------------------------

  lemma {:induction false} RenderStep(spans: seq<Span>, k: nat)
    requires k < |spans|
    ensures Render(spans[..k + 1]) == Render(spans[..k]) + Show(spans[k])
  {
    assert spans[..k + 1][..k] == spans[..k];
  }

  lemma {:induction false} FrontOf(text: string, a: string, b: string, n: nat)
    requires n <= |text| && text[..n] == a + b
    ensures text[..|a|] == a && text[|a|..n] == b
  {
    assert text[..n][..|a|] == text[..|a|] && text[..n][|a|..] == text[|a|..n];
  }

  lemma {:induction false} RenderFrom(text: string, spans: seq<Span>, k: nat)
    requires k <= |spans| && Render(spans) == text
    ensures Offset(spans, k) <= |text| && text[..Offset(spans, k)] == Render(spans[..k])
    decreases |spans| - k
  {
    if k == |spans| {
      assert spans[..k] == spans && text[..|text|] == text;
    } else {
      RenderFrom(text, spans, k + 1);
      RenderStep(spans, k);
      FrontOf(text, Render(spans[..k]), Show(spans[k]), Offset(spans, k + 1));
    }
  }

  lemma {:induction false} ShowAt(text: string, spans: seq<Span>, k: nat)
    requires k < |spans| && Render(spans) == text
    ensures var a, n := Offset(spans, k), |Show(spans[k])|;
            Offset(spans, k + 1) == a + n <= |text| && text[a..a + n] == Show(spans[k])
  {
    RenderFrom(text, spans, k + 1);
    RenderStep(spans, k);
    FrontOf(text, Render(spans[..k]), Show(spans[k]), Offset(spans, k + 1));
  }

  /** A code or bold span of a lexed text is a match, and the one that starts there. */
  lemma {:induction false} SpanMatches(text: string, spans: seq<Span>, k: nat)
    requires Lexed(text, spans) && k < |spans| && !spans[k].Text?
    ensures Starts(text, Offset(spans, k))
    ensures Offset(spans, k) < |text| && Offset(spans, k + 1) == MatchEnd(text, Offset(spans, k))
    ensures Show(spans[k]) == text[Offset(spans, k)..Offset(spans, k + 1)]
    ensures Enclosable(spans[k].text, if spans[k].Code? then '`' else '*')
  {
    ShowAt(text, spans, k);
    OkAt(text, spans, |spans|, k);
    assert IsMatch(text, Offset(spans, k), Offset(spans, k + 1));
    MatchIsUnique(text, Offset(spans, k), Offset(spans, k + 1));
  }

  lemma {:induction false} SameMatch(a: Span, b: Span)
    requires !a.Text? && !b.Text? && Show(a) == Show(b)
    requires Enclosable(a.text, if a.Code? then '`' else '*') && Enclosable(b.text, if b.Code? then '`' else '*')
    ensures a == b
  {
    assert Show(a)[0] == Show(b)[0];
    if a.Code? {
      assert Show(a)[1..|Show(a)| - 1] == a.text && Show(b)[1..|Show(b)| - 1] == b.text;
    } else {
      assert Show(a)[2..|Show(a)| - 2] == a.text && Show(b)[2..|Show(b)| - 2] == b.text;
    }
  }

  lemma {:induction false} LastOffset(text: string, spans: seq<Span>)
    requires Render(spans) == text
    ensures Offset(spans, |spans|) == |text|
  {
    assert spans[..|spans|] == spans;
  }

  /** No match starts in a text span. */
  lemma {:induction false} TextIsPlain(text: string, spans: seq<Span>, k: nat)
    requires Lexed(text, spans) && k < |spans| && spans[k].Text?
    ensures Offset(spans, k) < Offset(spans, k + 1) <= |text|
    ensures spans[k].text == text[Offset(spans, k)..Offset(spans, k + 1)]
    ensures k + 1 < |spans| ==> !spans[k + 1].Text?
    ensures forall x :: Offset(spans, k) <= x < Offset(spans, k + 1) ==> !Starts(text, x)
  {
    ShowAt(text, spans, k);
    OkAt(text, spans, |spans|, k);
  }

  /** A text span ends where the next match starts, or at the end. */
  lemma {:induction false} TextEnds(text: string, spans: seq<Span>, k: nat)
    requires Lexed(text, spans) && k < |spans| && spans[k].Text?
    ensures Offset(spans, k + 1) == |text| || Starts(text, Offset(spans, k + 1))
  {
    TextIsPlain(text, spans, k);
    if k + 1 < |spans| {
      SpanMatches(text, spans, k + 1);
    } else {
      LastOffset(text, spans);
    }
  }

  /** A text begins no match, so at one position both lists have a text or neither has. */
  lemma {:induction false} SameSort(text: string, s: seq<Span>, t: seq<Span>, k: nat)
    requires Lexed(text, s) && Lexed(text, t) && k < |s| && k < |t| && Offset(s, k) == Offset(t, k)
    ensures s[k].Text? <==> t[k].Text?
  {
    if s[k].Text? { TextIsPlain(text, s, k); } else { SpanMatches(text, s, k); }
    if t[k].Text? { TextIsPlain(text, t, k); } else { SpanMatches(text, t, k); }
  }

  lemma {:induction false} NextSame(text: string, s: seq<Span>, t: seq<Span>, k: nat)
    requires Lexed(text, s) && Lexed(text, t) && k < |s| && k < |t| && Offset(s, k) == Offset(t, k)
    ensures s[k] == t[k]
  {
    SameSort(text, s, t, k);
    if s[k].Text? {
      TextIsPlain(text, s, k);
      TextIsPlain(text, t, k);
      TextEnds(text, s, k);
      TextEnds(text, t, k);
      assert Offset(s, k + 1) == Offset(t, k + 1);
    } else {
      SpanMatches(text, s, k);
      SpanMatches(text, t, k);
      SameMatch(s[k], t[k]);
    }
  }

  lemma {:induction false} OneMore(s: seq<Span>, t: seq<Span>, k: nat)
    requires k < |s| && k < |t| && s[..k] == t[..k] && s[k] == t[k]
    ensures s[..k + 1] == t[..k + 1]
  {
    assert s[..k + 1] == s[..k] + [s[k]] && t[..k + 1] == t[..k] + [t[k]];
  }

  lemma {:induction false} PrefixSame(text: string, s: seq<Span>, t: seq<Span>, k: nat)
    requires Lexed(text, s) && Lexed(text, t) && k <= |s| && k <= |t|
    ensures s[..k] == t[..k]
  {
    if 0 < k {
      PrefixSame(text, s, t, k - 1);
      NextSame(text, s, t, k - 1);
      OneMore(s, t, k - 1);
    }
  }

  lemma {:induction false} ShowNotEmpty(text: string, s: seq<Span>, k: nat)
    requires Lexed(text, s) && k < |s|
    ensures Offset(s, k) < |text|
  {
    ShowAt(text, s, k);
    OkAt(text, s, |s|, k);
  }

  /** Lossless, leftmost, maximal: at most one list of spans is all of it. */
  lemma {:induction false} LexedOnce(text: string, s: seq<Span>, t: seq<Span>)
    requires Lexed(text, s) && Lexed(text, t)
    ensures s == t
  {
    var k := if |s| <= |t| then |s| else |t|;
    PrefixSame(text, s, t, k);
    assert s[..|s|] == s && t[..|t|] == t;
    if k < |s| { ShowNotEmpty(text, s, k); }
    if k < |t| { ShowNotEmpty(text, t, k); }
  }
}
