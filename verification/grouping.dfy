/** `groupThousands`: the amount shown on the hosted payment page. */
module Grouping {

  function DigitChar(d: nat): (c: char)
    requires d < 10
    ensures '0' <= c <= '9' && (c as int) - ('0' as int) == d
  {
    ('0' as int + d) as char
  }

  /** `fmt.Sprintf("%d", n)` for a non-negative n. */
  function Digits(n: nat): (s: string)
    ensures 1 <= |s|
    ensures forall i :: 0 <= i < |s| ==> '0' <= s[i] <= '9'
  {
    if n < 10 then [DigitChar(n)] else Digits(n / 10) + [DigitChar(n % 10)]
  }

  /** `fmt.Sprintf("%d", n)`. */
  function Decimal(n: int): (s: string)
    ensures 1 <= |s| && ' ' !in s
  {
    if n < 0 then "-" + Digits(-n) else Digits(n)
  }

  /** The reader's side: the number a decimal text stands for. */
  function Value(s: string): int
    requires forall i :: 0 <= i < |s| ==> '0' <= s[i] <= '9'
  {
    if |s| == 0 then 0 else 10 * Value(s[..|s| - 1]) + (s[|s| - 1] as int - '0' as int)
  }

  lemma {:induction false} DigitsRoundTrip(n: nat)
    ensures Value(Digits(n)) == n
    ensures 0 < n ==> Digits(n)[0] != '0'
  {
    var s := Digits(n);
    if n < 10 {
      assert s[..0] == [];
      assert Value(s[..|s| - 1]) == 0;
    } else {
      DigitsRoundTrip(n / 10);
      assert s[..|s| - 1] == Digits(n / 10);
    }
  }

  // --- Groups, defined from the right -------------------------------------

  /** Cut a text into groups of three, starting at its end. */
  function Groups(s: string): (gs: seq<string>)
    requires 1 <= |s|
    ensures 1 <= |gs|
    decreases |s|
  {
    if |s| <= 3 then [s] else Groups(s[..|s| - 3]) + [s[|s| - 3..]]
  }

  function Concat(gs: seq<string>): string
  {
    if |gs| == 0 then "" else Concat(gs[..|gs| - 1]) + gs[|gs| - 1]
  }

  function Join(gs: seq<string>): string
    requires 1 <= |gs|
  {
    if |gs| == 1 then gs[0] else Join(gs[..|gs| - 1]) + " " + gs[|gs| - 1]
  }

  function Unspaced(s: string): string
  {
    if |s| == 0 then "" else if s[0] == ' ' then Unspaced(s[1..]) else [s[0]] + Unspaced(s[1..])
  }

  lemma {:induction false} UnspacedConcat(a: string, b: string)
    ensures Unspaced(a + b) == Unspaced(a) + Unspaced(b)
  {
    if |a| == 0 {
      assert a + b == b;
    } else {
      assert (a + b)[1..] == a[1..] + b;
      UnspacedConcat(a[1..], b);
    }
  }

  lemma {:induction false} UnspacedIdentity(s: string)
    requires ' ' !in s
    ensures Unspaced(s) == s
  {
    if 0 < |s| {
      UnspacedIdentity(s[1..]);
    }
  }

  lemma {:induction false} ConcatSnoc(gs: seq<string>, g: string)
    ensures Concat(gs + [g]) == Concat(gs) + g
  {
    assert (gs + [g])[..|gs|] == gs;
  }

  lemma {:induction false} GroupsSpell(s: string)
    requires 1 <= |s|
    ensures Concat(Groups(s)) == s
    decreases |s|
  {
    if |s| <= 3 {
      ConcatSnoc([], s);
      assert [] + [s] == [s];
    } else {
      GroupsSpell(s[..|s| - 3]);
      ConcatSnoc(Groups(s[..|s| - 3]), s[|s| - 3..]);
      assert s == s[..|s| - 3] + s[|s| - 3..];
    }
  }

  lemma {:induction false} GroupSize(s: string, i: nat)
    requires 1 <= |s| && i < |Groups(s)|
    ensures if i == 0 then 1 <= |Groups(s)[i]| <= 3 else |Groups(s)[i]| == 3
    decreases |s|
  {
    if 3 < |s| && i < |Groups(s)| - 1 { GroupSize(s[..|s| - 3], i); }
  }

  lemma {:induction false} GroupCount(s: string)
    requires 1 <= |s|
    ensures |Groups(s)| == 1 + (|s| - 1) / 3
    decreases |s|
  {
    if 3 < |s| { GroupCount(s[..|s| - 3]); }
  }

  /** The groups spell the text, the first one has 1 to 3 characters and every other one 3. */
  lemma {:induction false} GroupsShape(s: string)
    requires 1 <= |s|
    ensures Concat(Groups(s)) == s
    ensures 1 <= |Groups(s)[0]| <= 3
    ensures forall i :: 1 <= i < |Groups(s)| ==> |Groups(s)[i]| == 3
    ensures |Groups(s)| == 1 + (|s| - 1) / 3
  {
    GroupsSpell(s);
    GroupCount(s);
    GroupSize(s, 0);
    forall i | 1 <= i < |Groups(s)| ensures |Groups(s)[i]| == 3 {
      GroupSize(s, i);
    }
  }

  lemma {:induction false} UnspacedGroup(before: string, last: string)
    requires ' ' !in last
    ensures Unspaced(before + " " + last) == Unspaced(before) + last
  {
    UnspacedConcat(before + " ", last);
    UnspacedConcat(before, " ");
    UnspacedIdentity(last);
    assert Unspaced(" ") == Unspaced("") == "";
  }

  lemma {:induction false} LastGroup(s: string)
    requires 3 < |s|
    ensures Join(Groups(s)) == Join(Groups(s[..|s| - 3])) + " " + s[|s| - 3..]
  {
    var gs := Groups(s);
    assert gs[..|gs| - 1] == Groups(s[..|s| - 3]);
  }

  /** Removing the spaces undoes the grouping, which adds one character per full group cut off. */
  lemma {:induction false} JoinUndone(s: string)
    requires 1 <= |s| && ' ' !in s
    ensures Unspaced(Join(Groups(s))) == s
    ensures |Join(Groups(s))| == |s| + (|s| - 1) / 3
    decreases |s|
  {
    if |s| <= 3 {
      UnspacedIdentity(s);
    } else {
      JoinUndone(s[..|s| - 3]);
      LastGroup(s);
      UnspacedGroup(Join(Groups(s[..|s| - 3])), s[|s| - 3..]);
      assert s == s[..|s| - 3] + s[|s| - 3..];
    }
  }

  /** What the page shows for an amount reads back as that amount. */
  lemma {:induction false} GroupingRoundTrip(n: nat)
    ensures Unspaced(Join(Groups(Decimal(n)))) == Digits(n)
    ensures Value(Digits(n)) == n
    ensures |Join(Groups(Decimal(n)))| == |Digits(n)| + (|Digits(n)| - 1) / 3
  {
    JoinUndone(Decimal(n));
    DigitsRoundTrip(n);
  }

  lemma {:induction false} FirstGroupIs(s: string)
    requires 1 <= |s|
    ensures Groups(s)[0] == s[..(|s| - 1) % 3 + 1]
    decreases |s|
  {
    if 3 < |s| {
      FirstGroupIs(s[..|s| - 3]);
      assert Groups(s)[0] == Groups(s[..|s| - 3])[0];
      assert s[..|s| - 3][..(|s| - 1) % 3 + 1] == s[..(|s| - 1) % 3 + 1];
    }
  }

  /** The sign counts as a character of the first group: it stands alone, cut off by a space, exactly when
      the number of digits is a multiple of three, as in "- 123". */
  lemma {:induction false} SignStandsAlone(n: int)
    requires 0 < n
    ensures Groups(Decimal(-n))[0] == "-" <==> |Digits(n)| % 3 == 0
    ensures |Groups(Decimal(-n))| == 1 + |Digits(n)| / 3
  {
    FirstGroupIs(Decimal(-n));
    GroupCount(Decimal(-n));
  }

  /** One round of the loop: the next three characters become the next group. */
  lemma {:induction false} GroupsExtend(s: string, i: nat)
    requires i + 3 <= |s|
    ensures 1 <= i ==> Join(Groups(s[..i + 3])) == Join(Groups(s[..i])) + " " + s[i..i + 3]
    ensures i == 0 ==> Join(Groups(s[..i + 3])) == s[i..i + 3]
  {
    if 1 <= i {
      assert s[..i + 3][..i] == s[..i];
      assert s[..i + 3][i..] == s[i..i + 3];
      var gs := Groups(s[..i]);
      assert (gs + [s[i..i + 3]])[..|gs|] == gs;
    }
  }

  /** The left-to-right loop of `groupThousands`, against the groups cut from the right. */
  method GroupThousands(n: int) returns (out: string)
    ensures out == Join(Groups(Decimal(n)))
  {
    var s := Decimal(n);
    if |s| <= 3 {
      return s;
    }
    out := "";
    var pre := |s| % 3;
    if pre > 0 {
      out := out + s[..pre];
    }
    FirstGroup(s);
    var i := pre;
    while i < |s|
      invariant 0 <= i <= |s| && ThreesLeft(s, i)
      invariant Shown(s, i, out)
    {
      ThreesStep(s, i);
      ShownStep(s, i, out);
      if |out| > 0 {
        out := out + " ";
      }
      out := out + s[i..i + 3];
      i := i + 3;
    }
    assert s[..|s|] == s;
  }

  /** A whole number of groups of three is left from i on. */
  predicate ThreesLeft(s: string, i: nat)
  {
    i <= |s| && (|s| - i) % 3 == 0
  }

  /** What the loop has written of the first i characters. */
  predicate Shown(s: string, i: nat, out: string)
    requires i <= |s|
  {
    if i == 0 then out == "" else 1 <= |out| && out == Join(Groups(s[..i]))
  }

  lemma {:induction false} ThreesStep(s: string, i: nat)
    requires ThreesLeft(s, i) && i < |s|
    ensures i + 3 <= |s| && ThreesLeft(s, i + 3)
  {
  }

  lemma {:induction false} ShownStep(s: string, i: nat, out: string)
    requires i + 3 <= |s| && Shown(s, i, out)
    ensures Shown(s, i + 3, (if |out| > 0 then out + " " else out) + s[i..i + 3])
  {
    GroupsExtend(s, i);
  }

  lemma {:induction false} FirstGroup(s: string)
    ensures ThreesLeft(s, |s| % 3) && Shown(s, |s| % 3, s[..|s| % 3])
  {
  }
}
