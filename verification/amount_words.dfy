/** The amount-in-words line of the invoice: `numberToWordsIndian` spells a
    whole number of rupees with the Indian scale words Hundred, Thousand, Lakh
    and Crore (src/app/invoice/page.tsx:14-28).

    Besides the converter itself the module holds an independent reader,
    `Eval`, that turns a phrase back into a number, and proves that reading
    what `ToWords` writes gives the number back. */
module AmountInWords {
  import opened Wrappers

  /** `belowTwenty[i]`; the table's entry for 0 is the empty string. */
  function Below(i: nat): string {
    match i
    case 1 => "One"  case 2 => "Two"  case 3 => "Three"  case 4 => "Four"
    case 5 => "Five"  case 6 => "Six"  case 7 => "Seven"  case 8 => "Eight"
    case 9 => "Nine"  case 10 => "Ten"  case 11 => "Eleven"  case 12 => "Twelve"
    case 13 => "Thirteen"  case 14 => "Fourteen"  case 15 => "Fifteen"
    case 16 => "Sixteen"  case 17 => "Seventeen"  case 18 => "Eighteen"
    case 19 => "Nineteen"
    case _ => ""
  }

  /** `tens[i]`; the entries for 0 and 1 are empty strings. */
  function TensWord(i: nat): string {
    match i
    case 2 => "Twenty"  case 3 => "Thirty"  case 4 => "Forty"  case 5 => "Fifty"
    case 6 => "Sixty"  case 7 => "Seventy"  case 8 => "Eighty"  case 9 => "Ninety"
    case _ => ""
  }

  /** The local helper `toWords`, for a non-negative argument. Every recursive
      call is on a strictly smaller argument, which is what the default
      `decreases x` checks. */
  function ToWords(x: nat): string
  {
    if x < 20 then Below(x)
    else if x < 100 then
      TensWord(x / 10) + (if x % 10 != 0 then " " + Below(x % 10) else "")
    else if x < 1000 then
      Below(x / 100) + " Hundred" + (if x % 100 != 0 then " " + ToWords(x % 100) else "")
    else if x < 100000 then
      ToWords(x / 1000) + " Thousand" + (if x % 1000 != 0 then " " + ToWords(x % 1000) else "")
    else if x < 10000000 then
      ToWords(x / 100000) + " Lakh" + (if x % 100000 != 0 then " " + ToWords(x % 100000) else "")
    else
      ToWords(x / 10000000) + " Crore" + (if x % 10000000 != 0 then " " + ToWords(x % 10000000) else "")
  }

  /** `numberToWordsIndian(num)`: the input is floored first. A negative
      floor makes `toWords` index `belowTwenty` out of range, so the source
      returns `undefined`, written `None` here. */
  function NumberToWordsIndian(num: real): (r: Option<string>)
    ensures r.None? <==> num.Floor < 0
    ensures r.Some? ==> r.value != ""
    ensures num.Floor == 0 ==> r == Some("Zero")
    ensures num.Floor >= 1 ==> r.Some? && Eval(Split(r.value)) == num.Floor
  {
    var n := num.Floor;
    if n == 0 then Some("Zero")
    else if n < 0 then None
    else
      WordsAreTokens(n);
      ToWordsIsJoin(n);
      ReadBack(n);
      Some(ToWords(n))
  }

  // ---------------------------------------------------------------------
  // Phrases as lists of words

  /** A word: non-empty and free of spaces. */
  predicate IsToken(w: string) {
    w != "" && ' ' !in w
  }

  /** The words joined with single spaces (`Array.prototype.join(' ')`). */
  function Join(ws: seq<string>): string {
    if |ws| == 0 then "" else if |ws| == 1 then ws[0] else ws[0] + " " + Join(ws[1..])
  }

  /** The position of the first space. */
  function FirstSpace(s: string): (i: nat)
    requires ' ' in s
    ensures i < |s| && s[i] == ' ' && ' ' !in s[..i]
  {
    if s[0] == ' ' then 0
    else
      var j := FirstSpace(s[1..]);
      assert s[..j + 1] == [s[0]] + s[1..][..j];
      j + 1
  }

  /** `s.split(' ')`: the pieces between single spaces, empty pieces included. */
  function Split(s: string): (ws: seq<string>)
    ensures |ws| >= 1
    decreases |s|
  {
    if ' ' in s then
      var i := FirstSpace(s);
      [s[..i]] + Split(s[i + 1..])
    else [s]
  }

  /** No leading, trailing or doubled space, and not empty. */
  predicate WellSpaced(s: string) {
    && |s| > 0
    && s[0] != ' '
    && s[|s| - 1] != ' '
    && forall i :: 0 <= i < |s| - 1 && s[i] == ' ' ==> s[i + 1] != ' '
  }

  lemma {:induction false} JoinAppend(a: seq<string>, b: seq<string>)
    requires a != [] && b != []
    ensures Join(a + b) == Join(a) + " " + Join(b)
    decreases |a|
  {
    if |a| == 1 {
      assert (a + b)[1..] == b;
    } else {
      assert (a + b)[1..] == a[1..] + b;
      JoinAppend(a[1..], b);
    }
  }

  lemma {:induction false} FirstSpaceAfterToken(a: string, rest: string)
    requires ' ' !in a
    ensures ' ' in a + " " + rest && FirstSpace(a + " " + rest) == |a|
    decreases |a|
  {
    var s := a + " " + rest;
    assert s[|a|] == ' ';
    if a != [] {
      assert s[0] == a[0] && a[0] in a;
      assert s[1..] == a[1..] + " " + rest;
      assert forall c :: c in a[1..] ==> c in a;
      FirstSpaceAfterToken(a[1..], rest);
    }
  }

  /** Splitting undoes joining, for a non-empty list of words. */
  lemma {:induction false} SplitJoin(ws: seq<string>)
    requires |ws| >= 1
    requires forall k :: 0 <= k < |ws| ==> IsToken(ws[k])
    ensures Split(Join(ws)) == ws
    decreases |ws|
  {
    if |ws| == 1 {
      assert Join(ws) == ws[0];
    } else {
      var s := Join(ws);
      assert s == ws[0] + " " + Join(ws[1..]);
      FirstSpaceAfterToken(ws[0], Join(ws[1..]));
      var i := |ws[0]|;
      assert s[..i] == ws[0];
      assert s[i + 1..] == Join(ws[1..]);
      SplitJoin(ws[1..]);
      assert Split(s) == [ws[0]] + ws[1..];
    }
  }

  lemma {:induction false} JoinWellSpaced(ws: seq<string>)
    requires |ws| >= 1
    requires forall k :: 0 <= k < |ws| ==> IsToken(ws[k])
    ensures WellSpaced(Join(ws))
    decreases |ws|
  {
    assert IsToken(ws[0]);
    if |ws| == 1 {
      var w := ws[0];
      assert Join(ws) == w;
      assert w[0] in w && w[|w| - 1] in w;
    } else {
      var a, t := ws[0], Join(ws[1..]);
      JoinWellSpaced(ws[1..]);
      var s := a + " " + t;
      assert Join(ws) == s;
      assert s[0] == a[0] && a[0] in a;
      assert s[|s| - 1] == t[|t| - 1];
      forall i | 0 <= i < |s| - 1
        ensures s[i] == ' ' ==> s[i + 1] != ' '
      {
        if i < |a| {
          assert s[i] == a[i] && a[i] in a;
        } else if i == |a| {
          assert s[i + 1] == t[0];
        } else {
          assert s[i] == t[i - |a| - 1] && s[i + 1] == t[i - |a|];
        }
      }
    }
  }

  // ---------------------------------------------------------------------
  // Reading a phrase back

  /** The scale words from the largest down; any other word ranks 4. */
  function ScaleRank(w: string): nat {
    if w == "Crore" then 0
    else if w == "Lakh" then 1
    else if w == "Thousand" then 2
    else if w == "Hundred" then 3
    else 4
  }

  function ScaleName(k: nat): string
    requires k < 4
  {
    match k
    case 0 => "Crore"
    case 1 => "Lakh"
    case 2 => "Thousand"
    case _ => "Hundred"
  }

  function ScaleUnit(k: nat): nat
    requires k < 4
  {
    match k
    case 0 => 10000000
    case 1 => 100000
    case 2 => 1000
    case _ => 100
  }

  /** The number a unit or tens word stands for; 0 for any other word. */
  function WordValue(w: string): nat {
    match |w|
    case 3 => if w == "One" then 1 else if w == "Two" then 2 else if w == "Six" then 6
              else if w == "Ten" then 10 else 0
    case 4 => if w == "Four" then 4 else if w == "Five" then 5 else if w == "Nine" then 9 else 0
    case 5 => if w == "Three" then 3 else if w == "Seven" then 7 else if w == "Eight" then 8
              else if w == "Forty" then 40 else if w == "Fifty" then 50 else if w == "Sixty" then 60
              else 0
    case 6 => if w == "Eleven" then 11 else if w == "Twelve" then 12 else if w == "Twenty" then 20
              else if w == "Thirty" then 30 else if w == "Eighty" then 80 else if w == "Ninety" then 90
              else 0
    case 7 => if w == "Fifteen" then 15 else if w == "Sixteen" then 16 else if w == "Seventy" then 70
              else 0
    case 8 => if w == "Thirteen" then 13 else if w == "Fourteen" then 14 else if w == "Eighteen" then 18
              else if w == "Nineteen" then 19 else 0
    case 9 => if w == "Seventeen" then 17 else 0
    case _ => 0
  }

  function SumValues(ws: seq<string>): nat {
    if ws == [] then 0 else WordValue(ws[0]) + SumValues(ws[1..])
  }

  function LastIndexOf(ws: seq<string>, w: string): (i: nat)
    requires w in ws
    ensures i < |ws| && ws[i] == w && w !in ws[i + 1..]
  {
    if ws[|ws| - 1] == w then |ws| - 1
    else
      var i := LastIndexOf(ws[..|ws| - 1], w);
      assert ws[i + 1..] == ws[..|ws| - 1][i + 1..] + [ws[|ws| - 1]];
      i
  }

  /** The value of a phrase, looking only at scale words of rank `k` and
      below: the last occurrence of the largest scale word present splits the
      phrase into a multiplier and a remainder; a phrase without scale words
      is the sum of its unit and tens words. */
  function EvalFrom(ws: seq<string>, k: nat): nat
    requires k <= 4
    decreases |ws|, 4 - k
  {
    if k == 4 then SumValues(ws)
    else if ScaleName(k) in ws then
      var i := LastIndexOf(ws, ScaleName(k));
      EvalFrom(ws[..i], k) * ScaleUnit(k) + EvalFrom(ws[i + 1..], k + 1)
    else EvalFrom(ws, k + 1)
  }

  /** The number an Indian-scale phrase denotes. */
  function Eval(ws: seq<string>): nat {
    EvalFrom(ws, 0)
  }

  // ---------------------------------------------------------------------
  // The phrase `ToWords` writes, as a list of words

  function Words(x: nat): seq<string>
  {
    if x == 0 then []
    else if x < 20 then [Below(x)]
    else if x < 100 then [TensWord(x / 10)] + (if x % 10 != 0 then [Below(x % 10)] else [])
    else if x < 1000 then [Below(x / 100), "Hundred"] + Words(x % 100)
    else if x < 100000 then Words(x / 1000) + ["Thousand"] + Words(x % 1000)
    else if x < 10000000 then Words(x / 100000) + ["Lakh"] + Words(x % 100000)
    else Words(x / 10000000) + ["Crore"] + Words(x % 10000000)
  }

  /** The rank of the largest scale word `x` needs (4: none). */
  function Level(x: nat): nat {
    if x < 100 then 4 else if x < 1000 then 3 else if x < 100000 then 2
    else if x < 10000000 then 1 else 0
  }

  /** Each unit word reads back as its index. */
  lemma BelowWord(i: nat)
    requires 1 <= i < 20
    ensures WordValue(Below(i)) == i && ScaleRank(Below(i)) == 4 && IsToken(Below(i))
  {
    match i
    case 1 => assert Below(1) == "One";
    case 2 => assert Below(2) == "Two";
    case 3 => assert Below(3) == "Three";
    case 4 => assert Below(4) == "Four";
    case 5 => assert Below(5) == "Five";
    case 6 => assert Below(6) == "Six";
    case 7 => assert Below(7) == "Seven";
    case 8 => assert Below(8) == "Eight";
    case 9 => assert Below(9) == "Nine";
    case 10 => assert Below(10) == "Ten";
    case 11 => assert Below(11) == "Eleven";
    case 12 => assert Below(12) == "Twelve";
    case 13 => assert Below(13) == "Thirteen";
    case 14 => assert Below(14) == "Fourteen";
    case 15 => assert Below(15) == "Fifteen";
    case 16 => assert Below(16) == "Sixteen";
    case 17 => assert Below(17) == "Seventeen";
    case 18 => assert Below(18) == "Eighteen";
    case 19 => assert Below(19) == "Nineteen";
  }

  /** Each tens word reads back as ten times its index. */
  lemma TensValue(i: nat)
    requires 2 <= i < 10
    ensures WordValue(TensWord(i)) == 10 * i && ScaleRank(TensWord(i)) == 4 && IsToken(TensWord(i))
  {
    match i
    case 2 => assert TensWord(2) == "Twenty";
    case 3 => assert TensWord(3) == "Thirty";
    case 4 => assert TensWord(4) == "Forty";
    case 5 => assert TensWord(5) == "Fifty";
    case 6 => assert TensWord(6) == "Sixty";
    case 7 => assert TensWord(7) == "Seventy";
    case 8 => assert TensWord(8) == "Eighty";
    case 9 => assert TensWord(9) == "Ninety";
  }

  lemma ScaleNames(k: nat)
    requires k < 4
    ensures ScaleRank(ScaleName(k)) == k && IsToken(ScaleName(k))
  {
  }

  /** A number of at least 100 is its leading part, one scale word and its
      remainder. */
  lemma WordsSplit(x: nat)
    requires x >= 100
    ensures Level(x) < 4
    ensures Words(x) == Words(x / ScaleUnit(Level(x))) + [ScaleName(Level(x))]
                        + Words(x % ScaleUnit(Level(x)))
    ensures ToWords(x) == ToWords(x / ScaleUnit(Level(x))) + " " + ScaleName(Level(x))
                          + (if x % ScaleUnit(Level(x)) != 0 then " " + ToWords(x % ScaleUnit(Level(x))) else "")
  {
    var k := Level(x);
    if x < 1000 {
      assert k == 3;
      assert Words(x / 100) == [Below(x / 100)];
      SplitAt(x, k, " Hundred");
    } else if x < 100000 {
      assert k == 2;
      SplitAt(x, k, " Thousand");
    } else if x < 10000000 {
      assert k == 1;
      SplitAt(x, k, " Lakh");
    } else {
      assert k == 0;
      SplitAt(x, k, " Crore");
    }
  }

  lemma SplitAt(x: nat, k: nat, spaced: string)
    requires k < 4 && spaced == " " + ScaleName(k)
    requires ToWords(x) == ToWords(x / ScaleUnit(k)) + spaced
                           + (if x % ScaleUnit(k) != 0 then " " + ToWords(x % ScaleUnit(k)) else "")
    ensures ToWords(x) == ToWords(x / ScaleUnit(k)) + " " + ScaleName(k)
                          + (if x % ScaleUnit(k) != 0 then " " + ToWords(x % ScaleUnit(k)) else "")
  {
  }

  lemma {:induction false} WordsSmall(x: nat)
    requires x < 100
    ensures forall w :: w in Words(x) ==> ScaleRank(w) == 4 && IsToken(w)
    ensures SumValues(Words(x)) == x
  {
    if x == 0 {
    } else if x < 20 {
      BelowWord(x);
      assert SumValues(Words(x)) == WordValue(Below(x)) + SumValues([]);
    } else {
      TensValue(x / 10);
      var ws := Words(x);
      assert SumValues(ws) == 10 * (x / 10) + SumValues(ws[1..]);
      if x % 10 != 0 {
        BelowWord(x % 10);
        assert ws[1..] == [Below(x % 10)];
        assert SumValues(ws[1..]) == WordValue(Below(x % 10)) + SumValues([]);
      } else {
        assert ws[1..] == [];
      }
    }
  }

  /** Every word of `Words(x)` is a token, and none is a scale word larger
      than `x` needs. */
  lemma {:induction false} WordsShape(x: nat)
    ensures forall w :: w in Words(x) ==> ScaleRank(w) >= Level(x) && IsToken(w)
    decreases x
  {
    if x < 100 {
      WordsSmall(x);
    } else {
      var k := Level(x);
      WordsSplit(x);
      var q, r := x / ScaleUnit(k), x % ScaleUnit(k);
      WordsShape(q);
      WordsShape(r);
      ScaleNames(k);
    }
  }

  lemma WordsAreTokens(x: nat)
    ensures forall k :: 0 <= k < |Words(x)| ==> IsToken(Words(x)[k])
  {
    WordsShape(x);
    forall k | 0 <= k < |Words(x)| ensures IsToken(Words(x)[k]) {
      assert Words(x)[k] in Words(x);
    }
  }

  lemma {:induction false} SkipAbsent(ws: seq<string>, k: nat, k': nat)
    requires k <= k' <= 4
    requires forall w :: w in ws ==> ScaleRank(w) >= k'
    ensures EvalFrom(ws, k) == EvalFrom(ws, k')
    decreases k' - k
  {
    if k < k' {
      ScaleNames(k);
      assert ScaleName(k) !in ws;
      SkipAbsent(ws, k + 1, k');
    }
  }

  lemma {:induction false} LastIndexAt(a: seq<string>, w: string, b: seq<string>)
    requires w !in b
    ensures w in a + [w] + b && LastIndexOf(a + [w] + b, w) == |a|
    decreases |b|
  {
    var ws := a + [w] + b;
    assert ws[|a|] == w;
    if b != [] {
      var b' := b[..|b| - 1];
      assert ws[..|ws| - 1] == a + [w] + b';
      assert ws[|ws| - 1] == b[|b| - 1] && b[|b| - 1] in b;
      assert forall v :: v in b' ==> v in b;
      LastIndexAt(a, w, b');
    }
  }

  /** Reading a phrase whose last `ScaleName(k)` sits between `a` and `b`. */
  lemma EvalAtScale(a: seq<string>, k: nat, b: seq<string>)
    requires k < 4 && ScaleName(k) !in b
    ensures EvalFrom(a + [ScaleName(k)] + b, k) == EvalFrom(a, k) * ScaleUnit(k) + EvalFrom(b, k + 1)
  {
    var ws := a + [ScaleName(k)] + b;
    LastIndexAt(a, ScaleName(k), b);
    assert ws[..|a|] == a;
    assert ws[|a| + 1..] == b;
  }

  lemma LevelSplit(x: nat)
    requires x >= 100
    ensures Level(x) < 4
    ensures Level(x) > 0 ==> Level(x / ScaleUnit(Level(x))) == 4
    ensures Level(x % ScaleUnit(Level(x))) > Level(x)
    ensures x / ScaleUnit(Level(x)) * ScaleUnit(Level(x)) + x % ScaleUnit(Level(x)) == x
  {
  }

  /** Reading `Words(x)` from any rank the number allows gives `x` back. */
  lemma {:induction false} EvalWords(x: nat, k: nat)
    requires k <= Level(x)
    ensures EvalFrom(Words(x), k) == x
    decreases x
  {
    WordsShape(x);
    if x < 100 {
      WordsSmall(x);
      SkipAbsent(Words(x), k, 4);
    } else {
      var k0 := Level(x);
      SkipAbsent(Words(x), k, k0);
      WordsSplit(x);
      LevelSplit(x);
      var q, r := x / ScaleUnit(k0), x % ScaleUnit(k0);
      WordsShape(r);
      ScaleNames(k0);
      EvalAtScale(Words(q), k0, Words(r));
      EvalWords(q, k0);
      EvalWords(r, k0 + 1);
    }
  }

  lemma SmallIsJoin(x: nat)
    requires 1 <= x < 100
    ensures Words(x) != [] && ToWords(x) == Join(Words(x))
  {
    if 20 <= x && x % 10 != 0 {
      assert Join(Words(x)) == TensWord(x / 10) + " " + Join([Below(x % 10)]);
    }
  }

  /** Joining a leading part, a scale word and an optional remainder. */
  lemma JoinScale(wq: seq<string>, name: string, wr: seq<string>)
    requires wq != []
    ensures Join(wq + [name] + wr) == Join(wq) + " " + name + (if wr == [] then "" else " " + Join(wr))
  {
    JoinAppend(wq, [name]);
    if wr != [] {
      JoinAppend(wq + [name], wr);
    } else {
      assert wq + [name] + wr == wq + [name];
    }
  }

  /** `ToWords(x)` is the words of `Words(x)` joined by single spaces. */
  lemma {:induction false} ToWordsIsJoin(x: nat)
    requires x >= 1
    ensures Words(x) != [] && ToWords(x) == Join(Words(x))
    decreases x
  {
    if x < 100 {
      SmallIsJoin(x);
    } else {
      var k := Level(x);
      WordsSplit(x);
      var q, r := x / ScaleUnit(k), x % ScaleUnit(k);
      ToWordsIsJoin(q);
      if r != 0 {
        ToWordsIsJoin(r);
      }
      JoinScale(Words(q), ScaleName(k), Words(r));
    }
  }

  // ---------------------------------------------------------------------
  // What the converter promises

  /** Reading the printed words back gives the number: the words split at
      single spaces are `Words(x)`, and they denote `x`. */
  lemma ReadBack(x: nat)
    requires x >= 1
    ensures Split(ToWords(x)) == Words(x)
    ensures Eval(Split(ToWords(x))) == x
  {
    ToWordsIsJoin(x);
    WordsAreTokens(x);
    SplitJoin(Words(x));
    EvalWords(x, 0);
  }

  /** For a positive number the output contains no empty word: no leading,
      trailing or doubled space. */
  lemma NoEmptyWord(x: nat)
    requires x >= 1
    ensures WellSpaced(ToWords(x))
    ensures forall w :: w in Split(ToWords(x)) ==> IsToken(w)
  {
    ToWordsIsJoin(x);
    WordsAreTokens(x);
    JoinWellSpaced(Words(x));
    SplitJoin(Words(x));
    forall w | w in Split(ToWords(x)) ensures IsToken(w) {
      var k :| 0 <= k < |Words(x)| && Words(x)[k] == w;
    }
  }

  /** The result is "Zero" exactly when the floored input is 0. */
  lemma ZeroExactly(num: real)
    ensures NumberToWordsIndian(num) == Some("Zero") <==> num.Floor == 0
  {
    var n := num.Floor;
    assert Split("Zero") == ["Zero"];
    assert EvalFrom(["Zero"], 4) == 0;
    SkipAbsent(["Zero"], 0, 4);
    if n > 0 {
      ReadBack(n);
    }
  }

  /** From 100 on, the phrase is the leading part's phrase, the scale word
      (Hundred below 1000, Thousand below 10^5, Lakh below 10^7, else Crore)
      and, only when the remainder is non-zero, the remainder's phrase. */
  lemma ScaleDecomposition(x: nat)
    requires x >= 100
    ensures var unit := if x < 1000 then 100 else if x < 100000 then 1000
                        else if x < 10000000 then 100000 else 10000000;
            var scale := if x < 1000 then "Hundred" else if x < 100000 then "Thousand"
                         else if x < 10000000 then "Lakh" else "Crore";
            Split(ToWords(x)) == Split(ToWords(x / unit)) + [scale]
                                 + (if x % unit == 0 then [] else Split(ToWords(x % unit)))
  {
    var k := Level(x);
    WordsSplit(x);
    ReadBack(x);
    ReadBack(x / ScaleUnit(k));
    if x % ScaleUnit(k) != 0 {
      ReadBack(x % ScaleUnit(k));
    }
  }
}
