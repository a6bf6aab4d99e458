/** What the words and digits of a number count for, one by one, in any order they come in. */
module Counting {
  import opened Wrappers
  import opened Numbers
  import Decimal
  import Lexicon
  import Vocabulary

  // ---- words ----

  /** The words that are added up as they are. */
  function Ones(w: string): Option<nat> {
    if w == "zero" then Some(0) else if w == "one" then Some(1) else if w == "two" then Some(2)
    else if w == "three" then Some(3) else if w == "four" then Some(4) else if w == "five" then Some(5)
    else if w == "six" then Some(6) else if w == "seven" then Some(7) else if w == "eight" then Some(8)
    else if w == "nine" then Some(9) else if w == "ten" then Some(10) else if w == "eleven" then Some(11)
    else if w == "twelve" then Some(12) else if w == "thirteen" then Some(13) else if w == "fourteen" then Some(14)
    else if w == "fifteen" then Some(15) else if w == "sixteen" then Some(16) else if w == "seventeen" then Some(17)
    else if w == "eighteen" then Some(18) else if w == "nineteen" then Some(19)
    else None
  }

  function Tens(w: string): Option<nat> {
    if w == "twenty" then Some(20) else if w == "thirty" then Some(30)
    else if w == "forty" || w == "fourty" then Some(40) else if w == "fifty" then Some(50)
    else if w == "sixty" then Some(60) else if w == "seventy" then Some(70) else if w == "eighty" then Some(80)
    else if w == "ninety" then Some(90)
    else None
  }

  /** The words that multiply what stands before them. */
  function Scale(w: string): Option<nat> {
    if w == "hundred" then Some(100) else if w == "thousand" then Some(1_000) else if w == "lakh" then Some(100_000)
    else if w == "million" then Some(1_000_000)
    else None
  }

  function Entry(table: map<string, nat>, w: string): Option<nat> { if w in table then Some(table[w]) else None }

  lemma KnownOnes(w: string)
    requires w in Vocabulary.SMALL_NUMBERS
    ensures Ones(w) == Some(Vocabulary.SMALL_NUMBERS[w])
  {
  }

  lemma NoOnes(w: string)
    requires w !in Vocabulary.SMALL_NUMBERS
    ensures Ones(w) == None
  {
  }

  lemma WhatWordsCount(w: string)
    ensures Entry(Vocabulary.SMALL_NUMBERS, w) == Ones(w)
    ensures Entry(Vocabulary.TENS, w) == Tens(w)
    ensures Entry(Vocabulary.SCALES, w) == Scale(w)
  {
    hide Ones, Vocabulary.SMALL_NUMBERS;
    if w in Vocabulary.SMALL_NUMBERS { KnownOnes(w); } else { NoOnes(w); }
  }

  // ---- digits ----

  /** A digit, and after it digits and commas. */
  predicate IsFigure(w: string) {
    w != "" && '0' <= w[0] <= '9' && forall i :: 0 <= i < |w| ==> '0' <= w[i] <= '9' || w[i] == ','
  }

  /** What the digits of a text say so far, whatever commas stand between them. */
  function Figure(w: string, so: nat): nat {
    if w == "" then so
    else if '0' <= w[0] <= '9' then Figure(w[1..], 10 * so + (w[0] as int - '0' as int))
    else Figure(w[1..], so)
  }

  lemma FigureIsDigits(w: string)
    ensures IsFigure(w) <==> IsDigits(w)
  {
    if IsDigits(w) { assert forall i :: 0 <= i < |w| ==> w[i] in w; }
  }

  lemma {:induction false} StrippedIsDigits(w: string)
    requires forall i :: 0 <= i < |w| ==> '0' <= w[i] <= '9' || w[i] == ','
    ensures Decimal.AllDigits(Decimal.StripCommas(w))
  {
    if w != "" { StrippedIsDigits(w[1..]); }
  }

  lemma {:induction false} FigureIsValue(front: string, w: string)
    requires Decimal.AllDigits(front)
    requires forall i :: 0 <= i < |w| ==> '0' <= w[i] <= '9' || w[i] == ','
    ensures Decimal.AllDigits(front + Decimal.StripCommas(w))
    ensures Decimal.Value(front + Decimal.StripCommas(w)) == Figure(w, Decimal.Value(front))
    decreases |w|
  {
    hide Decimal.Value;
    if w == "" {
      assert front + "" == front;
    } else if w[0] == ',' {
      FigureIsValue(front, w[1..]);
    } else {
      Decimal.ValueAppend(front, w[0]);
      FigureIsValue(front + [w[0]], w[1..]);
      assert front + ([w[0]] + Decimal.StripCommas(w[1..])) == front + [w[0]] + Decimal.StripCommas(w[1..]);
    }
  }

  /** The figures a token stands for. */
  lemma WhatDigitsCount(w: string)
    requires IsFigure(w)
    ensures IsDigits(w) && DigitsValue(w) == Figure(w, 0)
  {
    FigureIsDigits(w);
    FigureIsValue("", w);
    assert "" + Decimal.StripCommas(w) == Decimal.StripCommas(w);
  }

  // ---- the reader ----

  /** A token with a value of its own. */
  predicate HasValue(w: string) { IsFigure(w) || Ones(w).Some? || Tens(w).Some? || Scale(w).Some? }

  /** An article counts as one before a scale or a unit, as long as nothing has been read. */
  predicate IsCounted(rest: seq<string>)
    requires rest != []
  {
    (rest[0] == "a" || rest[0] == "an")
    && ((|rest| > 1 && Scale(rest[1]).Some?) || Lexicon.NamedUnit(rest[1..]).Some?)
  }

  /** An "and" joins what has been read to a token with a value. */
  predicate IsJoint(rest: seq<string>)
    requires rest != []
  {
    rest[0] == "and" && |rest| > 1 && HasValue(rest[1])
  }

  lemma WhatHasValue(w: string)
    ensures IsNumberToken(w) <==> HasValue(w)
  {
    hide Ones, Tens, Scale, Vocabulary.SMALL_NUMBERS, Vocabulary.TENS, Vocabulary.SCALES, IsFigure, IsDigits;
    FigureIsDigits(w);
    WhatWordsCount(w);
  }

  /**
   * The number that the tokens start with, after what has been read so far: figures and plain words are added to the
   * group, "hundred" multiplies the group, a larger scale closes it, and the first token that fits none of this ends
   * the number.
   */
  function Counted(rest: seq<string>, total: nat, group: nat, seen: bool): (nat, bool, nat)
    decreases |rest|
  {
    if rest == [] then (total + group, seen, 0)
    else if IsFigure(rest[0]) then OneMore(Counted(rest[1..], total, group + Figure(rest[0], 0), true))
    else if Ones(rest[0]).Some? then OneMore(Counted(rest[1..], total, group + Ones(rest[0]).value, true))
    else if Tens(rest[0]).Some? then OneMore(Counted(rest[1..], total, group + Tens(rest[0]).value, true))
    else if rest[0] == "hundred" then OneMore(Counted(rest[1..], total, 100 * AtLeastOne(group), true))
    else if Scale(rest[0]).Some? then
      OneMore(Counted(rest[1..], total + Scale(rest[0]).value * AtLeastOne(group), 0, true))
    else if !seen && IsCounted(rest) then OneMore(Counted(rest[1..], total, group + 1, true))
    else if seen && IsJoint(rest) then OneMore(Counted(rest[1..], total, group, true))
    else (total + group, seen, 0)
  }

  function AtLeastOne(n: nat): nat { if n == 0 then 1 else n }

  function OneMore(r: (nat, bool, nat)): (nat, bool, nat) { (r.0, r.1, r.2 + 1) }

  lemma WhatOneTokenAdds(w: string, s: Scan)
    requires HasValue(w)
    ensures IsNumberToken(w)
    ensures Effect(w, s)
         == if IsFigure(w) then Scan(s.total, s.current + Figure(w, 0), true)
            else if Ones(w).Some? then Scan(s.total, s.current + Ones(w).value, true)
            else if Tens(w).Some? then Scan(s.total, s.current + Tens(w).value, true)
            else if w == "hundred" then Scan(s.total, 100 * AtLeastOne(s.current), true)
            else Scan(s.total + Scale(w).value * AtLeastOne(s.current), 0, true)
  {
    hide Ones, Tens, Scale, Vocabulary.SMALL_NUMBERS, Vocabulary.TENS, Vocabulary.SCALES, IsFigure, IsDigits, Figure,
         DigitsValue;
    WhatHasValue(w);
    WhatWordsCount(w);
    FigureIsDigits(w);
    HundredIsScale(w);
    if IsFigure(w) { WhatDigitsCount(w); }
  }

  lemma HundredIsScale(w: string)
    ensures Scale(w) == Some(100) <==> w == "hundred"
  {
  }

  lemma WordsAreApart(w: string)
    requires w == "a" || w == "an" || w == "and"
    ensures !HasValue(w)
  {
  }

  lemma WhenAnArticleCounts(rest: seq<string>)
    requires rest != []
    ensures ArticleCounts(rest) <==> (|rest| > 1 && Scale(rest[1]).Some?) || Lexicon.NamedUnit(rest[1..]).Some?
    ensures AndBridges(rest) <==> |rest| > 1 && HasValue(rest[1])
  {
    hide Scale, Vocabulary.SCALES, IsNumberToken, HasValue, ResolveUnit, Lexicon.NamedUnit;
    Lexicon.WhatUnitIsNamed(rest[1..]);
    if |rest| > 1 {
      WhatWordsCount(rest[1]);
      WhatHasValue(rest[1]);
    }
  }

  lemma {:induction false} ReadIsCounted(rest: seq<string>, s: Scan)
    ensures var (end, n) := Read(rest, s);
            Counted(rest, s.total, s.current, s.seen) == (end.total + end.current, end.seen, n)
    decreases |rest|
  {
    hide HasValue, IsFigure, Ones, Tens, Scale, Effect, IsNumberToken, ArticleCounts, AndBridges, Lexicon.NamedUnit,
         Figure;
    if rest != [] {
      WhatHasValue(rest[0]);
      WhenAnArticleCounts(rest);
      ValueIsOneOfThese(rest[0]);
      if HasValue(rest[0]) { WhatOneTokenAdds(rest[0], s); }
      if Absorb(rest, s).Some? { ReadIsCounted(rest[1..], Absorb(rest, s).value); }
    }
  }

  lemma ValueIsOneOfThese(w: string)
    ensures HasValue(w) <==> IsFigure(w) || Ones(w).Some? || Tens(w).Some? || w == "hundred" || Scale(w).Some?
    ensures w == "a" || w == "an" || w == "and" ==> !HasValue(w)
  {
    hide Ones, Tens, IsFigure;
    if w == "a" || w == "an" || w == "and" { WordsAreApart(w); }
  }

  /** What any tokens are read as: their number and how many of them it takes, or no number. */
  lemma WhatIsRead(tokens: seq<string>)
    ensures var (number, seen, used) := Counted(tokens, 0, 0, false);
            NumberAt(tokens) == if seen then (Some(number), used) else (None, 0)
  {
    hide Counted, Read;
    ReadIsCounted(tokens, START);
  }
}
