/** Spelled-out numbers, and what the reader makes of them. */
module Spelling {
  import opened Wrappers
  import opened Vocabulary
  import opened Numbers
  import Decimal

  const SMALL_WORDS: seq<string> := [
    "zero", "one", "two", "three", "four", "five", "six", "seven", "eight", "nine", "ten",
    "eleven", "twelve", "thirteen", "fourteen", "fifteen", "sixteen", "seventeen", "eighteen", "nineteen"]

  const TENS_WORDS: seq<string> := [
    "twenty", "thirty", "forty", "fifty", "sixty", "seventy", "eighty", "ninety"]

  // ---- how a number is spelled ----

  function SpellBelowHundred(n: nat): seq<string>
    requires 0 < n < 100
  {
    if n < 20 then [SMALL_WORDS[n]]
    else [TENS_WORDS[n / 10 - 2]] + if n % 10 == 0 then [] else [SMALL_WORDS[n % 10]]
  }

  function SpellGroup(n: nat): seq<string>
    requires 0 < n < 1000
  {
    if n < 100 then SpellBelowHundred(n)
    else [SMALL_WORDS[n / 100], "hundred"] + if n % 100 == 0 then [] else SpellBelowHundred(n % 100)
  }

  /** A group with its scale word; nothing at all for an empty group. */
  function SpellScaled(n: nat, scale: string): seq<string>
    requires n < 1000
  {
    if n == 0 then [] else SpellGroup(n) + [scale]
  }

  /** The thousands of a number; with `lakhs` they are split once more. */
  function SpellThousands(k: nat, lakhs: bool): seq<string>
    requires k < 1000
  {
    if lakhs then SpellScaled(k / 100, "lakh") + SpellScaled(k % 100, "thousand") else SpellScaled(k, "thousand")
  }

  /** Millions, then thousands, then the last group. */
  function Spell(n: nat, lakhs: bool): seq<string>
    requires n < 1_000_000_000
  {
    if n == 0 then ["zero"]
    else
      SpellScaled(n / 1_000_000, "million")
      + SpellThousands(n / 1_000 % 1_000, lakhs)
      + if n % 1_000 == 0 then [] else SpellGroup(n % 1_000)
  }

  /** `spelled` is `words` with an "and" allowed between any two neighbours. */
  predicate WithAnds(words: seq<string>, spelled: seq<string>)
    decreases |spelled|
  {
    if |words| <= 1 then spelled == words
    else
      && spelled != [] && spelled[0] == words[0]
      && (|| WithAnds(words[1..], spelled[1..])
          || (|spelled| > 1 && spelled[1] == "and" && WithAnds(words[1..], spelled[2..])))
  }

  /** The tokens go on with the number that has just been read. */
  predicate Continues(rest: seq<string>) {
    rest != [] && (IsNumberToken(rest[0]) || (rest[0] == "and" && AndBridges(rest)))
  }

  // ---- folding the value-carrying words ----

  ghost predicate AllNumberTokens(words: seq<string>) { forall w <- words :: IsNumberToken(w) }

  ghost function Fold(words: seq<string>, s: Scan): Scan
    requires AllNumberTokens(words)
  {
    if words == [] then s else Fold(words[1..], Effect(words[0], s))
  }

  lemma {:induction false} FoldConcat(a: seq<string>, b: seq<string>, s: Scan)
    requires AllNumberTokens(a) && AllNumberTokens(b)
    ensures AllNumberTokens(a + b)
    ensures Fold(a + b, s) == Fold(b, Fold(a, s))
  {
    if a == [] {
      assert a + b == b;
    } else {
      assert (a + b)[1..] == a[1..] + b;
      FoldConcat(a[1..], b, Effect(a[0], s));
    }
  }

  lemma {:induction false} FoldOne(w: string, s: Scan)
    requires IsNumberToken(w)
    ensures AllNumberTokens([w]) && Fold([w], s) == Effect(w, s)
  {
    assert [w][1..] == [];
  }

  lemma SmallWord(d: nat, s: Scan)
    requires d < 20
    ensures var w := SMALL_WORDS[d];
            IsNumberToken(w) && Effect(w, s) == Scan(s.total, s.current + d, true)
  {
    assert SMALL_WORDS[d] in SMALL_NUMBERS && SMALL_NUMBERS[SMALL_WORDS[d]] == d;
    assert !IsDigits(SMALL_WORDS[d]);
  }

  lemma TensWord(d: nat, s: Scan)
    requires 2 <= d < 10
    ensures var w := TENS_WORDS[d - 2];
            IsNumberToken(w) && Effect(w, s) == Scan(s.total, s.current + 10 * d, true)
  {
    var w := TENS_WORDS[d - 2];
    assert w !in SMALL_NUMBERS;
    assert w in TENS && TENS[w] == 10 * d;
    assert !IsDigits(w);
  }

  lemma Hundred(s: Scan)
    ensures IsNumberToken("hundred") && Effect("hundred", s) == Scan(s.total, Max(s.current, 1) * 100, true)
  {
    assert !IsDigits("hundred") && "hundred" !in SMALL_NUMBERS && "hundred" !in TENS;
    assert "hundred" in SCALES && SCALES["hundred"] == 100;
  }

  ghost predicate IsScale(scale: string, value: nat) {
    || (scale == "thousand" && value == 1_000)
    || (scale == "lakh" && value == 100_000)
    || (scale == "million" && value == 1_000_000)
  }

  lemma ScaleWord(scale: string, value: nat, s: Scan)
    requires IsScale(scale, value)
    ensures IsNumberToken(scale) && Effect(scale, s) == Scan(s.total + Max(s.current, 1) * value, 0, true)
  {
    assert !IsDigits(scale) && scale !in SMALL_NUMBERS && scale !in TENS;
    assert scale in SCALES && SCALES[scale] == value;
  }

  lemma {:induction false} FoldBelowHundred(n: nat, s: Scan)
    requires 0 < n < 100
    ensures AllNumberTokens(SpellBelowHundred(n))
    ensures Fold(SpellBelowHundred(n), s) == Scan(s.total, s.current + n, true)
  {
    hide IsNumberToken, Effect;
    if n < 20 {
      SmallWord(n, s);
      FoldOne(SMALL_WORDS[n], s);
    } else {
      TensWord(n / 10, s);
      FoldOne(TENS_WORDS[n / 10 - 2], s);
      if n % 10 != 0 {
        var t := Scan(s.total, s.current + n / 10 * 10, true);
        SmallWord(n % 10, t);
        FoldOne(SMALL_WORDS[n % 10], t);
        FoldConcat([TENS_WORDS[n / 10 - 2]], [SMALL_WORDS[n % 10]], s);
      } else {
        assert SpellBelowHundred(n) == [TENS_WORDS[n / 10 - 2]];
      }
    }
  }

  lemma {:induction false} FoldGroup(n: nat, s: Scan)
    requires 0 < n < 1000 && s.current == 0
    ensures AllNumberTokens(SpellGroup(n))
    ensures Fold(SpellGroup(n), s) == Scan(s.total, n, true)
  {
    hide IsNumberToken, Effect, SpellBelowHundred;
    if n < 100 {
      FoldBelowHundred(n, s);
    } else {
      var hundreds := [SMALL_WORDS[n / 100], "hundred"];
      var t := Scan(s.total, n / 100, true);
      SmallWord(n / 100, s);
      FoldOne(SMALL_WORDS[n / 100], s);
      Hundred(t);
      FoldOne("hundred", t);
      FoldConcat([SMALL_WORDS[n / 100]], ["hundred"], s);
      assert hundreds == [SMALL_WORDS[n / 100]] + ["hundred"];
      var u := Scan(s.total, n / 100 * 100, true);
      assert Fold(hundreds, s) == u;
      if n % 100 != 0 {
        FoldBelowHundred(n % 100, u);
        FoldConcat(hundreds, SpellBelowHundred(n % 100), s);
      } else {
        assert SpellGroup(n) == hundreds;
      }
    }
  }

  lemma {:induction false} FoldScaled(n: nat, scale: string, value: nat, s: Scan)
    requires n < 1000 && s.current == 0 && IsScale(scale, value)
    ensures AllNumberTokens(SpellScaled(n, scale))
    ensures Fold(SpellScaled(n, scale), s) == Scan(s.total + n * value, 0, n > 0 || s.seen)
  {
    hide IsNumberToken, Effect, SpellGroup;
    if n > 0 {
      FoldGroup(n, s);
      var t := Scan(s.total, n, true);
      ScaleWord(scale, value, t);
      FoldOne(scale, t);
      FoldConcat(SpellGroup(n), [scale], s);
    }
  }

  lemma {:induction false} FoldThousands(k: nat, lakhs: bool, s: Scan)
    requires k < 1000 && s.current == 0
    ensures AllNumberTokens(SpellThousands(k, lakhs))
    ensures Fold(SpellThousands(k, lakhs), s) == Scan(s.total + k * 1_000, 0, k > 0 || s.seen)
  {
    hide IsNumberToken, Effect, SpellScaled;
    if lakhs {
      var t := Scan(s.total + k / 100 * 100_000, 0, k / 100 > 0 || s.seen);
      FoldScaled(k / 100, "lakh", 100_000, s);
      FoldScaled(k % 100, "thousand", 1_000, t);
      FoldConcat(SpellScaled(k / 100, "lakh"), SpellScaled(k % 100, "thousand"), s);
    } else {
      FoldScaled(k, "thousand", 1_000, s);
    }
  }

  lemma {:induction false} FoldSpelling(n: nat, lakhs: bool)
    requires n < 1_000_000_000
    ensures Spell(n, lakhs) != [] && AllNumberTokens(Spell(n, lakhs))
    ensures Fold(Spell(n, lakhs), START).total + Fold(Spell(n, lakhs), START).current == n
  {
    hide IsNumberToken, Effect, SpellGroup, SpellScaled, SpellThousands;
    if n == 0 {
      SmallWord(0, START);
      FoldOne("zero", START);
    } else {
      var m, k, h := n / 1_000_000, n / 1_000 % 1_000, n % 1_000;
      var millions, thousands := SpellScaled(m, "million"), SpellThousands(k, lakhs);
      var last := if h == 0 then [] else SpellGroup(h);
      var t := Scan(m * 1_000_000, 0, m > 0);
      var u := Scan(m * 1_000_000 + k * 1_000, 0, m > 0 || k > 0);
      FoldScaled(m, "million", 1_000_000, START);
      FoldThousands(k, lakhs, t);
      FoldConcat(millions, thousands, START);
      if h > 0 { FoldGroup(h, u); }
      FoldConcat(millions + thousands, last, START);
      assert n == m * 1_000_000 + k * 1_000 + h;
      assert Fold(Spell(n, lakhs), START) == Scan(u.total, h, true);
    }
  }

  // ---- reading a spelling back ----

  /** The reader goes through any spelling of the words, and stops where nothing continues it. */
  lemma {:induction false} ReadSpelling(words: seq<string>, spelled: seq<string>, post: seq<string>, s: Scan)
    requires words != [] && AllNumberTokens(words) && WithAnds(words, spelled) && !Continues(post)
    ensures spelled != [] && Read(spelled + post, s) == (Fold(words, s), |spelled|)
    decreases |spelled|
  {
    hide IsNumberToken, Effect;
    var all := spelled + post;
    var s' := Effect(words[0], s);
    NumberWordsAreNotConnectives();
    assert all[0] == words[0] && Absorb(all, s) == Some(s') && s'.seen;
    assert all[1..] == spelled[1..] + post;
    if |words| == 1 {
      assert all[1..] == post;
      assert post == [] || Absorb(post, s').None?;
    } else if WithAnds(words[1..], spelled[1..]) {
      ReadSpelling(words[1..], spelled[1..], post, s');
    } else {
      assert all[1..][1..] == spelled[2..] + post;
      assert spelled[2..][0] == words[1] && all[1..][0] == "and" && all[1..][1] == words[1];
      assert Absorb(all[1..], s') == Some(s');
      ReadSpelling(words[1..], spelled[2..], post, s');
    }
  }

  /** Every spelling of every number below a thousand million is read back whole, whatever stands around it. */
  lemma {:induction false} SpelledNumbersReadBack(
      n: nat, lakhs: bool, spelled: seq<string>, before: seq<string>, after: seq<string>)
    requires n < 1_000_000_000 && WithAnds(Spell(n, lakhs), spelled) && !Continues(after)
    ensures NumberAt(From(before + spelled + after, |before|)) == (Some(n), |spelled|)
  {
    hide IsNumberToken, Effect, Spell, WithAnds;
    assert From(before + spelled + after, |before|) == spelled + after;
    FoldSpelling(n, lakhs);
    ReadSpelling(Spell(n, lakhs), spelled, after, START);
  }

  lemma DigitToken(n: nat, grouped: bool)
    ensures var token := if grouped then Decimal.PrintGrouped(n) else Decimal.Print(n);
            IsDigits(token) && DigitsValue(token) == n
  {
    var token := if grouped then Decimal.PrintGrouped(n) else Decimal.Print(n);
    assert token[0] in token;
    if grouped {
      Decimal.PrintGroupedValue(n);
    } else {
      Decimal.StripCommasDigits(token);
      Decimal.PrintValue(n);
    }
  }

  /** Plain and comma-grouped digit tokens read back too, at any size. */
  lemma {:induction false} DigitTokensReadBack(n: nat, grouped: bool, before: seq<string>, after: seq<string>)
    requires !Continues(after)
    ensures var token := if grouped then Decimal.PrintGrouped(n) else Decimal.Print(n);
            NumberAt(From(before + [token] + after, |before|)) == (Some(n), 1)
  {
    hide IsDigits, DigitsValue, IsNumberWord, Continues, Decimal.Print, Decimal.PrintGrouped;
    var token := if grouped then Decimal.PrintGrouped(n) else Decimal.Print(n);
    DigitToken(n, grouped);
    assert From(before + [token] + after, |before|) == [token] + after;
    FoldOne(token, START);
    ReadSpelling([token], [token], after, START);
  }

  /** "a tonne" and "a hundred" read as "one tonne" and "one hundred"; any other article is no number. */
  lemma ArticleReadsAsOne(article: string, rest: seq<string>)
    requires article in {"a", "an"}
    ensures ArticleCounts([article] + rest) ==> NumberAt([article] + rest) == NumberAt(["one"] + rest)
    ensures !ArticleCounts([article] + rest) ==> NumberAt([article] + rest) == (None, 0)
  {
    hide IsNumberToken, Effect, ResolveUnit, Vocabulary.SCALES;
    NumberWordsAreNotConnectives();
    SmallWord(1, START);
    assert SMALL_WORDS[1] == "one";
    assert ([article] + rest)[1..] == rest && (["one"] + rest)[1..] == rest;
  }

  /** Where the reader stops depends on the tokens alone, not on what it has added up so far. */
  lemma {:induction false} StopIsIndependent(rest: seq<string>, s: Scan, t: Scan)
    requires s.seen && t.seen
    ensures Read(rest, s).1 == Read(rest, t).1
  {
    if rest != [] && Absorb(rest, s).Some? {
      StopIsIndependent(rest[1..], Absorb(rest, s).value, Absorb(rest, t).value);
    }
  }
}
