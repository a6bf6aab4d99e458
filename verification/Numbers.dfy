/** Units and the hand-written number reader. Positions are handed on as the tokens still to read. */
module Numbers {
  import opened Wrappers
  import opened Vocabulary
  import Decimal

  /** `tokens[index:]` with Python's clamping. */
  function From(tokens: seq<string>, index: nat): seq<string> {
    if index <= |tokens| then tokens[index..] else []
  }

  // ---- units ----

  function FirstPhrase(phrases: seq<(seq<string>, string)>, rest: seq<string>): Option<(string, nat)> {
    if phrases == [] then None
    else if phrases[0].0 <= rest then Some((phrases[0].1, |phrases[0].0|))
    else FirstPhrase(phrases[1..], rest)
  }

  /** The canonical unit the tokens start with, and how many tokens name it. */
  function ResolveUnit(rest: seq<string>): Option<(string, nat)> {
    var phrase := FirstPhrase(UNIT_PHRASES, rest);
    if phrase.Some? then phrase
    else if rest != [] && rest[0] in UNIT_WORDS then Some((UNIT_WORDS[rest[0]], 1))
    else None
  }

  function RejectedUnit(rest: seq<string>): Option<string> {
    if rest != [] && rest[0] in UNSUPPORTED_UNITS then Some(rest[0]) else None
  }

  // ---- tokens that carry a value ----

  /** The digit form: a digit, then digits and commas. */
  predicate IsDigits(token: string) {
    token != "" && Decimal.IsDigit(token[0]) && forall c <- token :: Decimal.IsDigit(c) || c == ','
  }

  function DigitsValue(token: string): nat
    requires IsDigits(token)
  {
    Decimal.Value(Decimal.StripCommas(token))
  }

  predicate IsNumberWord(token: string) { token in SMALL_NUMBERS || token in TENS || token in SCALES }

  predicate IsNumberToken(token: string) { IsDigits(token) || IsNumberWord(token) }

  function Max(a: nat, b: nat): nat { if a < b then b else a }

  /** What the reader has accumulated: finished scales, the group in progress, and whether anything was read. */
  datatype Scan = Scan(total: nat, current: nat, seen: bool)

  const START := Scan(0, 0, false)

  /** The effect of one value-carrying token. */
  function Effect(token: string, s: Scan): (r: Scan)
    requires IsNumberToken(token)
    ensures r.seen
  {
    if IsDigits(token) then Scan(s.total, s.current + DigitsValue(token), true)
    else if token in SMALL_NUMBERS then Scan(s.total, s.current + SMALL_NUMBERS[token], true)
    else if token in TENS then Scan(s.total, s.current + TENS[token], true)
    else if SCALES[token] == 100 then Scan(s.total, Max(s.current, 1) * 100, true)
    else Scan(s.total + Max(s.current, 1) * SCALES[token], 0, true)
  }

  /** Whether the article at the front stands for one: a scale or a unit must follow. */
  predicate ArticleCounts(rest: seq<string>)
    requires rest != []
  {
    (|rest| > 1 && rest[1] in SCALES) || ResolveUnit(rest[1..]).Some?
  }

  /** Whether an "and" at the front joins two parts of one number. */
  predicate AndBridges(rest: seq<string>)
    requires rest != []
  {
    |rest| > 1 && IsNumberToken(rest[1])
  }

  /** One turn of the reader: the new accumulator, or None where it stops. */
  function Absorb(rest: seq<string>, s: Scan): Option<Scan>
    requires rest != []
  {
    if IsNumberToken(rest[0]) then Some(Effect(rest[0], s))
    else if rest[0] in {"a", "an"} && !s.seen then
      if ArticleCounts(rest) then Some(Scan(s.total, s.current + 1, true)) else None
    else if rest[0] == "and" && s.seen && AndBridges(rest) then Some(s)
    else None
  }

  /** The accumulator where the reader stops, and how many tokens it used. */
  function Read(rest: seq<string>, s: Scan): (r: (Scan, nat))
    ensures r.1 <= |rest|
    ensures s.seen ==> r.0.seen
    ensures r.0.seen && !s.seen ==> r.1 > 0
  {
    if rest == [] || Absorb(rest, s).None? then (s, 0)
    else
      var (end, n) := Read(rest[1..], Absorb(rest, s).value);
      (end, n + 1)
  }

  /** The number the tokens start with, and how many tokens spell it; (None, 0) when there is none. */
  function NumberAt(rest: seq<string>): (r: (Option<nat>, nat))
    ensures r.1 <= |rest|
    ensures r.0.None? <==> r.1 == 0
  {
    var (end, n) := Read(rest, START);
    if end.seen then (Some(end.total + end.current), n) else (None, 0)
  }

  lemma AndIsNoNumber()
    ensures !IsNumberToken("and")
  {
    assert !IsDigits("and");
  }

  lemma ArticlesAreNoNumbers()
    ensures !IsNumberToken("a") && !IsNumberToken("an")
  {
    assert !IsDigits("a") && !IsDigits("an");
  }

  lemma NumberWordsAreNotConnectives()
    ensures !IsNumberToken("and") && !IsNumberToken("a") && !IsNumberToken("an")
  {
    hide IsNumberToken;
    AndIsNoNumber();
    ArticlesAreNoNumbers();
  }

  lemma ReadUnfolds(tokens: seq<string>, index: nat, s: Scan)
    ensures index >= |tokens| ==> Read(From(tokens, index), s) == (s, 0)
    ensures index < |tokens| ==>
              var next := Absorb(tokens[index..], s);
              if next.None? then Read(From(tokens, index), s) == (s, 0)
              else
                var r := Read(From(tokens, index + 1), next.value);
                Read(From(tokens, index), s) == (r.0, r.1 + 1)
  {
    if index < |tokens| {
      assert tokens[index..][1..] == tokens[index + 1..];
    }
  }

  /** The reader as the loop it is, over an index and three accumulators. */
  method ParseNumber(tokens: seq<string>, start: nat) returns (value: Option<nat>, consumed: nat)
    ensures (value, consumed) == NumberAt(From(tokens, start))
  {
    hide Vocabulary.SMALL_NUMBERS, Vocabulary.TENS, Vocabulary.SCALES, ResolveUnit, DigitsValue, IsDigits, Read;
    NumberWordsAreNotConnectives();
    var total: nat, current: nat, index: nat, seen := 0, 0, start, false;
    while index < |tokens|
      invariant start <= index && (start == index || index <= |tokens|)
      invariant Read(From(tokens, start), START).0 == Read(From(tokens, index), Scan(total, current, seen)).0
      invariant Read(From(tokens, start), START).1
             == index - start + Read(From(tokens, index), Scan(total, current, seen)).1
      decreases |tokens| - index
    {
      var token := tokens[index];
      var rest := tokens[index..];
      assert rest[0] == token && rest[1..] == From(tokens, index + 1);
      ReadUnfolds(tokens, index, Scan(total, current, seen));
      if IsDigits(token) {
        current := current + DigitsValue(token);
      } else if token in SMALL_NUMBERS {
        current := current + SMALL_NUMBERS[token];
      } else if token in TENS {
        current := current + TENS[token];
      } else if token in SCALES {
        var scale := SCALES[token];
        if scale == 100 {
          current := Max(current, 1) * 100;
        } else {
          total := total + Max(current, 1) * scale;
          current := 0;
        }
      } else if token in {"a", "an"} && !seen {
        if !((index + 1 < |tokens| && tokens[index + 1] in SCALES) || ResolveUnit(From(tokens, index + 1)).Some?) {
          break;
        }
        current := current + 1;
      } else if token == "and" && seen {
        if !(index + 1 < |tokens| && (IsNumberWord(tokens[index + 1]) || IsDigits(tokens[index + 1]))) {
          break;
        }
        index := index + 1;
        continue;
      } else {
        break;
      }
      seen := true;
      index := index + 1;
    }
    ReadUnfolds(tokens, index, Scan(total, current, seen));
    if !seen {
      return None, 0;
    }
    return Some(total + current), index - start;
  }
}
