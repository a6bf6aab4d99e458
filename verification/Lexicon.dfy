/** What the words of a request mean, word by word: units, fillers, noise, contractions, and the fields of a draft. */
module Lexicon {
  import opened Wrappers
  import opened Extraction
  import opened Numbers
  import Quantities
  import Tokeniser
  import Vocabulary

  // ---- units ----

  predicate IsKilogram(w: string) {
    || w == "kg" || w == "kgs" || w == "kilo" || w == "kilos" || w == "kilogram" || w == "kilograms"
    || w == "kilogramme" || w == "kilogrammes"
  }

  predicate IsTonne(w: string) {
    w == "tonnes" || w == "tonne" || w == "tons" || w == "ton" || w == "t" || w == "mt" || w == "mts"
  }

  predicate IsPiece(w: string) {
    w == "unit" || w == "units" || w == "piece" || w == "pieces" || w == "pc" || w == "pcs"
  }

  /** "metric" before one of its four words. */
  predicate IsMetricTonne(rest: seq<string>) {
    |rest| >= 2 && rest[0] == "metric"
    && (rest[1] == "tonnes" || rest[1] == "tonne" || rest[1] == "tons" || rest[1] == "ton")
  }

  lemma NextPhrase(first: (seq<string>, string), others: seq<(seq<string>, string)>, rest: seq<string>)
    ensures FirstPhrase([first] + others, rest)
         == if first.0 <= rest then Some((first.1, |first.0|)) else FirstPhrase(others, rest)
    ensures FirstPhrase([], rest) == None
  {
    assert ([first] + others)[1..] == others;
  }

  lemma PhraseIsMetric(rest: seq<string>)
    ensures FirstPhrase(Vocabulary.UNIT_PHRASES, rest) == if IsMetricTonne(rest) then Some(("tonnes", 2)) else None
  {
    hide FirstPhrase;
    var p := Vocabulary.UNIT_PHRASES;
    assert p == [p[0]] + ([p[1]] + ([p[2]] + ([p[3]] + [])));
    NextPhrase(p[0], [p[1]] + ([p[2]] + ([p[3]] + [])), rest);
    NextPhrase(p[1], [p[2]] + ([p[3]] + []), rest);
    NextPhrase(p[2], [p[3]] + [], rest);
    NextPhrase(p[3], [], rest);
    PhrasePair("metric", "tonnes", rest);
    PhrasePair("metric", "tonne", rest);
    PhrasePair("metric", "tons", rest);
    PhrasePair("metric", "ton", rest);
  }

  lemma PhrasePair(a: string, b: string, rest: seq<string>)
    ensures [a, b] <= rest <==> |rest| >= 2 && rest[0] == a && rest[1] == b
  {
  }

  lemma KilogramWord(w: string)
    requires IsKilogram(w)
    ensures w in Vocabulary.UNIT_WORDS && Vocabulary.UNIT_WORDS[w] == "kg"
  {
  }

  lemma TonneWord(w: string)
    requires IsTonne(w)
    ensures w in Vocabulary.UNIT_WORDS && Vocabulary.UNIT_WORDS[w] == "tonnes"
  {
  }

  lemma PieceWord(w: string)
    requires IsPiece(w)
    ensures w in Vocabulary.UNIT_WORDS && Vocabulary.UNIT_WORDS[w] == "units"
  {
  }

  lemma OnlyUnitWords(w: string)
    requires w in Vocabulary.UNIT_WORDS
    ensures IsKilogram(w) || IsTonne(w) || IsPiece(w)
  {
  }

  lemma UnitWord(w: string)
    ensures w in Vocabulary.UNIT_WORDS <==> IsKilogram(w) || IsTonne(w) || IsPiece(w)
    ensures IsKilogram(w) ==> Vocabulary.UNIT_WORDS[w] == "kg"
    ensures IsTonne(w) ==> Vocabulary.UNIT_WORDS[w] == "tonnes"
    ensures IsPiece(w) ==> Vocabulary.UNIT_WORDS[w] == "units"
  {
    hide Vocabulary.UNIT_WORDS, IsKilogram, IsTonne, IsPiece;
    if IsKilogram(w) { KilogramWord(w); }
    if IsTonne(w) { TonneWord(w); }
    if IsPiece(w) { PieceWord(w); }
    if w in Vocabulary.UNIT_WORDS { OnlyUnitWords(w); }
  }

  lemma KindsOfUnits(w: string)
    ensures !(IsKilogram(w) && IsTonne(w)) && !(IsKilogram(w) && IsPiece(w)) && !(IsTonne(w) && IsPiece(w))
    ensures w == "metric" ==> !IsKilogram(w) && !IsTonne(w) && !IsPiece(w)
  {
  }

  /**
   * The unit that the tokens start with: kilograms, tonnes or pieces by their words, or tonnes by "metric" and one of
   * its words, and nothing else.
   */
  function NamedUnit(rest: seq<string>): Option<(string, nat)> {
    if IsMetricTonne(rest) then Some(("tonnes", 2))
    else if rest == [] then None
    else if IsKilogram(rest[0]) then Some(("kg", 1))
    else if IsTonne(rest[0]) then Some(("tonnes", 1))
    else if IsPiece(rest[0]) then Some(("units", 1))
    else None
  }

  lemma WhatUnitIsNamed(rest: seq<string>)
    ensures ResolveUnit(rest) == NamedUnit(rest)
  {
    hide FirstPhrase, Vocabulary.UNIT_PHRASES, Vocabulary.UNIT_WORDS, IsKilogram, IsTonne, IsPiece;
    PhraseIsMetric(rest);
    if rest != [] {
      UnitWord(rest[0]);
      KindsOfUnits(rest[0]);
    }
  }

  /** Units that are understood but not dealt in. */
  predicate IsUnsupported(w: string) {
    || w == "bag" || w == "bags" || w == "sack" || w == "sacks" || w == "carton" || w == "cartons" || w == "box"
    || w == "boxes" || w == "crate" || w == "crates" || w == "container" || w == "containers" || w == "pallet"
    || w == "pallets" || w == "quintal" || w == "quintals" || w == "litre" || w == "litres" || w == "liter"
    || w == "liters" || w == "lb" || w == "lbs" || w == "pound" || w == "pounds" || w == "bushel" || w == "bushels"
    || w == "truckload" || w == "truckloads"
  }

  lemma WhatUnitIsRejected(rest: seq<string>)
    ensures RejectedUnit(rest) == if rest != [] && IsUnsupported(rest[0]) then Some(rest[0]) else None
  {
  }

  // ---- words around a field ----

  predicate IsFiller(w: string) {
    || w == "please" || w == "thanks" || w == "thank" || w == "you" || w == "asap" || w == "urgently" || w == "urgent"
    || w == "immediately" || w == "soon" || w == "quickly" || w == "now" || w == "today" || w == "tomorrow"
    || w == "ok" || w == "okay" || w == "cheers" || w == "kindly"
  }

  predicate IsArticle(w: string) {
    w == "a" || w == "an" || w == "the" || w == "some" || w == "any" || w == "me" || w == "us"
  }

  predicate IsNoise(w: string) {
    || w == "for" || w == "to" || w == "of" || w == "delivery" || w == "shipment" || w == "export" || w == "exports"
    || w == "delivered" || w == "shipped" || w == "shipping" || w == "destined" || w == "bound" || w == "deliver"
    || w == "ship" || w == "send" || w == "sending" || w == "dispatch" || w == "dispatched" || w == "consignment"
  }

  lemma FillerWord(w: string)
    ensures w in Vocabulary.TRAILING_FILLER <==> IsFiller(w)
  {
  }

  lemma ArticleWord(w: string)
    ensures w in Vocabulary.LEADING_ARTICLES <==> IsArticle(w)
  {
  }

  lemma NoiseWord(w: string)
    ensures w in Vocabulary.PRODUCT_TRAILING_NOISE <==> IsNoise(w)
  {
  }

  /** What is left of the words between the articles in front and the fillers behind. */
  ghost predicate IsCore(words: seq<string>, core: seq<string>) {
    exists i, j :: IsCoreAt(words, i, j, core)
  }

  predicate IsCoreAt(words: seq<string>, i: int, j: int, core: seq<string>) {
    && 0 <= i <= j <= |words| && core == words[i..j]
    && (forall k :: 0 <= k < i ==> IsArticle(words[k])) && (forall k :: j <= k < |words| ==> IsFiller(words[k]))
    && (i < j ==> !IsArticle(words[i]) && !IsFiller(words[j - 1]))
  }

  lemma CoreIsStripped(words: seq<string>)
    ensures IsCore(words, StripFiller(words))
  {
    hide Vocabulary.TRAILING_FILLER, Vocabulary.LEADING_ARTICLES, StripTrailing, StripLeading, IsFiller, IsArticle;
    var front := StripTrailing(words, Vocabulary.TRAILING_FILLER);
    var core := StripLeading(front, Vocabulary.LEADING_ARTICLES);
    var i, j := |front| - |core|, |front|;
    forall w ensures w in Vocabulary.TRAILING_FILLER <==> IsFiller(w) { FillerWord(w); }
    forall w ensures w in Vocabulary.LEADING_ARTICLES <==> IsArticle(w) { ArticleWord(w); }
    assert core == front[i..] && front == words[..j];
    assert core == words[i..j];
    forall k | 0 <= k < i ensures IsArticle(words[k]) { assert front[..i][k] == words[k]; }
    forall k | j <= k < |words| ensures IsFiller(words[k]) { assert words[j..][k - j] == words[k]; }
    if i < j { assert core[0] == words[i] && front[|front| - 1] == words[j - 1]; }
    assert IsCoreAt(words, i, j, core);
  }

  /** The words without the noise at their end. */
  predicate IsQuiet(words: seq<string>, quiet: seq<string>) {
    && quiet <= words && (forall k :: |quiet| <= k < |words| ==> IsNoise(words[k]))
    && (quiet != [] ==> !IsNoise(quiet[|quiet| - 1]))
  }

  lemma QuietIsStripped(words: seq<string>)
    ensures IsQuiet(words, StripProductNoise(words))
  {
    hide Vocabulary.PRODUCT_TRAILING_NOISE, StripTrailing, IsNoise;
    var quiet := StripProductNoise(words);
    forall w ensures w in Vocabulary.PRODUCT_TRAILING_NOISE <==> IsNoise(w) { NoiseWord(w); }
    forall k | |quiet| <= k < |words| ensures IsNoise(words[k]) { assert words[|quiet|..][k - |quiet|] == words[k]; }
  }

  /** The last "to", or without any "to" the last "for". */
  predicate IsMarker(words: seq<string>, m: nat) {
    && m < |words|
    && ((words[m] == "to" && "to" !in words[m + 1..])
        || (words[m] == "for" && "to" !in words && "for" !in words[m + 1..]))
  }

  /**
   * The product and the place in the words behind the unit: an "of" in front is dropped; behind the marker stands the
   * place, before it the product; without a marker there is no place.
   */
  ghost predicate AreFields(rest: seq<string>, product: seq<string>, place: Option<seq<string>>) {
    if rest != [] && rest[0] == "of" then AreFieldsOf(rest[1..], product, place) else AreFieldsOf(rest, product, place)
  }

  ghost predicate AreFieldsOf(body: seq<string>, product: seq<string>, place: Option<seq<string>>) {
    if place.None? then "to" !in body && "for" !in body && IsCore(body, product)
    else exists m: nat, core :: SplitsAt(body, m, core, product, place.value)
  }

  ghost predicate SplitsAt(
      body: seq<string>, m: nat, core: seq<string>, product: seq<string>, place: seq<string>) {
    IsMarker(body, m) && IsCore(body[..m], core) && IsQuiet(core, product) && IsCore(body[m + 1..], place)
  }

  lemma MarkerIsMarker(body: seq<string>)
    ensures var hit := DestinationMarker(body);
            if hit.None? then "to" !in body && "for" !in body else IsMarker(body, hit.value.0) && hit.value.1 == 1
  {
    hide LastIndex;
    var hit := DestinationMarker(body);
    if hit.Some? {
      var m := hit.value.0;
      assert forall k :: m + 1 <= k < |body| ==> body[m + 1..][k - m - 1] == body[k];
    }
  }

  lemma FieldsAreFields(rest: seq<string>)
    ensures AreFields(rest, Fields(rest).0, Fields(rest).1)
  {
    hide StripFiller, StripProductNoise, DestinationMarker, AreFieldsOf;
    BodyFields(if rest != [] && rest[0] == "of" then rest[1..] else rest);
  }

  lemma BodyFields(body: seq<string>)
    ensures var hit := DestinationMarker(body);
            match hit
            case None => AreFieldsOf(body, StripFiller(body), None)
            case Some((at, length)) =>
              AreFieldsOf(body, StripProductNoise(StripFiller(body[..at])), Some(StripFiller(body[at + length..])))
  {
    hide StripFiller, StripProductNoise, IsCore, IsQuiet, DestinationMarker, IsMarker;
    var hit := DestinationMarker(body);
    MarkerIsMarker(body);
    if hit.None? {
      CoreIsStripped(body);
    } else {
      var m: nat := hit.value.0;
      var core := StripFiller(body[..m]);
      CoreIsStripped(body[..m]);
      QuietIsStripped(core);
      CoreIsStripped(body[m + 1..]);
      assert SplitsAt(body, m, core, StripProductNoise(core), StripFiller(body[m + 1..]));
    }
  }

  // ---- the whole extraction ----

  /** A number with a unit right behind it, of ours or not. */
  predicate IsQuantityAt(tokens: seq<string>, k: nat) {
    && k < |tokens| && NumberAt(tokens[k..]).0.Some?
    && var rest := tokens[k + NumberAt(tokens[k..]).1..];
       NamedUnit(rest).Some? || (rest != [] && IsUnsupported(rest[0]))
  }

  predicate IsFirstQuantity(tokens: seq<string>, k: nat) {
    IsQuantityAt(tokens, k) && forall j :: 0 <= j < k ==> !IsQuantityAt(tokens, j)
  }

  lemma QuantityIsAccepted(tokens: seq<string>, k: nat)
    ensures IsQuantityAt(tokens, k) <==> Quantities.Accepts(tokens, k)
  {
    hide NumberAt, ResolveUnit, RejectedUnit, NamedUnit, IsUnsupported;
    if k < |tokens| && NumberAt(tokens[k..]).0.Some? {
      WhatUnitIsNamed(tokens[k + NumberAt(tokens[k..]).1..]);
      WhatUnitIsRejected(tokens[k + NumberAt(tokens[k..]).1..]);
    }
  }

  /** What the words behind a quantity and its unit make of the request. */
  ghost predicate IsVerdict(e: EnquiryExtraction, quantity: nat, unit: string, rest: seq<string>) {
    exists product, place ::
      AreFields(rest, product, place)
      && IsVerdictOn(e, quantity, unit, product, if place.Some? then place.value else [])
  }

  predicate IsVerdictOn(
      e: EnquiryExtraction, quantity: nat, unit: string, product: seq<string>, place: seq<string>) {
    && e.unsupportedUnit == None
    && if product != [] && place != [] then
         && e.draft == Some(EnquiryDraft(Titlecase(product), quantity, unit, Titlecase(place)))
         && e.missing == [] && e.partial == Partial(None, None, None, None)
       else
         && e.draft == None
         && e.missing == (if product == [] then ["product"] else []) + (if place == [] then ["destination"] else [])
         && e.partial == Partial(
              Some(quantity), Some(unit), if product == [] then None else Some(Titlecase(product)),
              if place == [] then None else Some(Titlecase(place)))
  }

  lemma VerdictIsVerdict(quantity: nat, unit: string, rest: seq<string>)
    ensures IsVerdict(Verdict(quantity, unit, rest), quantity, unit, rest)
  {
    hide Fields, AreFields, Titlecase;
    FieldsAreFields(rest);
    var (product, place) := Fields(rest);
    assert AreFields(rest, product, place)
      && IsVerdictOn(Verdict(quantity, unit, rest), quantity, unit, product, if place.Some? then place.value else []);
  }

  lemma FirstQuantityDecides(tokens: seq<string>, k: nat)
    requires IsFirstQuantity(tokens, k)
    ensures Extract(tokens) == ExtractFrom(tokens, k)
  {
    hide IsQuantityAt, ExtractFrom;
    forall j: nat | j < k ensures !Quantities.Accepts(tokens, j) {
      assert !IsQuantityAt(tokens, j);
      QuantityIsAccepted(tokens, j);
    }
    QuantityIsSomewhere(tokens, k);
    Quantities.FirstAcceptingPositionDecides(tokens, 0, k);
  }

  lemma QuantityIsSomewhere(tokens: seq<string>, k: nat)
    requires IsQuantityAt(tokens, k)
    ensures k < |tokens|
  {
  }

  /**
   * What is extracted: the first number with a unit right behind it decides. With one of our units the words behind it
   * are the product and the place, or say what is missing; any other unit is named.
   */
  lemma WhatIsExtracted(tokens: seq<string>, k: nat)
    requires IsFirstQuantity(tokens, k)
    ensures var (quantity, used) := NumberAt(tokens[k..]);
            var rest := tokens[k + used..];
            if NamedUnit(rest).Some? then
              NamedUnit(rest).value.1 <= |rest|
              && IsVerdict(Extract(tokens), quantity.value, NamedUnit(rest).value.0, rest[NamedUnit(rest).value.1..])
            else
              Extract(tokens) == EnquiryExtraction(None, [], Some(rest[0]), Partial(quantity, None, None, None))
  {
    hide NumberAt, Extract, ExtractFrom, Verdict, IsVerdict, IsUnsupported, ResolveUnit, RejectedUnit;
    FirstQuantityDecides(tokens, k);
    ReadAtQuantity(tokens, k);
    var (quantity, used) := NumberAt(tokens[k..]);
    var rest := tokens[k + used..];
    WhatUnitIsNamed(rest);
    WhatUnitIsRejected(rest);
    NamedIsThere(rest);
    hide NamedUnit;
    if NamedUnit(rest).Some? {
      VerdictIsVerdict(quantity.value, NamedUnit(rest).value.0, rest[NamedUnit(rest).value.1..]);
    }
  }

  lemma NamedIsThere(rest: seq<string>)
    ensures NamedUnit(rest).Some? ==> NamedUnit(rest).value.1 <= |rest|
  {
    hide IsKilogram, IsTonne, IsPiece;
  }

  lemma ReadAtQuantity(tokens: seq<string>, k: nat)
    requires k < |tokens| && NumberAt(tokens[k..]).0.Some?
    ensures var (quantity, used) := NumberAt(tokens[k..]);
            var rest := tokens[k + used..];
            && (ResolveUnit(rest).Some? ==>
                  ExtractFrom(tokens, k)
                  == Verdict(quantity.value, ResolveUnit(rest).value.0, From(rest, ResolveUnit(rest).value.1)))
            && (ResolveUnit(rest).None? && RejectedUnit(rest).Some? ==>
                  ExtractFrom(tokens, k)
                  == EnquiryExtraction(None, [], RejectedUnit(rest), Partial(quantity, None, None, None)))
  {
    hide NumberAt, ResolveUnit, RejectedUnit, Verdict;
  }

  /** Without such a number, quantity and unit are missing, and all four fields if there are no words at all. */
  lemma WhenNothingIsExtracted(tokens: seq<string>)
    requires forall k: nat :: !IsQuantityAt(tokens, k)
    ensures Extract(tokens)
         == EnquiryExtraction(
              None, if tokens == [] then ["quantity", "unit", "product", "destination"] else ["quantity", "unit"],
              None, Partial(None, None, None, None))
  {
    hide IsQuantityAt, NumberAt, ResolveUnit, RejectedUnit;
    forall j: nat | j < |tokens| ensures !Quantities.Accepts(tokens, j) {
      assert !IsQuantityAt(tokens, j);
      QuantityIsAccepted(tokens, j);
    }
    Quantities.FirstAcceptingPositionDecides(tokens, 0, |tokens|);
    assert ExtractFrom(tokens, |tokens|) == EnquiryExtraction(None, ["quantity", "unit"], None, NOTHING_KNOWN);
  }

  // ---- the text of a field ----

  /** A small letter at the start of a word is raised, everything else stays. */
  predicate IsRaised(text: string, raised: string) {
    |raised| == |text| && forall i :: 0 <= i < |text| ==> IsRaisedAt(text, raised, i)
  }

  predicate IsRaisedAt(text: string, raised: string, i: nat)
    requires i < |text| == |raised|
  {
    raised[i] == if 'a' <= text[i] <= 'z' && (i == 0 || text[i - 1] == ' ') then (text[i] as int - 32) as char
                 else text[i]
  }

  /** The field is its words with single spaces between them, each with its first letter raised. */
  lemma {:induction false} WhatAFieldSays(words: seq<string>)
    requires forall w <- words :: w != "" && ' ' !in w
    ensures IsRaised(Tokeniser.Join(words), Titlecase(words))
  {
    if words == [] {
    } else {
      var w, rest := words[0], words[1..];
      assert w in words && forall v <- rest :: v in words;
      WhatAFieldSays(rest);
      if rest == [] {
      } else {
        assert Titlecase(rest) != "" by { assert rest[0] in rest; }
        RaisedWord(w, Tokeniser.Join(rest), Titlecase(rest));
      }
    }
  }

  lemma RaisedWord(w: string, text: string, raised: string)
    requires w != "" && ' ' !in w && IsRaised(text, raised)
    ensures IsRaised(w + " " + text, Capitalise(w) + " " + raised)
  {
    hide Capitalise, IsRaisedAt;
    var a, b := w + " " + text, Capitalise(w) + " " + raised;
    CapitalIsRaised(w);
    forall i | 0 <= i < |a| ensures IsRaisedAt(a, b, i) {
      if i < |w| {
        InFirstWord(w, Capitalise(w), " " + text, " " + raised, i);
        assert a == w + (" " + text) && b == Capitalise(w) + (" " + raised);
      } else if i == |w| {
        BetweenWords(a, b, i);
      } else {
        InLaterWords(w + " ", Capitalise(w) + " ", text, raised, i - |w| - 1);
      }
    }
  }

  lemma CapitalIsRaised(w: string)
    requires w != "" && ' ' !in w
    ensures IsRaised(w, Capitalise(w))
  {
    forall i | 0 <= i < |w| ensures IsRaisedAt(w, Capitalise(w), i) {
      if i > 0 { assert w[i - 1] in w; }
    }
  }

  lemma InFirstWord(w: string, raised: string, rest: string, restRaised: string, i: nat)
    requires i < |w| == |raised| && |rest| == |restRaised| && IsRaisedAt(w, raised, i)
    ensures IsRaisedAt(w + rest, raised + restRaised, i)
  {
  }

  lemma BetweenWords(text: string, raised: string, i: nat)
    requires i < |text| == |raised| && text[i] == ' ' == raised[i]
    ensures IsRaisedAt(text, raised, i)
  {
  }

  lemma InLaterWords(front: string, frontRaised: string, text: string, raised: string, i: nat)
    requires front != "" && front[|front| - 1] == ' ' && |front| == |frontRaised|
    requires i < |text| == |raised| && IsRaisedAt(text, raised, i)
    ensures IsRaisedAt(front + text, frontRaised + raised, |front| + i)
  {
    assert i > 0 ==> (front + text)[|front| + i - 1] == text[i - 1];
  }
}
