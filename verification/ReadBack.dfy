/** The read-back sentence, and what the extractor makes of it: a printer and its parser. */
module ReadBack {
  import opened Wrappers
  import opened Vocabulary
  import opened Numbers
  import opened Extraction
  import opened Tokeniser
  import Decimal
  import Spelling

  predicate IsUnit(unit: string) { unit == "tonnes" || unit == "kg" || unit == "units" }

  /** The sentence read to the caller before anything is written. */
  function Describe(draft: EnquiryDraft): string {
    Decimal.Print(draft.quantity) + " " + draft.unit + " of " + draft.product + " for delivery to " + draft.destination
  }

  function PrintedTokens(quantity: nat, unit: string, product: seq<string>, destination: seq<string>): seq<string> {
    [Decimal.Print(quantity), unit, "of"] + product + ["for", "delivery", "to"] + destination
  }

  function DraftOf(quantity: nat, unit: string, product: seq<string>, destination: seq<string>): EnquiryDraft {
    EnquiryDraft(Titlecase(product), quantity, unit, Titlecase(destination))
  }

  /** The field texts that survive being read back. */
  predicate Printable(product: seq<string>, destination: seq<string>) {
    && product != [] && product[0] !in LEADING_ARTICLES && product[|product| - 1] !in PRODUCT_TRAILING_NOISE
    && destination != [] && destination[0] !in LEADING_ARTICLES
    && destination[|destination| - 1] !in TRAILING_FILLER && "to" !in destination
  }

  // ---- what the extractor accepts is printable ----

  lemma FieldsArePrintable(rest: seq<string>)
    requires var (p, d) := Fields(rest); p != [] && d.Some? && d.value != []
    ensures var (p, d) := Fields(rest); Printable(p, d.value)
    ensures var (p, d) := Fields(rest); forall t :: t in p || t in d.value ==> t in rest
  {
    hide Vocabulary.TRAILING_FILLER, Vocabulary.LEADING_ARTICLES, Vocabulary.PRODUCT_TRAILING_NOISE;
    hide StripFiller, StripProductNoise, DestinationMarker, LastIndex, Fields;
    var head, tail := FieldParts(rest);
    var product, place := StripProductNoise(StripFiller(head)), StripFiller(tail);
    FillerIsStripped(head);
    FillerIsStripped(tail);
    NoiseIsStripped(StripFiller(head));
    assert forall t <- product :: t in head;
    assert forall t <- place :: t in tail;
    assert product[0] == StripFiller(head)[0];
  }

  /** The token lists on both sides of the destination marker. */
  lemma FieldParts(rest: seq<string>) returns (head: seq<string>, tail: seq<string>)
    requires Fields(rest).1.Some?
    ensures Fields(rest) == (StripProductNoise(StripFiller(head)), Some(StripFiller(tail)))
    ensures "to" !in tail && forall t <- head + tail :: t in rest
  {
    hide Vocabulary.TRAILING_FILLER, Vocabulary.LEADING_ARTICLES, Vocabulary.PRODUCT_TRAILING_NOISE;
    hide StripFiller, StripProductNoise, LastIndex;
    var body := if rest != [] && rest[0] == "of" then rest[1..] else rest;
    var (at, length) := DestinationMarker(body).value;
    NoToAfterMarker(body);
    head, tail := body[..at], body[at + length..];
    assert forall t <- body :: t in rest;
  }

  lemma NoToAfterMarker(body: seq<string>)
    requires DestinationMarker(body).Some?
    ensures var (at, length) := DestinationMarker(body).value; "to" !in body[at + length..]
  {
    var (at, length) := DestinationMarker(body).value;
    assert forall t <- body[at + length..] :: t in body;
  }

  lemma FillerIsStripped(tokens: seq<string>)
    ensures var r := StripFiller(tokens);
            && (r != [] ==> r[0] !in LEADING_ARTICLES && r[|r| - 1] !in TRAILING_FILLER)
            && forall t <- r :: t in tokens
  {
    hide Vocabulary.TRAILING_FILLER, Vocabulary.LEADING_ARTICLES;
    var cut := StripTrailing(tokens, TRAILING_FILLER);
    var r := StripLeading(cut, LEADING_ARTICLES);
    assert forall t <- r :: t in cut;
    if r != [] { assert r[|r| - 1] == cut[|cut| - 1]; }
  }

  lemma NoiseIsStripped(tokens: seq<string>)
    ensures var r := StripProductNoise(tokens);
            && r <= tokens && (r != [] ==> r[|r| - 1] !in PRODUCT_TRAILING_NOISE)
            && forall t <- r :: t in tokens
  {
  }

  lemma CanonicalUnit(rest: seq<string>)
    requires ResolveUnit(rest).Some?
    ensures IsUnit(ResolveUnit(rest).value.0)
  {
    if FirstPhrase(UNIT_PHRASES, rest).Some? {
      PhraseUnit(UNIT_PHRASES, rest);
    } else {
      WordUnit(rest[0]);
    }
  }

  lemma {:induction false} PhraseUnit(phrases: seq<(seq<string>, string)>, rest: seq<string>)
    requires FirstPhrase(phrases, rest).Some? && forall p <- phrases :: p.1 == "tonnes"
    ensures FirstPhrase(phrases, rest).value.0 == "tonnes"
  {
    if !(phrases[0].0 <= rest) { PhraseUnit(phrases[1..], rest); }
  }

  lemma WordUnit(word: string)
    requires word in UNIT_WORDS
    ensures IsUnit(UNIT_WORDS[word])
  {
  }

  /** The tokens a complete draft was made of. */
  lemma {:induction false} DraftParts(tokens: seq<string>, index: nat)
    returns (product: seq<string>, destination: seq<string>)
    requires ExtractFrom(tokens, index).draft.Some?
    ensures var draft := ExtractFrom(tokens, index).draft.value;
            && IsUnit(draft.unit) && draft == DraftOf(draft.quantity, draft.unit, product, destination)
            && Printable(product, destination)
            && (forall t :: t in product || t in destination ==> t in tokens)
    decreases |tokens| - index
  {
    hide Printable, NumberAt, ResolveUnit, RejectedUnit, Fields, Titlecase;
    var (quantity, used) := NumberAt(tokens[index..]);
    if quantity.Some? && ResolveUnit(tokens[index + used..]).Some? {
      var rest := tokens[index + used..];
      var (unit, length) := ResolveUnit(rest).value;
      CanonicalUnit(rest);
      FieldsArePrintable(From(rest, length));
      product := Fields(From(rest, length)).0;
      destination := Fields(From(rest, length)).1.value;
    } else {
      product, destination := DraftParts(tokens, index + 1);
    }
  }

  // ---- what is printable is extracted again ----

  lemma FillerKept(tokens: seq<string>)
    requires tokens != [] && tokens[0] !in LEADING_ARTICLES && tokens[|tokens| - 1] !in TRAILING_FILLER
    ensures StripFiller(tokens) == tokens
  {
  }

  lemma {:induction false} TrailingStripped(tokens: seq<string>, tail: seq<string>, noise: set<string>)
    requires forall t <- tail :: t in noise
    requires tokens != [] && tokens[|tokens| - 1] !in noise
    ensures StripTrailing(tokens + tail, noise) == tokens
  {
    if tail == [] {
      assert tokens + tail == tokens;
    } else {
      assert (tokens + tail)[..|tokens| + |tail| - 1] == tokens + tail[..|tail| - 1];
      TrailingStripped(tokens, tail[..|tail| - 1], noise);
    }
  }

  lemma MarkerWords()
    ensures "for" in PRODUCT_TRAILING_NOISE && "delivery" in PRODUCT_TRAILING_NOISE
    ensures "delivery" !in TRAILING_FILLER
  {
  }

  lemma {:induction false} LastIndexAt(tokens: seq<string>, word: string, k: nat)
    requires k < |tokens| && tokens[k] == word && word !in tokens[k + 1..]
    ensures word in tokens && LastIndex(tokens, word) == k
  {
    assert forall j :: k < j < |tokens| ==> tokens[j] == tokens[k + 1..][j - k - 1];
  }

  lemma PrintedFields(product: seq<string>, destination: seq<string>)
    requires Printable(product, destination)
    ensures Fields(["of"] + product + ["for", "delivery", "to"] + destination) == (product, Some(destination))
  {
    hide Vocabulary.TRAILING_FILLER, Vocabulary.LEADING_ARTICLES, Vocabulary.PRODUCT_TRAILING_NOISE, LastIndex;
    var rest := ["of"] + product + ["for", "delivery", "to"] + destination;
    var body := product + ["for", "delivery", "to"] + destination;
    assert rest[1..] == body;
    var k := |product| + 2;
    assert body[k + 1..] == destination;
    LastIndexAt(body, "to", k);
    var head := product + ["for", "delivery"];
    assert body[..k] == head;
    MarkerWords();
    FillerKept(head);
    TrailingStripped(product, ["for", "delivery"], PRODUCT_TRAILING_NOISE);
    FillerKept(destination);
  }

  lemma UnitIsNoNumber(unit: string)
    requires IsUnit(unit)
    ensures !IsNumberToken(unit) && unit != "and"
  {
    assert !IsDigits(unit) && unit !in SMALL_NUMBERS && unit !in TENS && unit !in SCALES;
  }

  lemma UnitResolves(unit: string, rest: seq<string>)
    requires IsUnit(unit)
    ensures ResolveUnit([unit] + rest) == Some((unit, 1))
  {
    var all := [unit] + rest;
    assert all[0] == unit;
    NoPhrase(UNIT_PHRASES, all);
    assert unit in UNIT_WORDS && UNIT_WORDS[unit] == unit;
  }

  lemma {:induction false} NoPhrase(phrases: seq<(seq<string>, string)>, rest: seq<string>)
    requires forall p <- phrases :: p.0 != [] && p.0[0] == "metric"
    requires rest != [] && rest[0] != "metric"
    ensures FirstPhrase(phrases, rest) == None
  {
    if phrases != [] {
      assert phrases[0] in phrases && phrases[0].0[0] == "metric";
      NoPhrase(phrases[1..], rest);
    }
  }

  lemma PrintedVerdict(quantity: nat, unit: string, product: seq<string>, destination: seq<string>)
    requires IsUnit(unit)
    ensures Extract(PrintedTokens(quantity, unit, product, destination))
         == Verdict(quantity, unit, ["of"] + product + ["for", "delivery", "to"] + destination)
  {
    hide IsNumberToken, IsUnit, ResolveUnit, NumberAt, Verdict, Decimal.Print;
    var tokens := PrintedTokens(quantity, unit, product, destination);
    var rest := ["of"] + product + ["for", "delivery", "to"] + destination;
    var after := [unit] + rest;
    UnitIsNoNumber(unit);
    assert tokens[0..] == [] + [Decimal.Print(quantity)] + after;
    Spelling.DigitTokensReadBack(quantity, false, [], after);
    assert From([] + [Decimal.Print(quantity)] + after, 0) == tokens[0..];
    UnitResolves(unit, rest);
    assert tokens[1..] == after && From(after, 1) == rest;
  }

  // ---- titles and tokens ----

  lemma {:induction false} TitleIsTokens(ts: seq<string>)
    requires AreTokens(ts)
    ensures Lower(Titlecase(ts)) == Join(ts)
    ensures ts != [] ==> Titlecase(ts) != ""
  {
    if ts != [] {
      var t, rest := ts[0], ts[1..];
      assert t in ts;
      TitleIsTokens(rest);
      CapitalLowers(t);
      hide Lower, Capitalise, IsToken;
      if rest != [] {
        var tail := Titlecase(rest);
        LowerConcat(Capitalise(t) + " ", tail);
        LowerConcat(Capitalise(t), " ");
        LowerSpace();
        assert Lower(Titlecase(ts)) == t + " " + Join(rest);
      }
    }
  }

  lemma LowerSpace()
    ensures Lower(" ") == " "
  {
  }

  lemma CapitalLowers(t: string)
    requires IsToken(t)
    ensures t != "" && Capitalise(t) != "" && Lower(Capitalise(t)) == t
  {
  }

  lemma LowerConcat(a: string, b: string)
    ensures Lower(a + b) == Lower(a) + Lower(b)
  {
  }

  lemma LowerKeeps(s: string)
    requires IsLower(s)
    ensures Lower(s) == s
  {
  }

  lemma TitleIsInjective(a: seq<string>, b: seq<string>)
    requires AreTokens(a) && AreTokens(b) && Titlecase(a) == Titlecase(b)
    ensures a == b
  {
    TitleIsTokens(a);
    TitleIsTokens(b);
    JoinIsInjective(a, b);
  }

  // ---- the token-level theorem ----

  /** A draft is read back exactly if its fields are printable, and only then. */
  lemma ReadsBackIffPrintable(quantity: nat, unit: string, product: seq<string>, destination: seq<string>)
    requires IsUnit(unit) && AreTokens(product) && AreTokens(destination)
    ensures Extract(PrintedTokens(quantity, unit, product, destination)).draft
         == Some(DraftOf(quantity, unit, product, destination))
       <==> Printable(product, destination)
  {
    hide Printable, Fields, Titlecase, Verdict, ExtractFrom, IsToken, IsUnit, PrintedTokens;
    var rest := ["of"] + product + ["for", "delivery", "to"] + destination;
    PrintedVerdict(quantity, unit, product, destination);
    VerdictDraft(quantity, unit, rest);
    if Printable(product, destination) {
      PrintedFields(product, destination);
      PrintableIsPresent(product, destination);
    } else if Verdict(quantity, unit, rest).draft == Some(DraftOf(quantity, unit, product, destination)) {
      RestIsTokens(quantity, unit, product, destination);
      FieldsArePrintable(rest);
      var (p, d) := Fields(rest);
      TitleIsInjective(p, product);
      TitleIsInjective(d.value, destination);
      assert false;
    }
  }

  lemma VerdictDraft(quantity: nat, unit: string, rest: seq<string>)
    ensures var (p, d) := Fields(rest);
            Verdict(quantity, unit, rest).draft
            == if p != [] && d.Some? && d.value != [] then Some(DraftOf(quantity, unit, p, d.value)) else None
  {
    hide Fields, Titlecase;
  }

  lemma RestIsTokens(quantity: nat, unit: string, product: seq<string>, destination: seq<string>)
    requires IsUnit(unit) && AreTokens(product) && AreTokens(destination)
    ensures AreTokens(["of"] + product + ["for", "delivery", "to"] + destination)
  {
    hide IsToken, IsUnit;
    var rest := ["of"] + product + ["for", "delivery", "to"] + destination;
    PrintedAreTokens(quantity, unit, product, destination);
    assert rest == PrintedTokens(quantity, unit, product, destination)[2..];
  }

  lemma PrintableIsPresent(product: seq<string>, destination: seq<string>)
    requires Printable(product, destination)
    ensures product != [] && destination != []
  {
  }

  // ---- the printed tokens are tokens ----

  predicate IsPlainWord(w: string) { w != "" && forall i :: 0 <= i < |w| ==> 'a' <= w[i] <= 'z' }

  lemma PlainWordIsToken(w: string)
    requires IsPlainWord(w)
    ensures IsToken(w) && w !in CONTRACTIONS
  {
    assert AlnumRun(w) == |w|;
    ContractionHasApostrophe(w);
  }

  lemma ContractionHasApostrophe(w: string)
    ensures w in CONTRACTIONS ==> exists i :: 0 <= i < |w| && w[i] == '\''
  {
    if w in CONTRACTIONS {
      assert (|w| > 1 && w[1] == '\'') || (|w| > 2 && w[2] == '\'') || (|w| > 3 && w[3] == '\'')
        || (|w| > 4 && w[4] == '\'') || (|w| > 5 && w[5] == '\'') || (|w| > 6 && w[6] == '\'')
        || (|w| > 7 && w[7] == '\'');
    }
  }

  lemma DigitsAreToken(s: string)
    requires s != "" && Decimal.AllDigits(s)
    ensures IsToken(s) && s !in CONTRACTIONS
  {
    assert forall i :: 0 <= i < |s| ==> s[i] in s;
    assert AlnumRun(s) == |s| && GroupRun(s) == |s|;
    ContractionHasApostrophe(s);
  }

  lemma PrintedWords(unit: string)
    requires IsUnit(unit)
    ensures IsPlainWord(unit) && IsPlainWord("of") && IsPlainWord("for") && IsPlainWord("delivery") && IsPlainWord("to")
  {
  }

  lemma PrintedAreTokens(quantity: nat, unit: string, product: seq<string>, destination: seq<string>)
    requires IsUnit(unit) && AreTokens(product) && AreTokens(destination)
    ensures AreTokens(PrintedTokens(quantity, unit, product, destination))
    ensures forall t <- PrintedTokens(quantity, unit, product, destination) ::
              t in CONTRACTIONS ==> t in product || t in destination
  {
    hide IsToken, IsPlainWord, Vocabulary.CONTRACTIONS, IsUnit, Decimal.Print;
    DigitsAreToken(Decimal.Print(quantity));
    PrintedWords(unit);
    PlainWordIsToken(unit);
    PlainWordIsToken("of");
    PlainWordIsToken("for");
    PlainWordIsToken("delivery");
    PlainWordIsToken("to");
  }

  lemma PrintedJoin(q: string, unit: string, product: seq<string>, destination: seq<string>)
    requires product != [] && destination != []
    ensures Join([q, unit, "of"] + product + ["for", "delivery", "to"] + destination)
         == q + " " + unit + " of " + Join(product) + (" for delivery to " + Join(destination))
  {
    hide Join;
    var lead, link := [q, unit, "of"], ["for", "delivery", "to"];
    JoinConcat(lead, product);
    JoinConcat(lead + product, link);
    JoinConcat(lead + product + link, destination);
    JoinThree(q, unit, "of");
    JoinThree("for", "delivery", "to");
    assert q + " " + unit + " " + "of" + " " == q + " " + unit + " of ";
    assert " " + ("for" + " " + "delivery" + " " + "to") + " " == " for delivery to ";
  }

  /** Lower-casing the sentence gives the printed tokens, joined by spaces. */
  lemma DescribeIsTokens(quantity: nat, unit: string, product: seq<string>, destination: seq<string>)
    requires IsUnit(unit) && product != [] && destination != [] && AreTokens(product) && AreTokens(destination)
    ensures Lower(Describe(DraftOf(quantity, unit, product, destination)))
         == Join(PrintedTokens(quantity, unit, product, destination))
  {
    hide Titlecase, IsToken, Decimal.Print, Join, Lower;
    var q := Decimal.Print(quantity);
    var title, place := Titlecase(product), Titlecase(destination);
    var lead, link := q + " " + unit + " of ", " for delivery to ";
    TitleIsTokens(product);
    TitleIsTokens(destination);
    assert Describe(DraftOf(quantity, unit, product, destination)) == lead + title + (link + place);
    LowerConcat(lead + title, link + place);
    LowerConcat(lead, title);
    LowerConcat(link, place);
    LeadIsLower(quantity, unit);
    LowerKeeps(lead);
    LowerKeeps(link);
    PrintedJoin(q, unit, product, destination);
  }

  lemma LeadIsLower(quantity: nat, unit: string)
    requires IsUnit(unit)
    ensures IsLower(Decimal.Print(quantity) + " " + unit + " of ") && IsLower(" for delivery to ")
  {
    var q := Decimal.Print(quantity);
    assert IsLower(q) by { assert forall i :: 0 <= i < |q| ==> q[i] in q; }
  }

  lemma JoinThree(a: string, b: string, c: string)
    ensures Join([a, b, c]) == a + " " + b + " " + c
  {
    assert [a, b, c][1..] == [b, c] && [b, c][1..] == [c];
    assert Join([b, c]) == b + " " + c;
  }

  lemma {:induction false} JoinConcat(a: seq<string>, b: seq<string>)
    requires a != [] && b != []
    ensures Join(a + b) == Join(a) + " " + Join(b)
  {
    assert (a + b)[1..] == a[1..] + b;
    if |a| > 1 { JoinConcat(a[1..], b); } else { assert a[1..] + b == b; }
  }

  // ---- contractions ----

  lemma ContractionWords(w: string)
    requires w in CONTRACTIONS
    ensures forall t <- CONTRACTIONS[w] :: IsPlainWord(t)
  {
  }

  lemma {:induction false} ExpandedTokens(ts: seq<string>)
    requires AreTokens(ts)
    ensures AreTokens(ExpandAll(ts))
    ensures forall t <- ExpandAll(ts) :: t !in CONTRACTIONS
    ensures (forall t <- ts :: t !in CONTRACTIONS) ==> ExpandAll(ts) == ts
  {
    hide IsToken, IsPlainWord, Vocabulary.CONTRACTIONS;
    if ts != [] {
      var t := ts[0];
      assert t in ts;
      if t in CONTRACTIONS {
        ContractionWords(t);
        forall w | w in CONTRACTIONS[t]
          ensures IsToken(w) && w !in CONTRACTIONS
        {
          PlainWordIsToken(w);
        }
      }
      ExpandedTokens(ts[1..]);
    }
  }

  /** Tokenising the sentence gives the printed tokens with their contractions expanded. */
  lemma TokensOfDescription(quantity: nat, unit: string, product: seq<string>, destination: seq<string>)
    requires IsUnit(unit) && product != [] && destination != [] && AreTokens(product) && AreTokens(destination)
    ensures Tokenise(Describe(DraftOf(quantity, unit, product, destination)))
         == ExpandAll(PrintedTokens(quantity, unit, product, destination))
  {
    var tokens := PrintedTokens(quantity, unit, product, destination);
    DescribeIsTokens(quantity, unit, product, destination);
    PrintedAreTokens(quantity, unit, product, destination);
    WordsJoin(tokens);
    ExpandedTokens(tokens);
    FindAllJoin(ExpandAll(tokens));
  }

  // ---- the sentence is read back ----

  /** The words of the draft's fields, as the tokeniser sees them. */
  function FieldWords(draft: EnquiryDraft): seq<string> {
    Words(Lower(draft.product)) + Words(Lower(draft.destination))
  }

  /** For every text: the draft it yields is read back exactly, unless a field holds a contraction. */
  lemma {:induction false} ReadBackIsFaithful(text: string)
    requires Extract(Tokenise(text)).draft.Some?
    ensures var draft := Extract(Tokenise(text)).draft.value;
            Extract(Tokenise(Describe(draft))).draft == Some(draft)
            <==> forall w <- FieldWords(draft) :: w !in CONTRACTIONS
  {
    hide Printable, Titlecase, Describe, IsToken, Vocabulary.CONTRACTIONS, IsUnit, PrintedTokens, ExtractFrom;
    var tokens := Tokenise(text);
    var draft := Extract(tokens).draft.value;
    TextTokens(text);
    var product, destination := DraftParts(tokens, 0);
    var printed := PrintedTokens(draft.quantity, draft.unit, product, destination);
    assert AreTokens(product) && AreTokens(destination);
    PrintableIsPresent(product, destination);
    TokensOfDescription(draft.quantity, draft.unit, product, destination);
    PrintedAreTokens(draft.quantity, draft.unit, product, destination);
    ExpandedTokens(printed);
    FieldWordsAreTokens(product, destination, draft);
    if forall w <- FieldWords(draft) :: w !in CONTRACTIONS {
      assert ExpandAll(printed) == printed;
      ReadsBackIffPrintable(draft.quantity, draft.unit, product, destination);
    } else if Extract(ExpandAll(printed)).draft == Some(draft) {
      var p, d := DraftParts(ExpandAll(printed), 0);
      TitleIsInjective(p, product);
      TitleIsInjective(d, destination);
      assert false;
    }
  }

  lemma TextTokens(text: string)
    ensures AreTokens(Tokenise(text))
  {
    LowerIsLower(text);
    NormaliseIsLower(Words(Lower(text)));
    FoundTokensAreTokens(Normalise(text));
  }

  lemma LowerIsLower(text: string)
    ensures forall w <- Words(Lower(text)) :: IsLower(w)
  {
    WordsOfLower(Lower(text));
  }

  lemma {:induction false} WordsOfLower(s: string)
    requires IsLower(s)
    ensures forall w <- Words(s) :: IsLower(w)
  {
    if s != "" {
      if IsSpace(s[0]) {
        WordsOfLower(s[1..]);
      } else {
        WordsOfLower(s[WordEnd(s)..]);
      }
    }
  }

  lemma {:induction false} NormaliseIsLower(words: seq<string>)
    requires forall w <- words :: IsLower(w)
    ensures IsLower(Join(ExpandAll(words)))
  {
    ExpandedIsLower(words);
    JoinIsLower(ExpandAll(words));
  }

  lemma {:induction false} ExpandedIsLower(words: seq<string>)
    requires forall w <- words :: IsLower(w)
    ensures forall w <- ExpandAll(words) :: IsLower(w)
  {
    hide Vocabulary.CONTRACTIONS;
    if words != [] {
      if words[0] in CONTRACTIONS { ContractionWords(words[0]); }
      ExpandedIsLower(words[1..]);
    }
  }

  lemma {:induction false} JoinIsLower(words: seq<string>)
    requires forall w <- words :: IsLower(w)
    ensures IsLower(Join(words))
  {
    if words != [] {
      assert words[0] in words;
      JoinIsLower(words[1..]);
    }
  }

  lemma FieldWordsAreTokens(product: seq<string>, destination: seq<string>, draft: EnquiryDraft)
    requires AreTokens(product) && AreTokens(destination)
    requires draft == DraftOf(draft.quantity, draft.unit, product, destination)
    ensures FieldWords(draft) == product + destination
  {
    TitleIsTokens(product);
    TitleIsTokens(destination);
    WordsJoin(product);
    WordsJoin(destination);
  }

  // ---- such drafts exist ----

  const EXAMPLE: seq<string> := ["5", "kg", "of", "can't,", "for", "delivery", "to", "goa"]

  lemma ExampleToken()
    ensures IsToken("can't") && "can't" in CONTRACTIONS && "can't," !in CONTRACTIONS
  {
    hide Tokeniser.AlnumRun, Tokeniser.WordLength, Tokeniser.GroupRun, Tokeniser.LastDigit;
    var t := "can't";
    assert t[4..] == "t";
    WordLengthStep("t", 1);
    WordLengthStep(t, 3);
    assert WordLength(t) == 5;
  }

  lemma ExampleFixedWords()
    ensures forall w <- ["5", "kg", "of", "for", "delivery", "to", "goa"] :: IsToken(w) && w !in CONTRACTIONS
  {
    hide IsToken, Vocabulary.CONTRACTIONS;
    DigitsAreToken("5");
    forall w | w in ["kg", "of", "for", "delivery", "to", "goa"]
      ensures IsToken(w) && w !in CONTRACTIONS
    {
      PlainWordIsToken(w);
    }
  }

  lemma {:induction false} NothingExpands(words: seq<string>)
    requires forall w <- words :: w !in CONTRACTIONS
    ensures ExpandAll(words) == words
  {
    hide Vocabulary.CONTRACTIONS;
    if words != [] { NothingExpands(words[1..]); }
  }

  lemma ExampleIsNormal()
    ensures Normalise(Join(EXAMPLE)) == Join(EXAMPLE)
  {
    hide Vocabulary.CONTRACTIONS, Join, Words, Lower, IsToken;
    ExampleToken();
    ExampleFixedWords();
    forall w <- EXAMPLE
      ensures IsLower(w) && w !in CONTRACTIONS && w != "" && forall i :: 0 <= i < |w| ==> !IsSpace(w[i])
    {
      if w != "can't," { TokenHasNoSpace(w); TokenIsLower(w); }
    }
    JoinIsLower(EXAMPLE);
    LowerKeeps(Join(EXAMPLE));
    WordsOfJoin(EXAMPLE);
    NothingExpands(EXAMPLE);
  }

  lemma TokenIsLower(t: string)
    requires IsToken(t)
    ensures IsLower(t) && t != ""
  {
  }

  lemma FindBeforeComma(c: string, tail: seq<string>)
    requires IsToken(c) && !Decimal.IsDigit(c[0]) && AreTokens(tail)
    ensures FindAll(c + "," + " " + Join(tail)) == [c] + tail
  {
    var s, after := c + "," + " " + Join(tail), "," + " " + Join(tail);
    assert s[..|c|] == c && s[|c|..] == after;
    TokenLengthIsLocal(c, s);
    assert TokenLength(after) == 0;
    assert after[1..] == " " + Join(tail);
    SkipSpace(Join(tail));
    FindAllJoin(tail);
  }

  lemma SkipSpace(s: string)
    ensures FindAll(" " + s) == FindAll(s)
  {
    SpaceStartsNoToken(" " + s);
    assert (" " + s)[1..] == s;
  }

  lemma ExampleTokens()
    ensures Tokenise(Join(EXAMPLE)) == PrintedTokens(5, "kg", ["can't"], ["goa"])
  {
    hide IsToken, TokenLength, Join, FindAll, Normalise;
    var lead, tail := ["5", "kg", "of"], ["for", "delivery", "to", "goa"];
    ExampleToken();
    ExampleFixedWords();
    ExampleIsNormal();
    assert EXAMPLE == lead + (["can't,"] + tail);
    JoinConcat(lead, ["can't,"] + tail);
    JoinConcat(["can't,"], tail);
    JoinOne("can't,");
    var rest := "can't" + "," + " " + Join(tail);
    assert Join(["can't,"] + tail) == rest;
    assert Join(EXAMPLE) == Join(lead) + (" " + rest);
    FindAllPrefix(lead, " " + rest);
    SkipSpace(rest);
    FindBeforeComma("can't", tail);
    assert Decimal.Print(5) == "5";
  }

  lemma JoinOne(w: string)
    ensures Join([w]) == w
  {
  }

  /** With a comma behind it "can't" stays one token; the read-back has no comma, so it comes back expanded. */
  lemma ContractionIsNotReadBack()
    ensures var text, draft := "5 kg of can't, for delivery to goa", EnquiryDraft("Can't", 5, "kg", "Goa");
            && Extract(Tokenise(text)).draft == Some(draft)
            && Extract(Tokenise(Describe(draft))).draft != Some(draft)
  {
    hide Extract, Tokenise, IsToken, Vocabulary.CONTRACTIONS, Describe, Printable, PrintedTokens, Join, Words,
         ExtractFrom;
    var draft := EnquiryDraft("Can't", 5, "kg", "Goa");
    ExampleToken();
    ExampleFixedWords();
    ExampleTokens();
    ExampleFields();
    ExampleText();
    ReadsBackIffPrintable(5, "kg", ["can't"], ["goa"]);
    FieldWordsAreTokens(["can't"], ["goa"], draft);
    assert FieldWords(draft)[0] == "can't";
    ReadBackIsFaithful(Join(EXAMPLE));
  }

  lemma ExampleFields()
    ensures Printable(["can't"], ["goa"])
    ensures Titlecase(["can't"]) == "Can't" && Titlecase(["goa"]) == "Goa"
  {
  }

  lemma ExampleText()
    ensures Join(EXAMPLE) == "5 kg of can't, for delivery to goa"
  {
    hide Join;
    JoinThree("5", "kg", "of");
    JoinThree("can't,", "for", "delivery");
    JoinConcat(["to"], ["goa"]);
    JoinOne("to");
    JoinOne("goa");
    JoinConcat(["5", "kg", "of"], ["can't,", "for", "delivery"]);
    JoinConcat(["5", "kg", "of"] + ["can't,", "for", "delivery"], ["to"] + ["goa"]);
    assert EXAMPLE == ["5", "kg", "of"] + ["can't,", "for", "delivery"] + (["to"] + ["goa"]);
    var a, b, c := "5" + " " + "kg" + " " + "of", "can't," + " " + "for" + " " + "delivery", "to" + " " + "goa";
    assert a == "5 kg of";
    assert b == "can't, for delivery";
    assert c == "to goa";
  }
}
