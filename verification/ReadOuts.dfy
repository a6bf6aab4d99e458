/** What the local engine reads out, against what it has staged: direct requests and filled slots alike. */
module ReadOuts {
  import opened Wrappers
  import opened Enquiries
  import opened Extraction
  import opened Dialogue
  import opened DialogueLaws
  import opened Tokeniser
  import Decimal
  import Details
  import Endings
  import Numbers
  import ReadBack
  import Spelling
  import Vocabulary

  // ---- which drafts are read back ----

  /** The fields survive being printed and hold no contraction. */
  predicate ReadsBack(draft: EnquiryDraft) {
    && ReadBack.Printable(Words(Lower(draft.product)), Words(Lower(draft.destination)))
    && forall w <- ReadBack.FieldWords(draft) :: w !in Vocabulary.CONTRACTIONS
  }

  /** A draft of any product and place is read back exactly if it is printable and holds no contraction. */
  lemma DescribedIsReadBack(quantity: nat, unit: string, product: seq<string>, place: seq<string>)
    requires ReadBack.IsUnit(unit) && product != [] && place != [] && AreTokens(product) && AreTokens(place)
    ensures var draft := ReadBack.DraftOf(quantity, unit, product, place);
            Extract(Tokenise(ReadBack.Describe(draft))).draft == Some(draft)
            <==> ReadBack.Printable(product, place) && forall t <- product + place :: t !in Vocabulary.CONTRACTIONS
  {
    hide ReadBack.Printable, ReadBack.Describe, IsToken, Vocabulary.CONTRACTIONS, ExtractFrom, Titlecase,
         ReadBack.IsUnit, Tokenise, ReadBack.PrintedTokens;
    var draft := ReadBack.DraftOf(quantity, unit, product, place);
    var printed := ReadBack.PrintedTokens(quantity, unit, product, place);
    ReadBack.TokensOfDescription(quantity, unit, product, place);
    ReadBack.PrintedAreTokens(quantity, unit, product, place);
    ReadBack.ExpandedTokens(printed);
    PrintedContractions(quantity, unit, product, place);
    if forall t <- product + place :: t !in Vocabulary.CONTRACTIONS {
      ReadBack.ReadsBackIffPrintable(quantity, unit, product, place);
    } else if Extract(ExpandAll(printed)).draft == Some(draft) {
      ExpandedParts(printed, draft, product, place);
    }
  }

  /** The fixed words of the sentence are no contractions. */
  lemma PrintedContractions(quantity: nat, unit: string, product: seq<string>, place: seq<string>)
    requires ReadBack.IsUnit(unit)
    ensures (forall t <- ReadBack.PrintedTokens(quantity, unit, product, place) :: t !in Vocabulary.CONTRACTIONS)
       <==> forall t <- product + place :: t !in Vocabulary.CONTRACTIONS
  {
    hide Vocabulary.CONTRACTIONS, Decimal.Print;
    var printed := ReadBack.PrintedTokens(quantity, unit, product, place);
    ReadBack.PrintedAreTokens(quantity, unit, [], []);
    FixedWords(quantity, unit);
    assert forall t <- product + place :: t in printed;
    assert forall t <- printed ::
      t in product + place || t in [Decimal.Print(quantity), unit, "of", "for", "delivery", "to"];
  }

  lemma FixedWords(quantity: nat, unit: string)
    requires ReadBack.IsUnit(unit)
    ensures forall t <- [Decimal.Print(quantity), unit, "of", "for", "delivery", "to"] :: t !in Vocabulary.CONTRACTIONS
  {
    hide Vocabulary.CONTRACTIONS, Decimal.Print;
    assert Decimal.Print(quantity)[0] in Decimal.Print(quantity);
    DigitsExpandToThemselves(Decimal.Print(quantity));
    forall w | w in [unit, "of", "for", "delivery", "to"] ensures w !in Vocabulary.CONTRACTIONS {
      ReadBack.PlainWordIsToken(w);
    }
  }

  lemma DigitsExpandToThemselves(s: string)
    requires s != "" && Decimal.AllDigits(s)
    ensures s !in Vocabulary.CONTRACTIONS
  {
    assert s[0] in s;
  }

  /** An extraction from expanded tokens holds no contraction, so it is not this draft. */
  lemma ExpandedParts(printed: seq<string>, draft: EnquiryDraft, product: seq<string>, place: seq<string>)
    requires AreTokens(printed) && AreTokens(product) && AreTokens(place)
    requires draft == ReadBack.DraftOf(draft.quantity, draft.unit, product, place)
    requires Extract(ExpandAll(printed)).draft == Some(draft)
    ensures forall t <- product + place :: t !in Vocabulary.CONTRACTIONS
  {
    hide IsToken, Vocabulary.CONTRACTIONS, ExtractFrom, Titlecase, ReadBack.Printable;
    var tokens := ExpandAll(printed);
    ReadBack.ExpandedTokens(printed);
    var p, d := ReadBack.DraftParts(tokens, 0);
    assert AreTokens(p) && AreTokens(d);
    ReadBack.TitleIsInjective(p, product);
    ReadBack.TitleIsInjective(d, place);
  }

  lemma FieldTokens(draft: EnquiryDraft, product: seq<string>, place: seq<string>)
    requires AreTokens(product) && AreTokens(place)
    requires draft == ReadBack.DraftOf(draft.quantity, draft.unit, product, place)
    ensures Words(Lower(draft.product)) == product && Words(Lower(draft.destination)) == place
  {
    hide IsToken, Titlecase, Lower, Words;
    ReadBack.TitleIsTokens(product);
    ReadBack.TitleIsTokens(place);
    WordsJoin(product);
    WordsJoin(place);
  }

  lemma DraftIsReadBack(draft: EnquiryDraft, product: seq<string>, place: seq<string>)
    requires ReadBack.IsUnit(draft.unit) && product != [] && place != [] && AreTokens(product) && AreTokens(place)
    requires draft == ReadBack.DraftOf(draft.quantity, draft.unit, product, place)
    ensures Extract(Tokenise(ReadBack.Describe(draft))).draft == Some(draft) <==> ReadsBack(draft)
  {
    hide IsToken, Titlecase, Lower, Words, Extract, Tokenise, ReadBack.Describe, ReadBack.Printable, ReadBack.IsUnit,
         Vocabulary.CONTRACTIONS;
    FieldTokens(draft, product, place);
    DescribedIsReadBack(draft.quantity, draft.unit, product, place);
  }

  // ---- direct requests ----

  /** A draft extracted from a text is read back exactly if `ReadsBack`. */
  lemma ExtractedIsReadBack(text: string)
    requires Extract(Tokenise(text)).draft.Some?
    ensures var draft := Extract(Tokenise(text)).draft.value;
            Extract(Tokenise(ReadBack.Describe(draft))).draft == Some(draft) <==> ReadsBack(draft)
  {
    hide IsToken, Titlecase, ExtractFrom, Tokenise, ReadBack.Describe, ReadBack.Printable, ReadBack.IsUnit;
    ReadBack.TextTokens(text);
    var draft := Extract(Tokenise(text)).draft.value;
    var product, place := ReadBack.DraftParts(Tokenise(text), 0);
    assert AreTokens(product) && AreTokens(place);
    ReadBack.PrintableIsPresent(product, place);
    DraftIsReadBack(draft, product, place);
  }

  // ---- filled slots ----

  /** The request was parked by this text: it names a product but no destination. */
  predicate ParkedBy(slots: Slots, text: string) {
    var found := Extract(Tokenise(text));
    && slots == Slots(found.partial, found.missing) && found.draft.None?
    && "destination" in found.missing && "product" !in found.missing
  }

  /** The product of a parked request, as tokens of the text that parked it. */
  lemma {:induction false} ParkedProduct(tokens: seq<string>, index: nat) returns (product: seq<string>)
    requires var found := ExtractFrom(tokens, index);
             "destination" in found.missing && "product" !in found.missing
    ensures var p := ExtractFrom(tokens, index).partial;
            && p.product == Some(Titlecase(product)) && product != [] && (forall t <- product :: t in tokens)
            && p.quantity.Some? && p.unit.Some? && ReadBack.IsUnit(p.unit.value)
    decreases |tokens| - index
  {
    hide Numbers.NumberAt, Numbers.ResolveUnit, Numbers.RejectedUnit, Fields, Titlecase, ReadBack.IsUnit;
    var (quantity, used) := Numbers.NumberAt(tokens[index..]);
    if quantity.Some? && Numbers.ResolveUnit(tokens[index + used..]).Some? {
      var rest := tokens[index + used..];
      var (unit, length) := Numbers.ResolveUnit(rest).value;
      ReadBack.CanonicalUnit(rest);
      product := Fields(Numbers.From(rest, length)).0;
      FieldsAreTokens(Numbers.From(rest, length));
    } else {
      product := ParkedProduct(tokens, index + 1);
    }
  }

  lemma FieldsAreTokens(rest: seq<string>)
    ensures forall t <- Fields(rest).0 :: t in rest
  {
    hide StripFiller, StripProductNoise, DestinationMarker;
    var body := if rest != [] && rest[0] == "of" then rest[1..] else rest;
    ReadBack.FillerIsStripped(body);
    var hit := DestinationMarker(body);
    if hit.Some? {
      var head := body[..hit.value.0];
      ReadBack.FillerIsStripped(head);
      ReadBack.NoiseIsStripped(StripFiller(head));
      assert forall t <- head :: t in body;
    }
    assert forall t <- body :: t in rest;
  }

  /**
   * A parked request filled by a later text, restated or completed with a bare place, is read back exactly if
   * `ReadsBack`. A bare place is not filler-stripped, so this can fail.
   */
  lemma FilledIsReadBack(slots: Slots, first: string, answer: string, intent: Intent)
    requires ParkedBy(slots, first) && Fill(slots, Tokenise(answer), intent).Draft?
    ensures var draft := Fill(slots, Tokenise(answer), intent).draft;
            Extract(Tokenise(ReadBack.Describe(draft))).draft == Some(draft) <==> ReadsBack(draft)
  {
    hide IsToken, Titlecase, ExtractFrom, Tokenise, ReadBack.Describe, ReadBack.Printable, ReadBack.IsUnit, ReadsBack;
    if Extract(Tokenise(answer)).draft.Some? {
      ExtractedIsReadBack(answer);
    } else {
      ReadBack.TextTokens(first);
      ReadBack.TextTokens(answer);
      var draft := Fill(slots, Tokenise(answer), intent).draft;
      var product := ParkedProduct(Tokenise(first), 0);
      var place := FirstFour(Tokenise(answer));
      assert AreTokens(product) && AreTokens(place);
      DraftIsReadBack(draft, product, place);
    }
  }

  // ---- whole conversations ----

  /** Whatever is parked was parked by some text. */
  ghost predicate Heard(s: Conversation) { s.slots.Some? ==> exists first :: ParkedBy(s.slots.value, first) }

  lemma HeardIsOk(s: Conversation)
    requires Heard(s)
    ensures SlotsOk(s)
  {
    hide ExtractFrom, Tokenise;
    if s.slots.Some? {
      var first :| ParkedBy(s.slots.value, first);
      MissingDestinationOnly(Tokenise(first), 0);
    }
  }

  lemma RequestIsHeard(db: Db, hash: Payload -> Digest, s: Conversation, text: string, hint: nat, now: real)
    requires Heard(s)
    ensures Heard(Request(db, hash, s, Tokenise(text), hint, now).1)
  {
    hide Prepare, Validated, DraftArguments, Extract, Tokenise, Completed, ReadBack.Describe;
    var slots := Slots(Extract(Tokenise(text)).partial, Extract(Tokenise(text)).missing);
    assert Request(db, hash, s, Tokenise(text), hint, now).1.slots == s.slots || ParkedBy(slots, text);
  }

  lemma HandleIsHeard(db: Db, hash: Payload -> Digest, s: Conversation, text: string, intent: Intent, m: Message)
    requires Heard(s)
    ensures Heard(Handle(db, hash, s, text, intent, m).1)
  {
    hide Request, RequestSupport, ParkedBy, Tokenise;
    RequestIsHeard(db, hash, s, text, m.hint, m.now);
  }

  lemma SayIsHeard(db: Db, hash: Payload -> Digest, s: Conversation, m: Message)
    requires Heard(s)
    ensures Heard(Say(db, hash, s, m).1)
  {
    hide Resolve, Classify, Handle, Propose, Fill, Strip, ParkedBy, Tokenise;
    var text := Strip(m.text);
    var intent, t := Classify(text, m.guess), s.(slots := None);
    HandleIsHeard(db, hash, s, text, intent, m);
    HandleIsHeard(db, hash, t, text, intent, m);
    if s.pending.Some? {
      ResolveIsQuiet(db, hash, s, true, m.now, m.later);
      ResolveIsQuiet(db, hash, s, false, m.now, m.later);
    }
    if s.slots.Some? {
      var filling := Fill(s.slots.value, Tokenise(text), intent);
      if filling.Draft? { WhenAProposalDies(db, hash, t, filling.draft, m.hint, m.now); }
    }
  }

  /** The draft of any message of an open conversation is read back exactly if `ReadsBack`. */
  lemma MessageIsReadBack(s: Conversation, m: Message)
    requires Heard(s) && DraftOf(s, m).Some?
    ensures var draft := DraftOf(s, m).value;
            Extract(Tokenise(ReadBack.Describe(draft))).draft == Some(draft) <==> ReadsBack(draft)
  {
    hide Classify, Fill, Strip, ParkedBy, Tokenise, Extract, ReadsBack, ReadBack.Describe;
    var text := Strip(m.text);
    var intent := Classify(text, m.guess);
    if s.slots.Some? && Fill(s.slots.value, Tokenise(text), intent).Draft? {
      var first :| ParkedBy(s.slots.value, first);
      FilledIsReadBack(s.slots.value, first, text, intent);
    } else {
      ExtractedIsReadBack(text);
    }
  }

  /** Fields that are made of tokens, the only ones a draft can have. */
  ghost predicate IsOfTokens(draft: EnquiryDraft) {
    && (exists ts: seq<string> :: ts != [] && AreTokens(ts) && draft.product == Titlecase(ts))
    && (exists ts: seq<string> :: ts != [] && AreTokens(ts) && draft.destination == Titlecase(ts))
  }

  /** A field begins and ends with a character of a token. */
  lemma {:induction false} TitleEnds(ts: seq<string>)
    requires ts != [] && AreTokens(ts)
    ensures var text := Titlecase(ts);
            text != "" && !IsSpace(text[0]) && !IsSpace(text[|text| - 1])
  {
    hide IsToken, IsSpace;
    var t := ts[0];
    assert t in ts;
    TokenIsThere(t);
    TokenHasNoSpace(t);
    CapitalIsNoSpace(t);
    if |ts| > 1 {
      assert forall u <- ts[1..] :: u in ts;
      TitleEnds(ts[1..]);
    } else {
      assert ts[1..] == [];
    }
  }

  lemma TokenIsThere(t: string)
    requires IsToken(t)
    ensures t != ""
  {
  }

  lemma CapitalIsNoSpace(t: string)
    requires t != "" && forall i :: 0 <= i < |t| ==> !IsSpace(t[i])
    ensures |Capitalise(t)| == |t| && forall i :: 0 <= i < |t| ==> !IsSpace(Capitalise(t)[i])
  {
  }

  /** Drafts come from tokens, however they come about. */
  lemma DraftIsOfTokens(s: Conversation, m: Message)
    requires Heard(s) && DraftOf(s, m).Some?
    ensures IsOfTokens(DraftOf(s, m).value)
  {
    hide Classify, IsToken, Titlecase, ExtractFrom, Tokenise, ReadBack.Printable, ReadBack.IsUnit, ReadsBack, Strip;
    var text := Strip(m.text);
    var intent := Classify(text, m.guess);
    ReadBack.TextTokens(text);
    var draft := DraftOf(s, m).value;
    if Extract(Tokenise(text)).draft == Some(draft) {
      var product, place := ReadBack.DraftParts(Tokenise(text), 0);
      assert AreTokens(product) && AreTokens(place);
      ReadBack.PrintableIsPresent(product, place);
    } else {
      var first :| ParkedBy(s.slots.value, first);
      ReadBack.TextTokens(first);
      var product := ParkedProduct(Tokenise(first), 0);
      var place := FirstFour(Tokenise(text));
      assert AreTokens(product) && AreTokens(place) && place != [];
    }
  }

  /** What a draft of tokens is validated to: itself, without a distributor. */
  lemma StagedIsDraft(draft: EnquiryDraft)
    requires IsOfTokens(draft) && Validated(DraftArguments(draft)).Some?
    ensures Validated(DraftArguments(draft)).value
         == Payload(draft.product, draft.quantity, draft.unit, draft.destination, None)
  {
    hide IsToken, Titlecase, Validated, IsSpace, Details.IsTrimmed, Details.IsBlank, DraftArguments;
    var product: seq<string> :| product != [] && AreTokens(product) && draft.product == Titlecase(product);
    var place: seq<string> :| place != [] && AreTokens(place) && draft.destination == Titlecase(place);
    TitleEnds(product);
    TitleEnds(place);
    Details.WhatIsValidated(DraftArguments(draft));
    Endings.DraftFields(draft);
    var staged := Validated(DraftArguments(draft)).value;
    Details.BlankIsSpace(draft.product[0]);
    Details.BlankIsSpace(draft.product[|draft.product| - 1]);
    Details.BlankIsSpace(draft.destination[0]);
    Details.BlankIsSpace(draft.destination[|draft.destination| - 1]);
    Details.EndsAreTrimmed(draft.product, staged.product);
    Details.EndsAreTrimmed(draft.destination, staged.destination);
  }

  /**
   * A sentence that asks for confirmation: it says the quantity in digits, the unit, the product and the destination of
   * this draft; exactly these are staged; and it is understood again iff `ReadsBack`.
   */
  ghost predicate SpeaksFor(t: Conversation, response: Response, draft: EnquiryDraft) {
    && response == PleaseConfirm(
         Decimal.Print(draft.quantity) + " " + draft.unit + " of " + draft.product + " for delivery to "
         + draft.destination)
    && t.pending == Some(Payload(draft.product, draft.quantity, draft.unit, draft.destination, None))
    && (Extract(Tokenise(response.text)).draft == Some(draft) <==> ReadsBack(draft))
  }

  lemma SaidIsReadBack(db: Db, hash: Payload -> Digest, s: Conversation, m: Message)
    requires Heard(s) && Say(db, hash, s, m).2.PleaseConfirm?
    ensures DraftOf(s, m).Some?
    ensures var (_, t, response) := Say(db, hash, s, m);
            SpeaksFor(t, response, DraftOf(s, m).value)
  {
    hide Say, DraftOf, Validated, DraftArguments, Prepare, Extract, Tokenise, ReadsBack, IsOfTokens, Heard;
    HeardIsOk(s);
    SayProposes(db, hash, s, m);
    MessageIsReadBack(s, m);
    DraftIsOfTokens(s, m);
    StagedIsDraft(DraftOf(s, m).value);
  }

  /**
   * Over every list of messages from an open conversation: each sentence that asks for confirmation says the quantity,
   * the unit, the product and the destination that were staged with it, and is understood as that draft again exactly
   * if the draft is printable and holds no contraction.
   */
  lemma {:induction false} EverySentenceIsReadBack(
      db: Db, hash: Payload -> Digest, s: Conversation, messages: seq<Message>, i: nat)
    returns (t: Conversation, draft: EnquiryDraft)
    requires Heard(s)
    requires var responses := SayAll(db, hash, s, messages).2;
             i < |responses| && responses[i].PleaseConfirm?
    ensures SpeaksFor(t, SayAll(db, hash, s, messages).2[i], draft)
    ensures i < |messages| && t == SayAll(db, hash, s, messages[..i + 1]).1
    decreases |messages|
  {
    hide Say, SayAll, SpeaksFor, Heard, DraftOf;
    NothingSaid(db, hash, s);
    ResponsesAreFew(db, hash, s, messages);
    SayAllStep(db, hash, s, messages);
    SayAllStep(db, hash, s, messages[..i + 1]);
    assert messages[..i + 1][0] == messages[0] && messages[..i + 1][1..] == messages[1..][..i];
    var (after, u, response) := Say(db, hash, s, messages[0]);
    if i == 0 {
      SaidIsReadBack(db, hash, s, messages[0]);
      t, draft := u, DraftOf(s, messages[0]).value;
      NothingSaid(after, hash, u);
    } else {
      SayIsHeard(db, hash, s, messages[0]);
      t, draft := EverySentenceIsReadBack(after, hash, u, messages[1..], i - 1);
    }
  }

  // ---- a filled slot that is not read back ----

  lemma PleaseIsNoRequest()
    ensures Extract(["dubai", "please"]).draft.None?
  {
    var all := ["dubai", "please"];
    WordIsNoNumber("dubai");
    WordIsNoNumber("please");
    assert all[1..] == ["please"];
    NothingFromWords(all, 0);
  }

  lemma WordIsNoNumber(w: string)
    requires w in {"dubai", "please"}
    ensures !Numbers.IsNumberToken(w) && w !in {"a", "an"}
  {
    assert !Numbers.IsDigits(w);
  }

  lemma {:induction false} NothingFromWords(tokens: seq<string>, index: nat)
    requires forall t <- tokens :: !Numbers.IsNumberToken(t) && t !in {"a", "an"}
    ensures ExtractFrom(tokens, index).draft.None?
    decreases |tokens| - index
  {
    hide Numbers.IsNumberToken, Numbers.ResolveUnit, Numbers.RejectedUnit, Verdict;
    if index < |tokens| {
      assert tokens[index..][0] == tokens[index];
      NothingFromWords(tokens, index + 1);
    }
  }

  /** "5 kg of rice" is parked for want of a destination. */
  lemma RiceIsParked()
    ensures Extract(["5", "kg", "of", "rice"])
         == EnquiryExtraction(None, ["destination"], None, Partial(Some(5), Some("kg"), Some("Rice"), None))
  {
    hide Numbers.NumberAt, Numbers.ResolveUnit, Numbers.RejectedUnit, Verdict;
    var tokens := ["5", "kg", "of", "rice"];
    var after := ["kg"] + ["of", "rice"];
    assert tokens[0..] == ["5"] + after && tokens[1..] == after;
    FiveThenKg(after);
    ReadBack.UnitResolves("kg", ["of", "rice"]);
    assert Numbers.From(after, 1) == ["of", "rice"];
    RiceVerdict();
  }

  lemma RiceVerdict()
    ensures Verdict(5, "kg", ["of", "rice"])
         == EnquiryExtraction(None, ["destination"], None, Partial(Some(5), Some("kg"), Some("Rice"), None))
  {
    hide Fields;
    RiceFields();
    assert [] + ["destination"] == ["destination"];
    assert Titlecase(["rice"]) == "Rice";
  }

  lemma RiceFields()
    ensures Fields(["of", "rice"]) == (["rice"], None)
  {
    hide Vocabulary.TRAILING_FILLER, Vocabulary.LEADING_ARTICLES;
    assert ["of", "rice"][1..] == ["rice"] && ["rice"][0] == "rice";
    RiceIsNoFiller();
    assert "to" !in ["rice"] && "for" !in ["rice"];
  }

  lemma RiceIsNoFiller()
    ensures "rice" !in Vocabulary.TRAILING_FILLER && "rice" !in Vocabulary.LEADING_ARTICLES
  {
  }

  lemma FiveThenKg(after: seq<string>)
    requires after == ["kg"] + ["of", "rice"]
    ensures Numbers.NumberAt(["5"] + after) == (Some(5), 1)
  {
    hide Numbers.NumberAt;
    assert Decimal.Print(5) == "5";
    ReadBack.UnitIsNoNumber("kg");
    assert after[0] == "kg" && [] + ["5"] + after == ["5"] + after;
    Spelling.DigitTokensReadBack(5, false, [], after);
    assert Numbers.From([] + ["5"] + after, 0) == ["5"] + after;
  }

  /**
   * "5 kg of rice" and then "dubai please": the engine reads out and stages "Dubai Please", but would itself understand
   * the sentence as a delivery to Dubai.
   */
  lemma PleaseIsReadOut(intent: Intent)
    requires intent in {Scored(Unclear), Scored(Create)}
    ensures var slots := Slots(Partial(Some(5), Some("kg"), Some("Rice"), None), ["destination"]);
            var draft := EnquiryDraft("Rice", 5, "kg", "Dubai Please");
            && ParkedBy(slots, "5 kg of rice")
            && Fill(slots, Tokenise("dubai please"), intent) == Draft(draft)
            && Extract(Tokenise(ReadBack.Describe(draft))).draft != Some(draft)
  {
    hide Extract, Tokenise, Titlecase, ReadBack.Describe, ReadBack.Printable, IsToken, Join, Normalise,
         Vocabulary.CONTRACTIONS;
    RiceIsParked();
    PleaseIsNoRequest();
    ExampleTexts();
    ExampleTitles();
    ReadBack.PlainWordIsToken("rice");
    ReadBack.PlainWordIsToken("dubai");
    ReadBack.PlainWordIsToken("please");
    PleaseIsNotPrintable();
    DescribedIsReadBack(5, "kg", ["rice"], ["dubai", "please"]);
  }

  lemma ExampleTexts()
    ensures Tokenise("5 kg of rice") == ["5", "kg", "of", "rice"] && Tokenise("dubai please") == ["dubai", "please"]
  {
    hide Tokenise, IsToken, Join, Normalise, Vocabulary.CONTRACTIONS;
    forall w | w in ["5", "kg", "of", "rice"] ensures IsToken(w) && w !in Vocabulary.CONTRACTIONS {
      if w == "5" {
        ReadBack.DigitsAreToken("5");
        DigitsExpandToThemselves("5");
      } else {
        ReadBack.PlainWordIsToken(w);
      }
    }
    TokensOfJoin(["5", "kg", "of", "rice"]);
    PlainText(["dubai", "please"]);
    ExampleJoins();
  }

  lemma ExampleJoins()
    ensures Join(["5", "kg", "of", "rice"]) == "5 kg of rice" && Join(["dubai", "please"]) == "dubai please"
  {
    hide Join;
    ReadBack.JoinThree("5", "kg", "of");
    ReadBack.JoinOne("rice");
    ReadBack.JoinOne("dubai");
    ReadBack.JoinOne("please");
    ReadBack.JoinConcat(["5", "kg", "of"], ["rice"]);
    ReadBack.JoinConcat(["dubai"], ["please"]);
    assert ["5", "kg", "of"] + ["rice"] == ["5", "kg", "of", "rice"] && ["dubai"] + ["please"] == ["dubai", "please"];
    assert "5" + " " + "kg" + " " + "of" == "5 kg of" && "5 kg of" + " " + "rice" == "5 kg of rice";
    assert "dubai" + " " + "please" == "dubai please";
  }

  lemma ExampleTitles()
    ensures Titlecase(["rice"]) == "Rice" && Titlecase(["dubai", "please"]) == "Dubai Please"
  {
    hide Capitalise;
    ExampleCapitals();
    assert ["dubai", "please"][1..] == ["please"] && ["please"][1..] == [] && ["rice"][1..] == [];
    assert Titlecase([]) == "" && Titlecase(["please"]) == "Please";
    assert "Dubai" + " " + "Please" == "Dubai Please";
  }

  lemma ExampleCapitals()
    ensures Capitalise("rice") == "Rice" && Capitalise("dubai") == "Dubai" && Capitalise("please") == "Please"
  {
    assert "rice"[1..] == "ice" && "dubai"[1..] == "ubai" && "please"[1..] == "lease";
  }

  lemma PleaseIsNotPrintable()
    ensures !ReadBack.Printable(["rice"], ["dubai", "please"]) && ReadBack.IsUnit("kg")
  {
  }
}
