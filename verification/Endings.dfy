/** Conversations of the local engine that do end with an exception. */
module Endings {
  import opened Wrappers
  import opened Enquiries
  import opened Extraction
  import opened Dialogue
  import opened DialogueLaws
  import opened Tokeniser
  import Decimal
  import ReadBack
  import Vocabulary

  /** Nothing is staged, parked or suggested. */
  predicate IsIdle(s: Conversation) { s.pending.None? && s.confirmation.None? && !s.search && s.slots.None? }

  predicate IsRefusal(c: Message) {
    var text := Strip(c.text);
    text != "" && |text| <= MAX_TEXT_LENGTH && Classify(text, c.guess) == Refuse
  }

  /** A new row for these details, staged in the conversation. */
  lemma FirstProposal(db: Db, hash: Payload -> Digest, s: Conversation, m: Message)
    requires IsIdle(s) && DetailsOf(s, m).Some?
    requires Existing(db.confirmations, s.owner, s.id, hash(DetailsOf(s, m).value), m.hint).None?
    requires !KeyTaken(db.confirmations, s.owner.workspace, Key(s.id, hash(DetailsOf(s, m).value), m.now))
    ensures var details := DetailsOf(s, m).value;
            var (after, t, response) := Say(db, hash, s, m);
            && response.PleaseConfirm?
            && t == s.(pending := Some(details), confirmation := Some(|db.confirmations|))
            && after == db.(confirmations := db.confirmations
                              + [NewConfirmation(s.owner, s.id, hash(details), details, m.now)])
  {
    hide Say, DraftOf, Validated, DraftArguments, KeyTaken, Existing, ReadBack.Describe;
    SayProposes(db, hash, s, m);
    assert s.(slots := None) == s;
  }

  /** A refusal cancels the row and leaves the conversation idle. */
  lemma Refusal(db: Db, hash: Payload -> Digest, s: Conversation, c: Message)
    requires s.pending.Some? && s.confirmation.Some? && IsRefusal(c)
    requires Owns(db, s.owner, s.confirmation.value) && db.confirmations[s.confirmation.value].status == Pending
    ensures Say(db, hash, s, c)
         == (WithStatus(db, s.confirmation.value, Cancelled), s.(pending := None, confirmation := None), NothingCreated)
  {
    hide Strip, Classify, Handle, Propose, Fill, Write, Confirm;
  }

  /** Staged, refused, and proposed again at the same reading of the clock: the key of the new row is taken. */
  lemma ProposedAgain(db: Db, hash: Payload -> Digest, s: Conversation, m: Message)
    requires IsIdle(s) && DetailsOf(s, m).Some?
    requires var digest := hash(DetailsOf(s, m).value);
             && Existing(db.confirmations, s.owner, s.id, digest, m.hint).None?
             && KeyTaken(db.confirmations, s.owner.workspace, Key(s.id, digest, m.now))
    ensures Say(db, hash, s, m).2 == Died
  {
    hide Say, DetailsOf, KeyTaken, Existing;
    WhenAConversationDies(db, hash, s, m);
  }

  /** The tables after the refusal: nothing to reuse, and the key is there. */
  lemma CancelledRow(
      rows: seq<Confirmation>, who: Principal, session: nat, digest: Digest, details: Payload, m: Message)
    requires Existing(rows, who, session, digest, m.hint).None?
    ensures var row := NewConfirmation(who, session, digest, details, m.now).(status := Cancelled);
            && Existing(rows + [row], who, session, digest, m.hint).None?
            && KeyTaken(rows + [row], who.workspace, Key(session, digest, m.now))
  {
    hide FirstMatch;
    var row := NewConfirmation(who, session, digest, details, m.now).(status := Cancelled);
    var after := rows + [row];
    assert after[|rows|].owner.workspace == who.workspace && after[|rows|].key == Key(session, digest, m.now);
    forall i | 0 <= i < |after| ensures !Matches(after[i], who, session, digest) {
      if i < |rows| { assert after[i] == rows[i]; }
    }
  }

  /** Three messages at one reading of the clock: a proposal, its refusal, and the proposal again. */
  lemma ProposeRefusePropose(db: Db, hash: Payload -> Digest, s: Conversation, m: Message, c: Message)
    requires IsIdle(s) && DetailsOf(s, m).Some? && IsRefusal(c)
    requires Existing(db.confirmations, s.owner, s.id, hash(DetailsOf(s, m).value), m.hint).None?
    requires !KeyTaken(db.confirmations, s.owner.workspace, Key(s.id, hash(DetailsOf(s, m).value), m.now))
    ensures var responses := SayAll(db, hash, s, [m, c, m]).2;
            |responses| == 3 && responses[0].PleaseConfirm? && responses[1] == NothingCreated && responses[2] == Died
  {
    hide Say, SayAll, DetailsOf, KeyTaken, Existing, IsRefusal;
    var details := DetailsOf(s, m).value;
    var (db1, s1, _) := Say(db, hash, s, m);
    FirstProposal(db, hash, s, m);
    Refusal(db1, hash, s1, c);
    var (db2, s2, _) := Say(db1, hash, s1, c);
    assert s2 == s;
    CancelledRow(db.confirmations, s.owner, s.id, hash(details), details, m);
    assert db2.confirmations == db.confirmations
      + [NewConfirmation(s.owner, s.id, hash(details), details, m.now).(status := Cancelled)];
    ProposedAgain(db2, hash, s2, m);
    SayAllStep(db, hash, s, [m, c, m]);
    SayAllStep(db1, hash, s1, [c, m]);
    SayAllStep(db2, hash, s2, [m]);
    assert [m, c, m][1..] == [c, m] && [c, m][1..] == [m];
  }

  // ---- such messages exist ----

  const REQUEST := "5 kg of rice for delivery to goa"

  lemma RequestTokens()
    ensures Tokenise(REQUEST) == ReadBack.PrintedTokens(5, "kg", ["rice"], ["goa"])
  {
    hide Tokenise, IsToken, Join, Normalise, Vocabulary.CONTRACTIONS;
    var words := ["5", "kg", "of", "rice", "for", "delivery", "to", "goa"];
    forall w | w in words ensures IsToken(w) && w !in Vocabulary.CONTRACTIONS {
      if w == "5" {
        ReadBack.DigitsAreToken("5");
        FiveIsNoContraction();
      } else {
        ReadBack.PlainWordIsToken(w);
      }
    }
    TokensOfJoin(words);
    RequestJoins();
    assert Decimal.Print(5) == "5";
    assert ["5", "kg", "of"] + ["rice"] + ["for", "delivery", "to"] + ["goa"] == words;
  }

  lemma FiveIsNoContraction()
    ensures "5" !in Vocabulary.CONTRACTIONS
  {
  }

  lemma RequestJoins()
    ensures Join(["5", "kg", "of", "rice", "for", "delivery", "to", "goa"]) == REQUEST
  {
    hide Join;
    ReadBack.JoinThree("5", "kg", "of");
    ReadBack.JoinThree("rice", "for", "delivery");
    ReadBack.JoinConcat(["to"], ["goa"]);
    ReadBack.JoinOne("to");
    ReadBack.JoinOne("goa");
    ReadBack.JoinConcat(["5", "kg", "of"], ["rice", "for", "delivery"]);
    ReadBack.JoinConcat(["5", "kg", "of"] + ["rice", "for", "delivery"], ["to"] + ["goa"]);
    RequestWords();
    RequestParts();
  }

  lemma RequestWords()
    ensures ["5", "kg", "of"] + ["rice", "for", "delivery"] + (["to"] + ["goa"])
         == ["5", "kg", "of", "rice", "for", "delivery", "to", "goa"]
  {
  }

  lemma RequestParts()
    ensures "5" + " " + "kg" + " " + "of" + " " + ("rice" + " " + "for" + " " + "delivery") + " " + ("to" + " " + "goa")
         == REQUEST
  {
    var a, b, c := "5" + " " + "kg" + " " + "of", "rice" + " " + "for" + " " + "delivery", "to" + " " + "goa";
    assert a == "5 kg of";
    assert b == "rice for delivery";
    assert c == "to goa";
  }

  lemma EndsAreKept(s: string)
    requires s != "" && !IsSpace(s[0]) && !IsSpace(s[|s| - 1])
    ensures Strip(s) == s
  {
  }

  /** In an idle conversation the request proposes 5 kg of rice for Goa. */
  lemma RequestProposesRice(s: Conversation, m: Message)
    requires IsIdle(s) && m.text == REQUEST && m.guess == Create
    ensures DraftOf(s, m) == Some(EnquiryDraft("Rice", 5, "kg", "Goa")) && DetailsOf(s, m).Some?
  {
    hide Tokenise, Normalise, Strip, Extract, Mentions, Validated, Titlecase, ReadBack.Printable;
    EndsAreKept(REQUEST);
    RequestTokens();
    RiceDraft();
    RiceIsValid();
  }

  lemma RiceDraft()
    ensures Extract(ReadBack.PrintedTokens(5, "kg", ["rice"], ["goa"])).draft
         == Some(EnquiryDraft("Rice", 5, "kg", "Goa"))
  {
    hide Extract, ReadBack.PrintedTokens, IsToken, Titlecase;
    ReadBack.PlainWordIsToken("rice");
    ReadBack.PlainWordIsToken("goa");
    RiceIsPrintable();
    RiceTitles();
    ReadBack.ReadsBackIffPrintable(5, "kg", ["rice"], ["goa"]);
  }

  lemma RiceIsPrintable()
    ensures ReadBack.Printable(["rice"], ["goa"]) && ReadBack.IsUnit("kg")
  {
  }

  lemma RiceTitles()
    ensures Titlecase(["rice"]) == "Rice" && Titlecase(["goa"]) == "Goa"
  {
    assert "rice"[1..] == "ice" && "goa"[1..] == "oa" && ["rice"][1..] == [] && ["goa"][1..] == [];
  }

  lemma RiceIsValid()
    ensures Validated(DraftArguments(EnquiryDraft("Rice", 5, "kg", "Goa"))).Some?
  {
    hide Strip;
    EndsAreKept("Rice");
    EndsAreKept("Goa");
    DraftFields(EnquiryDraft("Rice", 5, "kg", "Goa"));
  }

  lemma DraftFields(d: EnquiryDraft)
    ensures var a := DraftArguments(d);
            && "product" in a && "quantity" in a && "unit" in a && "destination" in a && "distributor_id" in a
            && a["product"] == Text(d.product) && a["quantity"] == Number(d.quantity) && a["unit"] == Text(d.unit)
            && a["destination"] == Text(d.destination) && a["distributor_id"] == Null
  {
    assert "product" != "quantity" && "product" != "unit" && "quantity" != "unit";
    assert |"destination"| == 11 && |"distributor_id"| == 14;
  }

  /** "cancel" is a refusal, whatever the scores say. */
  lemma CancelRefuses(c: Message)
    requires c.text == "cancel"
    ensures IsRefusal(c)
  {
    hide Tokenise, Normalise, Strip, Contains, Join, Vocabulary.CONTRACTIONS;
    EndsAreKept("cancel");
    PlainText(["cancel"]);
    ReadBack.JoinOne("cancel");
    assert ["cancel"][0] == "cancel" && "cancel" in CancelTokens() && "cancel" !in ConfirmTokens();
    forall p <- ConfirmPhrases() ensures !Contains("cancel", p) { NoSpaceNoPhrase("cancel", p); }
  }

  lemma {:induction false} NoSpaceNoPhrase(text: string, phrase: string)
    requires ' ' !in text && ' ' in phrase
    ensures !Contains(text, phrase)
  {
    if text != "" { NoSpaceNoPhrase(text[1..], phrase); }
  }

  /**
   * A session that dies: the request, "cancel" and the request again, at one reading of the clock, from an idle
   * conversation with no row of its own.
   */
  lemma ASessionThatDies(db: Db, hash: Payload -> Digest, s: Conversation, now: real)
    requires IsIdle(s)
    requires forall i :: 0 <= i < |db.confirmations| ==>
               db.confirmations[i].session != s.id && db.confirmations[i].key.session != s.id
    ensures var m, c := Message(REQUEST, Create, false, 0, now, now), Message("cancel", Unclear, false, 0, now, now);
            var responses := SayAll(db, hash, s, [m, c, m]).2;
            |responses| == 3 && responses[0].PleaseConfirm? && responses[1] == NothingCreated && responses[2] == Died
  {
    hide SayAll, DetailsOf, DraftOf, IsRefusal;
    var m, c := Message(REQUEST, Create, false, 0, now, now), Message("cancel", Unclear, false, 0, now, now);
    RequestProposesRice(s, m);
    CancelRefuses(c);
    ProposeRefusePropose(db, hash, s, m, c);
  }
}
