/** Which position the extractor takes its quantity from. */
module Quantities {
  import opened Wrappers
  import opened Numbers
  import opened Extraction
  import Spelling

  /** A number with a unit behind it, supported or not, can be read from here. */
  ghost predicate Accepts(tokens: seq<string>, index: nat) {
    && index < |tokens| && NumberAt(tokens[index..]).0.Some?
    && var rest := tokens[index + NumberAt(tokens[index..]).1..];
       ResolveUnit(rest).Some? || RejectedUnit(rest).Some?
  }

  /** The extraction is decided at the first accepting position, and there is nothing to extract without one. */
  lemma {:induction false} FirstAcceptingPositionDecides(tokens: seq<string>, from: nat, index: nat)
    requires from <= index <= |tokens|
    requires forall j :: from <= j < index ==> !Accepts(tokens, j)
    ensures ExtractFrom(tokens, from) == ExtractFrom(tokens, index)
    ensures Accepts(tokens, index) ==>
              var e := ExtractFrom(tokens, from);
              if e.draft.Some? then Some(e.draft.value.quantity) == NumberAt(tokens[index..]).0
              else e.partial.quantity == NumberAt(tokens[index..]).0
    ensures index == |tokens| ==> ExtractFrom(tokens, from).missing == ["quantity", "unit"]
    decreases index - from
  {
    hide NumberAt, ResolveUnit, RejectedUnit, Fields, Titlecase;
    if from < index {
      assert !Accepts(tokens, from);
      FirstAcceptingPositionDecides(tokens, from + 1, index);
    }
  }

  /** A quantity read from a digit or number word is never the tail of a longer number. */
  lemma {:induction false} NoTruncatedQuantity(tokens: seq<string>, index: nat)
    requires Accepts(tokens, index) && IsNumberToken(tokens[index])
    requires forall j :: 0 <= j < index ==> !Accepts(tokens, j)
    ensures index > 0 ==> !IsNumberToken(tokens[index - 1])
    ensures index > 1 && tokens[index - 1] == "and" ==> !IsNumberToken(tokens[index - 2])
  {
    hide IsNumberToken, ResolveUnit, RejectedUnit, NumberAt;
    assert index > 0 ==> !Accepts(tokens, index - 1);
    assert index > 1 ==> !Accepts(tokens, index - 2);
    if index > 0 && IsNumberToken(tokens[index - 1]) {
      SameEnd(tokens, index - 1, index);
    }
    if index > 1 && tokens[index - 1] == "and" && IsNumberToken(tokens[index - 2]) {
      NumberWordsAreNotConnectives();
      SameEnd(tokens, index - 2, index);
    }
  }

  /** Starting one number token earlier, with or without an "and" between, the reader stops at the same place. */
  lemma SameEnd(tokens: seq<string>, early: nat, late: nat)
    requires early < late < |tokens| && IsNumberToken(tokens[early]) && IsNumberToken(tokens[late])
    requires late == early + 1 || (late == early + 2 && tokens[early + 1] == "and" && !IsNumberToken("and"))
    ensures NumberAt(tokens[early..]).0.Some?
    ensures early + NumberAt(tokens[early..]).1 == late + NumberAt(tokens[late..]).1
  {
    hide IsNumberToken, Effect;
    var rest, last := tokens[early..], tokens[late..];
    var s := Effect(rest[0], START);
    assert Absorb(rest, START) == Some(s) && rest[1..] == tokens[early + 1..];
    assert Read(rest, START).1 == 1 + Read(tokens[early + 1..], s).1;
    if late == early + 2 {
      var joint := tokens[early + 1..];
      assert joint[0] == "and" && joint[1] == tokens[late] && joint[1..] == last;
      assert Absorb(joint, s) == Some(s);
      assert Read(joint, s).1 == 1 + Read(last, s).1;
    }
    assert last[0] == tokens[late];
    assert Read(last, s).1 == 1 + Read(last[1..], Effect(last[0], s)).1;
    assert Read(last, START).1 == 1 + Read(last[1..], Effect(last[0], START)).1;
    Spelling.StopIsIndependent(last[1..], Effect(last[0], s), Effect(last[0], START));
  }
}
