/** Pulling a purchase enquiry out of a token list. */
module Extraction {
  import opened Wrappers
  import opened Vocabulary
  import opened Numbers

  // ---- trimming ----

  function StripTrailing(tokens: seq<string>, noise: set<string>): (r: seq<string>)
    ensures r <= tokens
    ensures r != [] ==> r[|r| - 1] !in noise
    ensures forall t <- tokens[|r|..] :: t in noise
  {
    if tokens == [] || tokens[|tokens| - 1] !in noise then tokens
    else StripTrailing(tokens[..|tokens| - 1], noise)
  }

  function StripLeading(tokens: seq<string>, noise: set<string>): (r: seq<string>)
    ensures |r| <= |tokens| && r == tokens[|tokens| - |r|..]
    ensures r != [] ==> r[0] !in noise
    ensures forall t <- tokens[..|tokens| - |r|] :: t in noise
  {
    if tokens == [] || tokens[0] !in noise then tokens else StripLeading(tokens[1..], noise)
  }

  function StripFiller(tokens: seq<string>): seq<string> {
    StripLeading(StripTrailing(tokens, TRAILING_FILLER), LEADING_ARTICLES)
  }

  function StripProductNoise(tokens: seq<string>): seq<string> { StripTrailing(tokens, PRODUCT_TRAILING_NOISE) }

  method StripFillerLoop(tokens: seq<string>) returns (result: seq<string>)
    ensures result == StripFiller(tokens)
  {
    result := tokens;
    while result != [] && result[|result| - 1] in TRAILING_FILLER
      invariant StripTrailing(result, TRAILING_FILLER) == StripTrailing(tokens, TRAILING_FILLER)
    {
      result := result[..|result| - 1];
    }
    while result != [] && result[0] in LEADING_ARTICLES
      invariant StripLeading(result, LEADING_ARTICLES) == StripFiller(tokens)
    {
      result := result[1..];
    }
  }

  method StripProductNoiseLoop(tokens: seq<string>) returns (result: seq<string>)
    ensures result == StripProductNoise(tokens)
  {
    result := tokens;
    while result != [] && result[|result| - 1] in PRODUCT_TRAILING_NOISE
      invariant StripProductNoise(result) == StripProductNoise(tokens)
    {
      result := result[..|result| - 1];
    }
  }

  // ---- the destination marker ----

  function LastIndex(tokens: seq<string>, word: string): (k: nat)
    requires word in tokens
    ensures k < |tokens| && tokens[k] == word
    ensures forall j :: k < j < |tokens| ==> tokens[j] != word
  {
    if tokens[|tokens| - 1] == word then |tokens| - 1 else LastIndex(tokens[..|tokens| - 1], word)
  }

  /** Where the destination marker stands and how long it is: the last "to", failing that the last "for". */
  function DestinationMarker(tokens: seq<string>): (hit: Option<(nat, nat)>)
    ensures hit.Some? ==> hit.value.0 + hit.value.1 <= |tokens|
  {
    if "to" in tokens then Some((LastIndex(tokens, "to"), 1))
    else if "for" in tokens then Some((LastIndex(tokens, "for"), 1))
    else None
  }

  /** A marker found at an index: the index, the marker's length, and whether it ends in "to". */
  datatype Hit = Hit(index: nat, length: nat, strong: bool)

  ghost predicate Ascending(hits: seq<Hit>) { forall i, j :: 0 <= i < j < |hits| ==> hits[i].index < hits[j].index }

  function Strong(hits: seq<Hit>): (r: seq<Hit>)
    ensures forall h :: h in r <==> h in hits && h.strong
    ensures Ascending(hits) ==> Ascending(r)
  {
    if hits == [] then []
    else
      var init, last := hits[..|hits| - 1], hits[|hits| - 1];
      assert hits == init + [last];
      StrongGrows(init, last, Strong(init));
      Strong(init) + if last.strong then [last] else []
  }

  lemma StrongGrows(init: seq<Hit>, last: Hit, rest: seq<Hit>)
    requires forall h :: h in rest <==> h in init && h.strong
    requires Ascending(init) ==> Ascending(rest)
    ensures var r := rest + if last.strong then [last] else [];
            && (forall h :: h in r <==> h in init + [last] && h.strong)
            && (Ascending(init + [last]) ==> Ascending(r))
  {
    if Ascending(init + [last]) {
      AscendingInit(init, last);
      if last.strong {
        forall h <- rest ensures h.index < last.index { assert h in init; }
        AscendingAppend(rest, last);
      } else {
        assert rest + [] == rest;
      }
    }
  }

  lemma AscendingInit(init: seq<Hit>, last: Hit)
    requires Ascending(init + [last])
    ensures Ascending(init) && forall h <- init :: h.index < last.index
  {
    var hits := init + [last];
    forall i, j | 0 <= i < j < |init| ensures init[i].index < init[j].index {
      assert hits[i] == init[i] && hits[j] == init[j];
    }
    forall h <- init ensures h.index < last.index {
      var i :| 0 <= i < |init| && init[i] == h;
      assert hits[i] == h && hits[|init|] == last;
    }
  }

  lemma AscendingAppend(hits: seq<Hit>, last: Hit)
    requires Ascending(hits) && forall h <- hits :: h.index < last.index
    ensures Ascending(hits + [last])
  {
  }

  /** The first table entry that the tokens at `index` start with, if any. */
  ghost predicate FirstMarker(tokens: seq<string>, index: nat, k: nat) {
    && index < |tokens| && k < |DESTINATION_MARKERS|
    && DESTINATION_MARKERS[k] <= tokens[index..]
    && forall j :: 0 <= j < k ==> !(DESTINATION_MARKERS[j] <= tokens[index..])
  }

  /** Every entry of the table ends in "to" or "for", and a bare "to" is matched by the one-word entry only. */
  lemma MarkerShape(tokens: seq<string>, index: nat, k: nat)
    requires FirstMarker(tokens, index, k)
    ensures var m := DESTINATION_MARKERS[k];
            && index + |m| <= |tokens| && m != []
            && (m[|m| - 1] == "to" || m[|m| - 1] == "for")
            && tokens[index + |m| - 1] == m[|m| - 1]
            && (tokens[index] == "to" ==> |m| == 1)
            && (tokens[index] == "for" && "to" !in tokens ==> |m| == 1)
  {
    var m := DESTINATION_MARKERS[k];
    assert m[0] == tokens[index] && m[|m| - 1] == tokens[index..][|m| - 1];
  }

  lemma BareMarkersAreListed(tokens: seq<string>, index: nat)
    requires index < |tokens|
    ensures tokens[index] == "to" ==> DESTINATION_MARKERS[12] <= tokens[index..]
    ensures tokens[index] == "for" ==> DESTINATION_MARKERS[13] <= tokens[index..]
  {
    assert tokens[index..][0] == tokens[index];
  }

  lemma NoStrongHits(hits: seq<Hit>)
    requires forall h <- hits :: !h.strong
    ensures Strong(hits) == []
  {
    hide Strong;
    if Strong(hits) != [] {
      assert Strong(hits)[0] in Strong(hits);
      assert false;
    }
  }

  ghost predicate Reaches(tokens: seq<string>, index: nat, word: string) {
    word in tokens && index <= LastIndex(tokens, word)
  }

  /** What the search has collected before `index`: every hit ends in its word, every bare marker is there. */
  ghost predicate Collected(tokens: seq<string>, index: nat, hits: seq<Hit>) {
    && Ascending(hits) && (forall h <- hits :: h.index < index)
    && (forall h <- hits :: Reaches(tokens, h.index, if h.strong then "to" else "for"))
    && (forall i {:trigger Hit(i, 1, true)} :: 0 <= i < index && i < |tokens| && tokens[i] == "to" ==>
      Hit(i, 1, true) in hits)
    && (forall i {:trigger Hit(i, 1, false)} ::
          0 <= i < index && i < |tokens| && tokens[i] == "for" && "to" !in tokens ==> Hit(i, 1, false) in hits)
  }

  lemma CollectedAtStart(tokens: seq<string>)
    ensures Collected(tokens, 0, [])
  {
  }

  lemma CollectHit(tokens: seq<string>, index: nat, hits: seq<Hit>, k: nat)
    requires Collected(tokens, index, hits) && FirstMarker(tokens, index, k)
    ensures var m := DESTINATION_MARKERS[k];
            m != [] && Collected(tokens, index + 1, hits + [Hit(index, |m|, m[|m| - 1] == "to")])
  {
    hide Vocabulary.DESTINATION_MARKERS;
    MarkerShape(tokens, index, k);
    var m := DESTINATION_MARKERS[k];
    var added := hits + [Hit(index, |m|, m[|m| - 1] == "to")];
    assert forall h <- hits :: h in added;
    assert added[|hits|] in added;
    assert tokens[index + |m| - 1] in tokens;
  }

  lemma CollectNothing(tokens: seq<string>, index: nat, hits: seq<Hit>)
    requires Collected(tokens, index, hits) && index < |tokens|
    requires forall j :: 0 <= j < |DESTINATION_MARKERS| ==> !(DESTINATION_MARKERS[j] <= tokens[index..])
    ensures Collected(tokens, index + 1, hits)
  {
    BareMarkersAreListed(tokens, index);
  }

  lemma TopHit(hits: seq<Hit>, top: Hit)
    requires Ascending(hits) && top in hits && forall h <- hits :: h.index <= top.index
    ensures hits[|hits| - 1] == top
  {
    assert hits[|hits| - 1] in hits;
  }

  /** The last strong hit is the last bare "to". */
  lemma LastStrongHit(tokens: seq<string>, hits: seq<Hit>)
    requires Collected(tokens, |tokens|, hits) && "to" in tokens
    ensures var c := Strong(hits);
            c != [] && c[|c| - 1] == Hit(LastIndex(tokens, "to"), 1, true)
  {
    hide Strong, LastIndex;
    var top := Hit(LastIndex(tokens, "to"), 1, true);
    assert top in hits;
    assert forall h <- Strong(hits) :: h.index <= top.index;
    TopHit(Strong(hits), top);
  }

  /** Without a "to" no hit is strong, and without a "for" either there is no hit at all. */
  lemma WeakHits(tokens: seq<string>, hits: seq<Hit>)
    requires Collected(tokens, |tokens|, hits) && "to" !in tokens
    ensures forall h <- hits :: !h.strong
    ensures "for" !in tokens ==> hits == []
  {
    hide LastIndex;
    if "for" !in tokens && hits != [] {
      assert hits[0] in hits;
    }
  }

  lemma LastWeakHit(tokens: seq<string>, hits: seq<Hit>)
    requires Collected(tokens, |tokens|, hits) && "to" !in tokens && "for" in tokens
    ensures hits != [] && hits[|hits| - 1] == Hit(LastIndex(tokens, "for"), 1, false)
  {
    hide LastIndex;
    WeakHits(tokens, hits);
    TopHit(hits, Hit(LastIndex(tokens, "for"), 1, false));
  }

  lemma LastCandidate(tokens: seq<string>, hits: seq<Hit>)
    requires Collected(tokens, |tokens|, hits)
    ensures var c := if Strong(hits) != [] then Strong(hits) else hits;
            DestinationMarker(tokens)
            == if c == [] then None else Some((c[|c| - 1].index, c[|c| - 1].length))
  {
    hide LastIndex, Strong, Collected;
    if "to" in tokens {
      LastStrongHit(tokens, hits);
    } else {
      WeakHits(tokens, hits);
      NoStrongHits(hits);
      if "for" in tokens { LastWeakHit(tokens, hits); }
    }
  }

  /** The table-driven search agrees with the two-line rule on every token list. */
  method FindDestination(tokens: seq<string>) returns (hit: Option<(nat, nat)>)
    ensures hit == DestinationMarker(tokens)
  {
    hide Vocabulary.DESTINATION_MARKERS, DestinationMarker, Strong, Collected;
    var hits: seq<Hit> := [];
    CollectedAtStart(tokens);
    for index := 0 to |tokens|
      invariant Collected(tokens, index, hits)
    {
      ghost var before := hits;
      var k := 0;
      ghost var found := false;
      while k < |DESTINATION_MARKERS|
        invariant k <= |DESTINATION_MARKERS| && !found && hits == before
        invariant forall j :: 0 <= j < k ==> !(DESTINATION_MARKERS[j] <= tokens[index..])
      {
        var marker := DESTINATION_MARKERS[k];
        if marker <= tokens[index..] {
          CollectHit(tokens, index, hits, k);
          hits := hits + [Hit(index, |marker|, marker[|marker| - 1] == "to")];
          found := true;
          break;
        }
        k := k + 1;
      }
      if !found { CollectNothing(tokens, index, hits); }
    }
    LastCandidate(tokens, hits);
    if hits == [] {
      return None;
    }
    var strong := Strong(hits);
    var candidates := if strong != [] then strong else hits;
    var chosen := candidates[|candidates| - 1];
    return Some((chosen.index, chosen.length));
  }

  // ---- what is extracted ----

  datatype EnquiryDraft = EnquiryDraft(product: string, quantity: nat, unit: string, destination: string)

  /** The slots already known of an incomplete enquiry. */
  datatype Partial = Partial(
    quantity: Option<nat>, unit: Option<string>, product: Option<string>, destination: Option<string>)

  const NOTHING_KNOWN := Partial(None, None, None, None)

  /** Either a complete draft, or a precise reason why there is none. */
  datatype EnquiryExtraction = EnquiryExtraction(
    draft: Option<EnquiryDraft>, missing: seq<string>, unsupportedUnit: Option<string>, partial: Partial)

  function Capitalise(token: string): string {
    if token != "" && 'a' <= token[0] <= 'z' then [token[0] - 'a' + 'A'] + token[1..] else token
  }

  /** The tokens joined by spaces, each with its first letter raised; empty tokens are skipped. */
  function Titlecase(tokens: seq<string>): string {
    if tokens == [] then ""
    else if tokens[0] == "" then Titlecase(tokens[1..])
    else
      var tail := Titlecase(tokens[1..]);
      if tail == "" then Capitalise(tokens[0]) else Capitalise(tokens[0]) + " " + tail
  }

  function Known(tokens: seq<string>): Option<string> { if tokens == [] then None else Some(Titlecase(tokens)) }

  /** The product tokens, and the destination tokens once a marker is found, in what follows the unit. */
  function Fields(rest: seq<string>): (seq<string>, Option<seq<string>>) {
    var body := if rest != [] && rest[0] == "of" then rest[1..] else rest;
    match DestinationMarker(body)
    case None => (StripFiller(body), None)
    case Some((at, length)) =>
      (StripProductNoise(StripFiller(body[..at])), Some(StripFiller(body[at + length..])))
  }

  /** The verdict once a quantity and a unit have been read. */
  function Verdict(quantity: nat, unit: string, rest: seq<string>): EnquiryExtraction {
    var (product, destination) := Fields(rest);
    var place := if destination.Some? then destination.value else [];
    if product != [] && place != [] then
      EnquiryExtraction(Some(EnquiryDraft(Titlecase(product), quantity, unit, Titlecase(place))), [], None,
        NOTHING_KNOWN)
    else
      EnquiryExtraction(
        None,
        (if product == [] then ["product"] else []) + (if place == [] then ["destination"] else []),
        None,
        Partial(Some(quantity), Some(unit), Known(product), Known(place)))
  }

  /** The first position from which a number followed by a unit, supported or not, can be read. */
  function ExtractFrom(tokens: seq<string>, index: nat): EnquiryExtraction
    decreases |tokens| - index
  {
    if index >= |tokens| then EnquiryExtraction(None, ["quantity", "unit"], None, NOTHING_KNOWN)
    else
      var (quantity, used) := NumberAt(tokens[index..]);
      if quantity.None? then ExtractFrom(tokens, index + 1)
      else
        var rest := tokens[index + used..];
        match ResolveUnit(rest)
        case Some((unit, length)) => Verdict(quantity.value, unit, From(rest, length))
        case None =>
          match RejectedUnit(rest)
          case Some(unit) =>
            EnquiryExtraction(None, [], Some(unit), NOTHING_KNOWN.(quantity := quantity))
          case None => ExtractFrom(tokens, index + 1)
  }

  function Extract(tokens: seq<string>): EnquiryExtraction {
    if tokens == [] then
      EnquiryExtraction(None, ["quantity", "unit", "product", "destination"], None, NOTHING_KNOWN)
    else ExtractFrom(tokens, 0)
  }

  method SplitFields(rest: seq<string>) returns (product: seq<string>, destination: Option<seq<string>>)
    ensures (product, destination) == Fields(rest)
  {
    hide StripFiller, StripProductNoise, DestinationMarker;
    var body := rest;
    if body != [] && body[0] == "of" {
      body := body[1..];
    }
    var hit := FindDestination(body);
    if hit.None? {
      product := StripFillerLoop(body);
      return product, None;
    }
    var trimmed := StripFillerLoop(body[..hit.value.0]);
    product := StripProductNoiseLoop(trimmed);
    var place := StripFillerLoop(body[hit.value.0 + hit.value.1..]);
    return product, Some(place);
  }

  method ExtractEnquiry(tokens: seq<string>) returns (extraction: EnquiryExtraction)
    ensures extraction == Extract(tokens)
  {
    hide NumberAt, ResolveUnit, RejectedUnit, Fields, Titlecase;
    if tokens == [] {
      return EnquiryExtraction(None, ["quantity", "unit", "product", "destination"], None, NOTHING_KNOWN);
    }
    for index := 0 to |tokens|
      invariant Extract(tokens) == ExtractFrom(tokens, index)
    {
      var quantity, quantityLength := ParseNumber(tokens, index);
      if quantity.None? {
        continue;
      }
      var unitIndex := index + quantityLength;
      var resolved := ResolveUnit(tokens[unitIndex..]);
      if resolved.None? {
        var rejected := RejectedUnit(tokens[unitIndex..]);
        if rejected.Some? {
          return EnquiryExtraction(None, [], rejected, NOTHING_KNOWN.(quantity := quantity));
        }
        continue;
      }
      var unit, unitLength := resolved.value.0, resolved.value.1;
      var after := From(tokens[unitIndex..], unitLength);
      var product, place := SplitFields(after);
      if place.None? {
        if product != [] {
          return EnquiryExtraction(
              None, ["destination"], None, Partial(quantity, Some(unit), Some(Titlecase(product)), None));
        }
        return EnquiryExtraction(None, ["product", "destination"], None, Partial(quantity, Some(unit), None, None));
      }
      var destination := place.value;
      var partial := Partial(quantity, Some(unit), None, None);
      if product != [] {
        partial := partial.(product := Some(Titlecase(product)));
      }
      if destination != [] {
        partial := partial.(destination := Some(Titlecase(destination)));
      }
      var missing := (if product == [] then ["product"] else []) + (if destination == [] then ["destination"] else []);
      if missing != [] {
        return EnquiryExtraction(None, missing, None, partial);
      }
      return EnquiryExtraction(
          Some(EnquiryDraft(Titlecase(product), quantity.value, unit, Titlecase(destination))), [], None,
            NOTHING_KNOWN);
    }
    return EnquiryExtraction(None, ["quantity", "unit"], None, NOTHING_KNOWN);
  }
}
