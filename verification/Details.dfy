/** What the details of an enquiry are: which arguments are accepted, and what each field takes from them. */
module Details {
  import opened Wrappers
  import opened Enquiries
  import Tokeniser

  // ---- trimming ----

  /** The characters that trimming takes away. */
  predicate IsBlank(c: char) {
    || c == ' ' || c == '\t' || c == '\n' || c == '\r'
    || c == '\U{000B}' || c == '\U{000C}' || c == '\U{001C}' || c == '\U{001D}' || c == '\U{001E}' || c == '\U{001F}'
  }

  /** `trimmed` is what is left of the text between its first and its last character that is not blank. */
  ghost predicate IsTrimmed(text: string, trimmed: string) { exists i, j :: IsCut(text, i, j, trimmed) }

  predicate IsCut(text: string, i: int, j: int, trimmed: string) {
    && 0 <= i <= j <= |text| && trimmed == text[i..j]
    && (forall k :: 0 <= k < i ==> IsBlank(text[k])) && (forall k :: j <= k < |text| ==> IsBlank(text[k]))
    && (i < j ==> !IsBlank(text[i]) && !IsBlank(text[j - 1]))
  }

  lemma BlankIsSpace(c: char)
    ensures IsBlank(c) <==> Tokeniser.IsSpace(c)
  {
    assert c as int == 32 <==> c == ' ';
    assert 9 <= c as int <= 13 <==> '\t' <= c <= '\r';
  }

  lemma SliceOfSlice(text: string, from: nat, to: nat, i: nat, j: nat)
    requires from <= to <= |text| && i <= j <= to - from
    ensures text[from..to][i..j] == text[from + i..from + j]
  {
    var a, b := text[from..to][i..j], text[from + i..from + j];
    assert |a| == |b| && forall k :: 0 <= k < |a| ==> a[k] == text[from + i + k] && b[k] == text[from + i + k];
    assert a == b;
  }

  lemma WiderIsTrimmed(text: string, front: nat, back: nat, trimmed: string)
    requires front + back <= |text| && IsTrimmed(text[front..|text| - back], trimmed)
    requires forall k :: 0 <= k < front ==> IsBlank(text[k])
    requires forall k :: |text| - back <= k < |text| ==> IsBlank(text[k])
    ensures IsTrimmed(text, trimmed)
  {
    hide IsBlank;
    var inner := text[front..|text| - back];
    var i, j :| IsCut(inner, i, j, trimmed);
    SliceOfSlice(text, front, |text| - back, i, j);
    forall k | 0 <= k < front + i ensures IsBlank(text[k]) {
      if front <= k { assert text[k] == inner[k - front]; }
    }
    forall k | front + j <= k < |text| ensures IsBlank(text[k]) {
      if k < |text| - back { assert text[k] == inner[k - front]; }
    }
    assert IsCut(text, front + i, front + j, trimmed);
  }

  lemma {:induction false} StripIsTrimmed(text: string)
    ensures IsTrimmed(text, Tokeniser.Strip(text))
    decreases |text|
  {
    hide IsTrimmed;
    if text == "" {
      NothingIsTrimmed(text);
    } else if Tokeniser.IsSpace(text[0]) {
      BlankIsSpace(text[0]);
      StripIsTrimmed(text[1..]);
      assert text[1..|text| - 0] == text[1..];
      WiderIsTrimmed(text, 1, 0, Tokeniser.Strip(text));
    } else if Tokeniser.IsSpace(text[|text| - 1]) {
      BlankIsSpace(text[|text| - 1]);
      StripIsTrimmed(text[..|text| - 1]);
      assert text[0..|text| - 1] == text[..|text| - 1];
      WiderIsTrimmed(text, 0, 1, Tokeniser.Strip(text));
    } else {
      NothingIsTrimmed(text);
    }
  }

  lemma NothingIsTrimmed(text: string)
    requires text == "" || (!Tokeniser.IsSpace(text[0]) && !Tokeniser.IsSpace(text[|text| - 1]))
    ensures IsTrimmed(text, text)
  {
    hide IsBlank;
    if text != "" {
      BlankIsSpace(text[0]);
      BlankIsSpace(text[|text| - 1]);
    }
    assert text[0..|text|] == text;
    assert IsCut(text, 0, |text|, text);
  }

  lemma TrimmedIsUnique(text: string, a: string, b: string)
    requires IsTrimmed(text, a) && IsTrimmed(text, b)
    ensures a == b
  {
    hide IsBlank;
    var i, j :| IsCut(text, i, j, a);
    var m, n :| IsCut(text, m, n, b);
    if i < j && m < n {
      assert i <= m && m <= i && j <= n && n <= j;
    }
    assert i < j <==> m < n;
  }

  /** Stripping is trimming. */
  lemma WhatIsStripped(text: string, trimmed: string)
    ensures IsTrimmed(text, trimmed) <==> trimmed == Tokeniser.Strip(text)
  {
    hide IsTrimmed;
    StripIsTrimmed(text);
    if IsTrimmed(text, trimmed) { TrimmedIsUnique(text, trimmed, Tokeniser.Strip(text)); }
  }

  // ---- what is accepted ----

  /** A text of at least one and at most 160 characters, not all of them blank. */
  predicate IsShortText(args: map<string, Json>, field: string) {
    && field in args && args[field].Text? && 1 <= |args[field].s| <= 160
    && exists k :: 0 <= k < |args[field].s| && !IsBlank(args[field].s[k])
  }

  predicate IsAccepted(args: map<string, Json>) {
    && IsShortText(args, "product") && IsShortText(args, "destination")
    && "quantity" in args && args["quantity"].Number? && 1 <= args["quantity"].n <= 1_000_000
    && "unit" in args && args["unit"].Text?
    && (args["unit"].s == "kg" || args["unit"].s == "tonnes" || args["unit"].s == "units")
    && ("distributor_id" in args ==>
          args["distributor_id"].Null? || (args["distributor_id"].Text? && |args["distributor_id"].s| <= 32))
  }

  /** Each field of the details is what the argument of that name says. */
  ghost predicate CarriesArguments(args: map<string, Json>, p: Payload)
    requires IsAccepted(args)
  {
    && IsTrimmed(args["product"].s, p.product)
    && p.quantity == args["quantity"].n
    && p.unit == args["unit"].s
    && IsTrimmed(args["destination"].s, p.destination)
    && p.distributor == if "distributor_id" in args && args["distributor_id"].Text? then Some(args["distributor_id"].s)
                        else None
  }

  lemma StrippedIsBlank(text: string)
    ensures Tokeniser.Strip(text) != "" <==> exists k :: 0 <= k < |text| && !IsBlank(text[k])
  {
    hide IsBlank, Tokeniser.Strip;
    StripIsTrimmed(text);
    var r := Tokeniser.Strip(text);
    var i, j :| IsCut(text, i, j, r);
    assert r != "" <==> i < j;
  }

  lemma WhatIsShort(args: map<string, Json>, field: string)
    ensures ShortText(args, field).Some? <==> IsShortText(args, field)
    ensures ShortText(args, field).Some? ==> IsTrimmed(args[field].s, ShortText(args, field).value)
  {
    hide IsBlank, IsTrimmed, Tokeniser.Strip;
    if field in args && args[field].Text? {
      StrippedIsBlank(args[field].s);
      StripIsTrimmed(args[field].s);
    }
  }

  /**
   * Which arguments are accepted, and which details they stand for: both short texts without the blanks around them,
   * the quantity and the unit as they are, and the distributor if one is named.
   */
  lemma WhatIsValidated(args: map<string, Json>)
    ensures Validated(args).Some? <==> IsAccepted(args)
    ensures Validated(args).Some? ==> CarriesArguments(args, Validated(args).value)
  {
    hide IsShortText, IsTrimmed, ShortText;
    WhatIsShort(args, "product");
    WhatIsShort(args, "destination");
    ShortTextsAreThere(args, "product");
    ShortTextsAreThere(args, "destination");
  }

  lemma ShortTextsAreThere(args: map<string, Json>, field: string)
    ensures IsShortText(args, field) ==> field in args && args[field].Text?
  {
  }

  /** A text that neither begins nor ends with a blank is its own trimming. */
  lemma EndsAreTrimmed(text: string, trimmed: string)
    requires text == "" || (!IsBlank(text[0]) && !IsBlank(text[|text| - 1]))
    requires IsTrimmed(text, trimmed)
    ensures trimmed == text
  {
    hide IsTrimmed;
    if text != "" {
      BlankIsSpace(text[0]);
      BlankIsSpace(text[|text| - 1]);
    }
    NothingIsTrimmed(text);
    TrimmedIsUnique(text, text, trimmed);
  }
}
