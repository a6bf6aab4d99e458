/** The migration that starts the counters, and the numbers that are handed out from then on. */
module Counters {
  import opened Wrappers
  import opened Enquiries
  import opened Ledger
  import Decimal

  // ---- the migration ----

  const DEFAULT_NUMBER := 1000

  /** The number behind a prefix, if what follows it is a run of digits. */
  function Parsed(prefix: string, value: string): Option<nat> {
    if prefix <= value && value[|prefix|..] != "" && Decimal.AllDigits(value[|prefix|..]) then
      Some(Decimal.Value(value[|prefix|..]))
    else None
  }

  /** One more than the largest number behind the prefix, or than 1000 when there is none. */
  predicate IsNext(prefix: string, values: seq<string>, n: nat) {
    && (forall i :: 0 <= i < |values| && Parsed(prefix, values[i]).Some? ==> Parsed(prefix, values[i]).value < n)
    && if exists i :: 0 <= i < |values| && Parsed(prefix, values[i]).Some?
       then exists i :: 0 <= i < |values| && Parsed(prefix, values[i]).Some? && n == Parsed(prefix, values[i]).value + 1
       else n == 1001
  }

  lemma {:induction false} ValueOfDigits(digits: string, d: char)
    requires Decimal.AllDigits(digits) && '0' <= d <= '9'
    ensures Decimal.AllDigits(digits + [d])
    ensures Decimal.Value(digits + [d]) == 10 * Decimal.Value(digits) + (d as int - '0' as int)
    ensures Decimal.Value("") == 0
  {
    assert (digits + [d])[..|digits|] == digits;
  }

  /** Exactly the values that are the prefix with digits behind it have a number, the one that the digits say. */
  lemma WhatIsParsed(prefix: string, digits: string, value: string)
    ensures Parsed(prefix, value).Some? <==> exists s: string ::
              s != "" && (forall i :: 0 <= i < |s| ==> '0' <= s[i] <= '9') && value == prefix + s
    ensures digits != "" && Decimal.AllDigits(digits) ==>
              Parsed(prefix, prefix + digits) == Some(Decimal.Value(digits))
  {
    hide Decimal.Value;
    if prefix <= value {
      var s := value[|prefix|..];
      assert value == prefix + s;
      if Decimal.AllDigits(s) { assert forall i :: 0 <= i < |s| ==> s[i] in s; }
    }
    assert (prefix + digits)[|prefix|..] == digits;
    if s: string :| s != "" && (forall i :: 0 <= i < |s| ==> '0' <= s[i] <= '9') && value == prefix + s {
      assert value[|prefix|..] == s && Decimal.AllDigits(s);
    }
  }

  method NextNumber(prefix: string, values: seq<string>) returns (n: nat)
    ensures IsNext(prefix, values, n)
  {
    var numbers: seq<nat> := [];
    for k := 0 to |values|
      invariant forall m <- numbers :: exists i :: 0 <= i < k && Parsed(prefix, values[i]) == Some(m)
      invariant forall i :: 0 <= i < k && Parsed(prefix, values[i]).Some? ==> Parsed(prefix, values[i]).value in numbers
    {
      var value := values[k];
      if prefix <= value {
        var suffix := value[|prefix|..];
        if suffix != "" && Decimal.AllDigits(suffix) {
          numbers := numbers + [Decimal.Value(suffix)];
        }
      }
    }
    var largest := Largest(numbers);
    return largest + 1;
  }

  /** `max(numbers, default=1000)`. */
  method Largest(numbers: seq<nat>) returns (largest: nat)
    ensures numbers == [] ==> largest == DEFAULT_NUMBER
    ensures numbers != [] ==> largest in numbers && forall m <- numbers :: m <= largest
  {
    if numbers == [] {
      return DEFAULT_NUMBER;
    }
    largest := numbers[0];
    for i := 1 to |numbers|
      invariant largest in numbers && forall k :: 0 <= k < i ==> numbers[k] <= largest
    {
      if numbers[i] > largest {
        largest := numbers[i];
      }
    }
  }

  function EnquiryIds(enquiries: seq<Enquiry>, workspace: string): (ids: seq<string>)
    ensures forall i :: 0 <= i < |enquiries| && enquiries[i].buyer.workspace == workspace ==>
      enquiries[i].displayId in ids
    ensures forall id <- ids :: exists i ::
              0 <= i < |enquiries| && enquiries[i].buyer.workspace == workspace && enquiries[i].displayId == id
  {
    if enquiries == [] then []
    else
      var last := enquiries[|enquiries| - 1];
      EnquiryIds(enquiries[..|enquiries| - 1], workspace)
      + if last.buyer.workspace == workspace then [last.displayId] else []
  }

  function SupportIds(supports: seq<SupportRequest>, workspace: string): (ids: seq<string>)
    ensures forall i :: 0 <= i < |supports| && supports[i].requester.workspace == workspace ==>
      supports[i].displayId in ids
    ensures forall id <- ids :: exists i ::
              0 <= i < |supports| && supports[i].requester.workspace == workspace && supports[i].displayId == id
  {
    if supports == [] then []
    else
      var last := supports[|supports| - 1];
      SupportIds(supports[..|supports| - 1], workspace)
      + if last.requester.workspace == workspace then [last.displayId] else []
  }

  /** The counter of a workspace goes on after everything the workspace has. */
  predicate GoesOn(db: Db, workspace: string, counter: Counter) {
    && IsNext("ENQ-", EnquiryIds(db.enquiries, workspace), counter.enquiryNext)
    && IsNext("SUP-", SupportIds(db.supports, workspace), counter.supportNext)
  }

  method Upgrade(db: Db, workspaces: seq<string>) returns (counters: map<string, Counter>)
    ensures forall w :: w in counters <==> w in workspaces
    ensures forall w <- counters :: GoesOn(db, w, counters[w])
  {
    hide IsNext;
    counters := map[];
    for i := 0 to |workspaces|
      invariant forall w :: w in counters <==> w in workspaces[..i]
      invariant forall w <- counters :: GoesOn(db, w, counters[w])
    {
      var w := workspaces[i];
      assert workspaces[..i + 1] == workspaces[..i] + [w];
      var enquiryNext := NextNumber("ENQ-", EnquiryIds(db.enquiries, w));
      var supportNext := NextNumber("SUP-", SupportIds(db.supports, w));
      counters := counters[w := Counter(enquiryNext, supportNext)];
    }
    assert workspaces[..|workspaces|] == workspaces;
  }

  // ---- the numbers handed out ----

  lemma PrintedIsParsed(prefix: string, n: nat)
    ensures Parsed(prefix, prefix + Decimal.Print(n)) == Some(n)
  {
    hide Decimal.Print, Decimal.Value;
    assert (prefix + Decimal.Print(n))[|prefix|..] == Decimal.Print(n);
    Decimal.PrintValue(n);
  }

  lemma {:induction false} EnquiryIdsAppend(enquiries: seq<Enquiry>, e: Enquiry, workspace: string)
    ensures EnquiryIds(enquiries + [e], workspace)
         == EnquiryIds(enquiries, workspace) + if e.buyer.workspace == workspace then [e.displayId] else []
  {
    assert (enquiries + [e])[..|enquiries|] == enquiries;
  }

  lemma {:induction false} SupportIdsAppend(supports: seq<SupportRequest>, r: SupportRequest, workspace: string)
    ensures SupportIds(supports + [r], workspace)
         == SupportIds(supports, workspace) + if r.requester.workspace == workspace then [r.displayId] else []
  {
    assert (supports + [r])[..|supports|] == supports;
  }

  /** The display ids of a workspace, from some counters on: everything before, then one number after the other. */
  ghost predicate CountsFrom(start: Db, db: Db, workspace: string)
    requires workspace in start.counters
  {
    && workspace in db.counters
    && start.counters[workspace].enquiryNext <= db.counters[workspace].enquiryNext
    && start.counters[workspace].supportNext <= db.counters[workspace].supportNext
    && EnquiryIds(db.enquiries, workspace)
       == EnquiryIds(start.enquiries, workspace)
          + EnquirySeries(start.counters[workspace].enquiryNext, db.counters[workspace].enquiryNext)
    && SupportIds(db.supports, workspace)
       == SupportIds(start.supports, workspace)
          + SupportSeries(start.counters[workspace].supportNext, db.counters[workspace].supportNext)
  }

  function EnquirySeries(from: nat, next: nat): (ids: seq<string>)
    requires from <= next
    ensures |ids| == next - from && forall k :: 0 <= k < |ids| ==> ids[k] == EnquiryId(from + k)
  {
    if from == next then [] else EnquirySeries(from, next - 1) + [EnquiryId(next - 1)]
  }

  function SupportSeries(from: nat, next: nat): (ids: seq<string>)
    requires from <= next
    ensures |ids| == next - from && forall k :: 0 <= k < |ids| ==> ids[k] == SupportId(from + k)
  {
    if from == next then [] else SupportSeries(from, next - 1) + [SupportId(next - 1)]
  }

  lemma CallCounts(start: Db, db: Db, hash: Payload -> Digest, call: ServiceCall, workspace: string)
    requires workspace in start.counters && CountsFrom(start, db, workspace)
    ensures CountsFrom(start, Apply(db, hash, call), workspace)
  {
    hide EnquiryIds, SupportIds, EnquiryFor, Violates, SupportIdTaken, KeyTaken, Existing, EnquiryId, SupportId;
    if call.ConsumeCall? && Consume(db, hash, call.who, call.id, call.payload, call.now).1.Created? {
      EnquiryIdsAppend(db.enquiries, NewEnquiry(db, call.who, call.id, call.payload), workspace);
    }
    if call.SupportCall? && RequestSupport(db, call.who, call.text).1.Recorded? {
      var after := RequestSupport(db, call.who, call.text).0;
      SupportIdsAppend(db.supports, after.supports[|db.supports|], workspace);
    }
  }

  /**
   * Over every run of calls, of any users and in any order, the display ids a workspace adds are exactly the gap-free
   * ranges from its counters' first values to just below their current ones, in order.
   */
  lemma {:induction false} NumbersAreGapFree(db: Db, hash: Payload -> Digest, calls: seq<ServiceCall>,
      workspace: string)
    requires workspace in db.counters
    ensures CountsFrom(db, ApplyAll(db, hash, calls), workspace)
  {
    hide Apply;
    if calls == [] {
    } else {
      hide CountsFrom;
      NumbersAreGapFree(db, hash, calls[..|calls| - 1], workspace);
      CallCounts(db, ApplyAll(db, hash, calls[..|calls| - 1]), hash, calls[|calls| - 1], workspace);
    }
  }

  // ---- freshness ----

  predicate AllDiffer(ids: seq<string>) { forall i, j :: 0 <= i < j < |ids| ==> ids[i] != ids[j] }

  lemma EnquiryIdsDiffer(m: nat, n: nat)
    requires m != n
    ensures EnquiryId(m) != EnquiryId(n)
  {
    PrintedIsParsed("ENQ-", m);
    PrintedIsParsed("ENQ-", n);
  }

  lemma SupportIdsDiffer(m: nat, n: nat)
    requires m != n
    ensures SupportId(m) != SupportId(n)
  {
    PrintedIsParsed("SUP-", m);
    PrintedIsParsed("SUP-", n);
  }

  lemma KindsDiffer(m: nat, n: nat)
    ensures EnquiryId(m) != SupportId(n)
  {
    assert EnquiryId(m)[0] == 'E' && SupportId(n)[0] == 'S';
  }

  lemma SeriesDiffer(e0: nat, e1: nat, s0: nat, s1: nat)
    requires e0 <= e1 && s0 <= s1
    ensures AllDiffer(EnquirySeries(e0, e1) + SupportSeries(s0, s1))
  {
    hide EnquiryId, SupportId, EnquirySeries, SupportSeries;
    var n, ids := e1 - e0, EnquirySeries(e0, e1) + SupportSeries(s0, s1);
    forall i, j | 0 <= i < j < |ids| ensures ids[i] != ids[j] {
      if j < n { EnquiryIdsDiffer(e0 + i, e0 + j); }
      else if n <= i { SupportIdsDiffer(s0 + (i - n), s0 + (j - n)); }
      else { KindsDiffer(e0 + i, s0 + (j - n)); }
    }
  }

  /** What goes on after the old numbers is none of them. */
  lemma BeyondIsNew(prefix: string, ids: seq<string>, next: nat, n: nat)
    requires IsNext(prefix, ids, next) && next <= n
    ensures prefix + Decimal.Print(n) !in ids
  {
    hide Decimal.Print;
    PrintedIsParsed(prefix, n);
  }

  /** The ids a workspace has gained: all different from each other, and from every id it had. */
  ghost predicate OnlyFreshIds(start: Db, after: Db, workspace: string)
    requires workspace in start.counters && CountsFrom(start, after, workspace)
  {
    var c, d := start.counters[workspace], after.counters[workspace];
    var newEnquiries := EnquirySeries(c.enquiryNext, d.enquiryNext);
    var newSupports := SupportSeries(c.supportNext, d.supportNext);
    && AllDiffer(newEnquiries + newSupports)
    && (forall id <- newEnquiries :: id !in EnquiryIds(start.enquiries, workspace))
    && (forall id <- newSupports :: id !in SupportIds(start.supports, workspace))
  }

  /**
   * From the migrated counters on, in any interleaving of enquiries and support requests, no id is handed out twice and
   * none that was in use before; so the unique constraints on display ids never fail.
   */
  lemma MigratedNumbersAreFresh(start: Db, hash: Payload -> Digest, calls: seq<ServiceCall>, workspace: string)
    requires workspace in start.counters && GoesOn(start, workspace, start.counters[workspace])
    ensures var after := ApplyAll(start, hash, calls);
            && CountsFrom(start, after, workspace) && OnlyFreshIds(start, after, workspace)
            && !DisplayIdTaken(after, workspace, EnquiryId(after.counters[workspace].enquiryNext))
            && !SupportIdTaken(after, workspace, SupportId(after.counters[workspace].supportNext))
  {
    hide *;
    NumbersAreGapFree(start, hash, calls, workspace);
    CountedNumbersAreFresh(start, ApplyAll(start, hash, calls), workspace);
  }

  /** Tables that have counted on from migrated counters have handed out only fresh ids, and so will the next. */
  lemma CountedNumbersAreFresh(start: Db, after: Db, workspace: string)
    requires workspace in start.counters && GoesOn(start, workspace, start.counters[workspace])
    requires CountsFrom(start, after, workspace)
    ensures OnlyFreshIds(start, after, workspace)
    ensures !DisplayIdTaken(after, workspace, EnquiryId(after.counters[workspace].enquiryNext))
    ensures !SupportIdTaken(after, workspace, SupportId(after.counters[workspace].supportNext))
  {
    hide EnquiryIds, SupportIds, EnquirySeries, SupportSeries, AllDiffer, IsNext, Decimal.Print, DisplayIdTaken,
         SupportIdTaken;
    var c, d := start.counters[workspace], after.counters[workspace];
    SeriesDiffer(c.enquiryNext, d.enquiryNext, c.supportNext, d.supportNext);
    EnquirySeriesIsNew(EnquiryIds(start.enquiries, workspace), c.enquiryNext, d.enquiryNext);
    SupportSeriesIsNew(SupportIds(start.supports, workspace), c.supportNext, d.supportNext);
    NextIsUntaken(after, workspace, EnquiryIds(after.enquiries, workspace), SupportIds(after.supports, workspace));
  }

  lemma EnquirySeriesIsNew(ids: seq<string>, from: nat, next: nat)
    requires IsNext("ENQ-", ids, from) && from <= next
    ensures forall id <- EnquirySeries(from, next) :: id !in ids
    ensures EnquiryId(next) !in ids + EnquirySeries(from, next)
  {
    hide Decimal.Print, EnquirySeries, IsNext;
    var series := EnquirySeries(from, next);
    forall k | 0 <= k < |series| ensures series[k] !in ids && series[k] != EnquiryId(next) {
      BeyondIsNew("ENQ-", ids, from, from + k);
      EnquiryIdsDiffer(from + k, next);
    }
    BeyondIsNew("ENQ-", ids, from, next);
  }

  lemma SupportSeriesIsNew(ids: seq<string>, from: nat, next: nat)
    requires IsNext("SUP-", ids, from) && from <= next
    ensures forall id <- SupportSeries(from, next) :: id !in ids
    ensures SupportId(next) !in ids + SupportSeries(from, next)
  {
    hide Decimal.Print, SupportSeries, IsNext;
    var series := SupportSeries(from, next);
    forall k | 0 <= k < |series| ensures series[k] !in ids && series[k] != SupportId(next) {
      BeyondIsNew("SUP-", ids, from, from + k);
      SupportIdsDiffer(from + k, next);
    }
    BeyondIsNew("SUP-", ids, from, next);
  }

  lemma NextIsUntaken(db: Db, workspace: string, enquiryIds: seq<string>, supportIds: seq<string>)
    requires enquiryIds == EnquiryIds(db.enquiries, workspace) && supportIds == SupportIds(db.supports, workspace)
    ensures forall id :: id !in enquiryIds ==> !DisplayIdTaken(db, workspace, id)
    ensures forall id :: id !in supportIds ==> !SupportIdTaken(db, workspace, id)
  {
    hide EnquiryIds, SupportIds;
  }
}
