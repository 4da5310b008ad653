/** Whole runs of the order-level matching and what greedy consumption means for them (recon/matcher.py:135-142, 197-524). */
module Runs {
  import opened Texts
  import opened Schemas
  import opened Storage
  import opened BulkIndex
  import opened Rules
  import opened Matching
  import opened Entries

  /** The outcomes of the payments handled so far and the ids consumed by them. */
  datatype Run = Run(outcomes: seq<Outcome>, consumed: set<string>)

  ghost predicate AllPayments(pays: seq<Record>) {
    forall i | 0 <= i < |pays| :: pays[i].Payment?
  }

  ghost predicate AllClean(pays: seq<Record>) {
    forall i | 0 <= i < |pays| :: Clean(pays[i])
  }

  ghost function OutcomeOf(v: View, rules: Rules, consumed: set<string>, pay: Record): Outcome
    requires pay.Payment? && rules.book.Valid()
  {
    Decide(v.data, ListsOf(v, pay), rules, consumed, pay)
  }

  /** One payment after the other, each seeing what its predecessors consumed. */
  ghost function RunOf(v: View, rules: Rules, pays: seq<Record>): (r: Run)
    requires AllPayments(pays) && rules.book.Valid()
    ensures |r.outcomes| == |pays|
  {
    if pays == [] then Run([], {})
    else
      var before := RunOf(v, rules, pays[..|pays| - 1]);
      var o := OutcomeOf(v, rules, before.consumed, pays[|pays| - 1]);
      Run(before.outcomes + [o], before.consumed + Consumes(o))
  }

  lemma RunNone(v: View, rules: Rules)
    requires rules.book.Valid()
    ensures AllPayments([]) && AllClean([]) && RunOf(v, rules, []) == Run([], {})
  {
  }

  lemma RunNext(v: View, rules: Rules, pays: seq<Record>, pay: Record)
    requires AllPayments(pays) && pay.Payment? && rules.book.Valid()
    ensures var before := RunOf(v, rules, pays);
            var o := OutcomeOf(v, rules, before.consumed, pay);
            RunOf(v, rules, pays + [pay]) == Run(before.outcomes + [o], before.consumed + Consumes(o))
  {
    hide OutcomeOf, Consumes;
    assert (pays + [pay])[..|pays|] == pays;
  }

  lemma {:induction false} OutcomeAt(v: View, rules: Rules, pays: seq<Record>, i: nat)
    requires AllPayments(pays) && rules.book.Valid() && i < |pays|
    ensures RunOf(v, rules, pays).outcomes[i] == OutcomeOf(v, rules, RunOf(v, rules, pays[..i]).consumed, pays[i])
    ensures RunOf(v, rules, pays).outcomes[..i] == RunOf(v, rules, pays[..i]).outcomes
  {
    hide OutcomeOf, Consumes;
    var front := pays[..|pays| - 1];
    if i == |pays| - 1 {
      assert RunOf(v, rules, pays).outcomes[..i] == RunOf(v, rules, front).outcomes;
    } else {
      OutcomeAt(v, rules, front, i);
      assert front[..i] == pays[..i];
      assert RunOf(v, rules, pays).outcomes[..i] == RunOf(v, rules, front).outcomes[..i];
    }
  }

  /** With the bulk maps or with a scan for every lookup: a run over clean payments has the same outcomes. */
  lemma {:induction false} BulkRunIsSimpleRun(v: View, records: set<Record>, rules: Rules, pays: seq<Record>)
    requires Bulk(v) && Holds(v.data, records) && AllPayments(pays) && AllClean(pays) && rules.book.Valid()
    ensures RunOf(v, rules, pays) == RunOf(Simple(v.data), rules, pays)
  {
    hide Decide, Bulk, Holds, Clean, ListsOf;
    if pays != [] {
      BulkRunIsSimpleRun(v, records, rules, pays[..|pays| - 1]);
      SameLists(v, records, pays[|pays| - 1]);
    }
  }

  // ---------- the consumed ids are the matched targets ----------

  /** The ids among which a payment can find its target. */
  ghost function Candidates(data: Data, pay: Record): set<string>
    requires pay.Payment?
  {
    var lists := ListsOf(Simple(data), pay);
    (set e | e in lists.processors :: EntryId(e)) + set e | e in lists.Settlements() :: EntryId(e)
  }

  /** In a store of clean records a matched target is one of the payment's candidates and was not consumed before. */
  lemma MatchedWasAvailable(data: Data, records: set<Record>, rules: Rules, consumed: set<string>, pay: Record)
    requires Holds(data, records) && rules.book.Valid() && pay.Payment? && Clean(pay)
    ensures var o := OutcomeOf(Simple(data), rules, consumed, pay);
            o.OrderMatch? ==> o.targetId !in consumed && o.targetId in Candidates(data, pay)
  {
    hide Decide, Holds, Clean, Id, KeyText, EntryId, Available, Failures, StrategyFor, Fetch, OrderEntries, SettlementEntries, ColonFree;
    var lists := ListsOf(Simple(data), pay);
    MatchesExactlyWhen(data, lists, rules, consumed, pay);
    CleanPayment(pay);
    AvailableMembers(lists.processors, consumed);
    AvailableMembers(lists.Settlements(), consumed);
    if ProcessorFor(data, lists, consumed).Some? {
      var r := ProcessorEntry(data, records, pay.orderId, Available(lists.processors, consumed)[0]);
    } else if SettlementFor(data, lists, consumed).Some? {
      var e := Available(lists.Settlements(), consumed)[0];
      var r := SettlementEntry(data, records, if e in lists.ofTransaction then pay.transactionId else pay.orderId, e);
    }
  }

  function Targets(outcomes: seq<Outcome>): set<string> {
    set i | 0 <= i < |outcomes| && outcomes[i].OrderMatch? :: outcomes[i].targetId
  }

  ghost predicate TargetsDiffer(outcomes: seq<Outcome>) {
    forall i, j | 0 <= i < j < |outcomes| && outcomes[i].OrderMatch? && outcomes[j].OrderMatch? :: outcomes[i].targetId != outcomes[j].targetId
  }

  lemma TargetsNext(outcomes: seq<Outcome>, o: Outcome)
    ensures Targets(outcomes + [o]) == Targets(outcomes) + Consumes(o)
  {
    var all := outcomes + [o];
    assert forall i | 0 <= i < |outcomes| :: all[i] == outcomes[i];
    assert all[|outcomes|] == o;
    forall id
      ensures id in Targets(all) <==> id in Targets(outcomes) + Consumes(o)
    {
      if id in Targets(outcomes) {
        var i :| 0 <= i < |outcomes| && outcomes[i].OrderMatch? && outcomes[i].targetId == id;
        assert all[i].OrderMatch? && all[i].targetId == id;
      }
    }
  }

  /** Over a whole run the consumed ids are exactly the matched targets, and no target is matched twice. */
  lemma {:induction false} NoTargetTwice(data: Data, records: set<Record>, rules: Rules, pays: seq<Record>)
    requires Holds(data, records) && AllPayments(pays) && AllClean(pays) && rules.book.Valid()
    ensures var run := RunOf(Simple(data), rules, pays);
            run.consumed == Targets(run.outcomes) && TargetsDiffer(run.outcomes)
  {
    hide Holds, Clean, OutcomeOf;
    if pays != [] {
      var pay := pays[|pays| - 1];
      var before := RunOf(Simple(data), rules, pays[..|pays| - 1]);
      NoTargetTwice(data, records, rules, pays[..|pays| - 1]);
      MatchedWasAvailable(data, records, rules, before.consumed, pay);
      TargetsNext(before.outcomes, OutcomeOf(Simple(data), rules, before.consumed, pay));
    }
  }

  /** Consuming a record takes it out of later lookups exactly when its id has no colon, for the lookup reads the id after the last one. */
  lemma ConsumedIsGoneExactlyWhen(r: Record, key: string)
    ensures EntryId((key, Pointer(ToKey(r)))) in {Id(r)} <==> ColonFree(Id(r))
  {
    hide KeyKind, Id, LastPart;
    var k := "REC:" + KeyKind(r);
    assert ToKey(r) == k + ":" + Id(r);
    if ColonFree(Id(r)) {
      LastPartOf(k, Id(r));
    } else {
      LastPartColonFree(ToKey(r));
    }
  }

  lemma LastPartColonFree(s: string)
    ensures ColonFree(LastPart(s))
  {
    SplitParts(s);
  }

  // ---------- a decision depends on the consumed ids only through its own candidates ----------

  lemma {:induction false} AvailableFrame(es: Items, c: set<string>, d: set<string>)
    requires forall e | e in es :: EntryId(e) in c <==> EntryId(e) in d
    ensures Available(es, c) == Available(es, d)
  {
    hide EntryId;
    if es != [] {
      assert forall e | e in es[..|es| - 1] :: e in es;
      AvailableFrame(es[..|es| - 1], c, d);
      assert es[|es| - 1] in es;
    }
  }

  lemma DecideFrame(data: Data, lists: Lists, rules: Rules, c: set<string>, d: set<string>, pay: Record)
    requires pay.Payment? && rules.book.Valid()
    requires forall e | e in lists.processors || e in lists.Settlements() :: EntryId(e) in c <==> EntryId(e) in d
    ensures Decide(data, lists, rules, c, pay) == Decide(data, lists, rules, d, pay)
  {
    hide EntryId, Available, RefundFindings, InvoiceFindings, TargetFindings, MatchOf, First;
    AvailableFrame(lists.processors, c, d);
    AvailableFrame(lists.Settlements(), c, d);
  }

  // ---------- stores without settlements: each payment against its order's processor entries alone ----------

  ghost predicate NoSettlements(records: set<Record>) {
    forall r | r in records :: !r.Settlement?
  }

  /** What a payment would get as the only one of a run. */
  ghost function Alone(data: Data, rules: Rules, pay: Record): Outcome
    requires pay.Payment? && rules.book.Valid()
  {
    OutcomeOf(Simple(data), rules, {}, pay)
  }

  lemma NoSettlementEntries(data: Data, records: set<Record>, pay: Record)
    requires Holds(data, records) && NoSettlements(records) && pay.Payment? && Clean(pay)
    ensures ListsOf(Simple(data), pay).Settlements() == []
  {
    hide Holds, Clean, Id, KeyText, EntryId, Fetch, OrderEntries, SettlementEntries, ColonFree;
    CleanPayment(pay);
    var lists := ListsOf(Simple(data), pay);
    if lists.ofTransaction != [] {
      var r := SettlementEntry(data, records, pay.transactionId, lists.ofTransaction[0]);
    } else if lists.ofOrder != [] {
      var r := SettlementEntry(data, records, pay.orderId, lists.ofOrder[0]);
    }
  }

  ghost function ProcessorEntriesOf(data: Data, pay: Record): Items
    requires pay.Payment?
  {
    OrderEntries(Simple(data), pay.orderId, "PROCESSOR")
  }

  /** Without settlements a match takes the one available processor entry of the order. */
  lemma MatchTakesTheOnlyEntry(data: Data, records: set<Record>, rules: Rules, consumed: set<string>, pay: Record) returns (e: Item)
    requires Holds(data, records) && NoSettlements(records) && rules.book.Valid() && pay.Payment? && Clean(pay)
    requires OutcomeOf(Simple(data), rules, consumed, pay).OrderMatch?
    ensures Available(ProcessorEntriesOf(data, pay), consumed) == [e] && e in ProcessorEntriesOf(data, pay)
    ensures OutcomeOf(Simple(data), rules, consumed, pay).targetId == EntryId(e)
  {
    hide Decide, Holds, Clean, Id, KeyText, EntryId, Available, StrategyFor, Fetch, OrderEntries, SettlementEntries, ColonFree;
    var lists := ListsOf(Simple(data), pay);
    MatchesExactlyWhen(data, lists, rules, consumed, pay);
    NoSettlementEntries(data, records, pay);
    CleanPayment(pay);
    AvailableMembers(lists.processors, consumed);
    AvailableMembers(lists.Settlements(), consumed);
    e := Available(lists.processors, consumed)[0];
    var r := ProcessorEntry(data, records, pay.orderId, e);
  }

  /** Entries of two orders with the same id are the same entry of the same order. */
  lemma SameEntry(data: Data, records: set<Record>, p: Record, q: Record, e: Item, f: Item)
    requires Holds(data, records) && p.Payment? && q.Payment? && Clean(p) && Clean(q)
    requires e in ProcessorEntriesOf(data, p) && f in ProcessorEntriesOf(data, q) && EntryId(e) == EntryId(f)
    ensures p.orderId == q.orderId && e == f
  {
    hide Holds, Clean, Id, KeyText, EntryId, Fetch, OrderEntries, ColonFree, IndexKey;
    CleanPayment(p);
    CleanPayment(q);
    var r := ProcessorEntry(data, records, p.orderId, e);
    var s := ProcessorEntry(data, records, q.orderId, f);
    KindTells(r);
    KindTells(s);
    HeldOnce(data, records, r, s);
  }

  /** The targets that the payments of a list match alone. */
  ghost function Wanted(data: Data, rules: Rules, pays: seq<Record>): set<string>
    requires AllPayments(pays) && rules.book.Valid()
  {
    set i | 0 <= i < |pays| && Alone(data, rules, pays[i]).OrderMatch? :: Alone(data, rules, pays[i]).targetId
  }

  /** A payment that matches alone has one processor entry, and takes it. */
  lemma AloneHasOneEntry(data: Data, records: set<Record>, rules: Rules, pay: Record) returns (e: Item)
    requires Holds(data, records) && NoSettlements(records) && rules.book.Valid() && pay.Payment? && Clean(pay)
    requires Alone(data, rules, pay).OrderMatch?
    ensures ProcessorEntriesOf(data, pay) == [e] && Alone(data, rules, pay).targetId == EntryId(e)
  {
    hide OutcomeOf, Holds, Clean, EntryId, OrderEntries;
    e := MatchTakesTheOnlyEntry(data, records, rules, {}, pay);
    AvailableAll(ProcessorEntriesOf(data, pay));
  }

  lemma {:induction false} AvailableAll(es: Items)
    ensures Available(es, {}) == es
  {
    if es != [] { AvailableAll(es[..|es| - 1]); }
  }

  /**
   One step of a run, given that the ids consumed so far are ones that earlier payments match alone:
   the payment gets what it would get alone, unless an earlier payment wants the same target.
   */
  lemma StepAgainstAlone(data: Data, records: set<Record>, rules: Rules, before: seq<Record>, pay: Record)
    requires Holds(data, records) && NoSettlements(records) && rules.book.Valid()
    requires AllPayments(before) && AllClean(before) && pay.Payment? && Clean(pay)
    ensures var o, alone := OutcomeOf(Simple(data), rules, Wanted(data, rules, before), pay), Alone(data, rules, pay);
            if alone.OrderMatch? && alone.targetId !in Wanted(data, rules, before) then o == alone else !o.OrderMatch?
  {
    hide Decide, Holds, NoSettlements, Clean, EntryId, OrderEntries, Available;
    var consumed, es := Wanted(data, rules, before), ProcessorEntriesOf(data, pay);
    NoSettlementEntries(data, records, pay);
    if e :| e in es && EntryId(e) in consumed {
      var i :| 0 <= i < |before| && Alone(data, rules, before[i]).OrderMatch? && Alone(data, rules, before[i]).targetId == EntryId(e);
      var f := AloneHasOneEntry(data, records, rules, before[i]);
      SameEntry(data, records, pay, before[i], e, f);
      assert es == [e];
      AvailableMembers(es, consumed);
      if OutcomeOf(Simple(data), rules, consumed, pay).OrderMatch? {
        var g := MatchTakesTheOnlyEntry(data, records, rules, consumed, pay);
      }
      if Alone(data, rules, pay).OrderMatch? {
        var g := AloneHasOneEntry(data, records, rules, pay);
      }
    } else {
      DecideFrame(data, ListsOf(Simple(data), pay), rules, consumed, {}, pay);
      if Alone(data, rules, pay).OrderMatch? {
        var g := AloneHasOneEntry(data, records, rules, pay);
      }
    }
  }

  lemma WantedNext(data: Data, rules: Rules, before: seq<Record>, pay: Record)
    requires AllPayments(before) && pay.Payment? && rules.book.Valid()
    ensures Wanted(data, rules, before + [pay]) == Wanted(data, rules, before) + Consumes(Alone(data, rules, pay))
  {
    hide OutcomeOf;
    var all := before + [pay];
    assert forall i | 0 <= i < |before| :: all[i] == before[i];
    assert all[|before|] == pay;
    forall id
      ensures id in Wanted(data, rules, all) <==> id in Wanted(data, rules, before) + Consumes(Alone(data, rules, pay))
    {
      if id in Wanted(data, rules, before) {
        var i :| 0 <= i < |before| && Alone(data, rules, before[i]).OrderMatch? && Alone(data, rules, before[i]).targetId == id;
        assert Alone(data, rules, all[i]).OrderMatch? && Alone(data, rules, all[i]).targetId == id;
      }
    }
  }

  lemma {:induction false} ConsumedIsWanted(data: Data, records: set<Record>, rules: Rules, pays: seq<Record>)
    requires Holds(data, records) && NoSettlements(records) && rules.book.Valid() && AllPayments(pays) && AllClean(pays)
    ensures RunOf(Simple(data), rules, pays).consumed == Wanted(data, rules, pays)
  {
    hide OutcomeOf, Holds, NoSettlements, Clean, Wanted;
    if pays == [] {
      assert Wanted(data, rules, pays) == {} by { WantedNone(data, rules); }
    } else {
      var front, pay := pays[..|pays| - 1], pays[|pays| - 1];
      ConsumedIsWanted(data, records, rules, front);
      StepAgainstAlone(data, records, rules, front, pay);
      WantedNext(data, rules, front, pay);
      assert front + [pay] == pays;
    }
  }

  lemma WantedNone(data: Data, rules: Rules)
    requires rules.book.Valid()
    ensures Wanted(data, rules, []) == {}
  {
  }

  /**
   First come, first served: at every place of every run the payment matches exactly when it
   would match alone and no earlier payment would match the same target alone, and then it gets
   the match that it would get alone.
   */
  lemma FirstComeFirstServed(data: Data, records: set<Record>, rules: Rules, pays: seq<Record>, i: nat)
    requires Holds(data, records) && NoSettlements(records) && rules.book.Valid() && AllPayments(pays) && AllClean(pays) && i < |pays|
    ensures var o, alone := RunOf(Simple(data), rules, pays).outcomes[i], Alone(data, rules, pays[i]);
            if alone.OrderMatch? && forall j | 0 <= j < i && Alone(data, rules, pays[j]).OrderMatch? ::
                 Alone(data, rules, pays[j]).targetId != alone.targetId
            then o == alone else !o.OrderMatch?
  {
    hide OutcomeOf, Holds, NoSettlements, Clean;
    OutcomeAt(Simple(data), rules, pays, i);
    ConsumedIsWanted(data, records, rules, pays[..i]);
    StepAgainstAlone(data, records, rules, pays[..i], pays[i]);
  }

  // ---------- when the order of the payments does not matter ----------

  /** The matches of a run, as pairs of a payment and its target. */
  ghost function Matched(data: Data, rules: Rules, pays: seq<Record>): set<(Record, string)>
    requires AllPayments(pays) && rules.book.Valid()
  {
    var outcomes := RunOf(Simple(data), rules, pays).outcomes;
    set i | 0 <= i < |pays| && outcomes[i].OrderMatch? :: (pays[i], outcomes[i].targetId)
  }

  ghost predicate NoRepeats(pays: seq<Record>) {
    forall i, j | 0 <= i < j < |pays| :: pays[i] != pays[j]
  }

  /** The same payments in some order. */
  ghost predicate Shuffled(pays: seq<Record>, other: seq<Record>) {
    NoRepeats(other) && forall p :: p in pays <==> p in other
  }

  ghost predicate Contend(data: Data, rules: Rules, p: Record, q: Record)
    requires p.Payment? && q.Payment? && rules.book.Valid()
  {
    && p != q && Alone(data, rules, p).OrderMatch? && Alone(data, rules, q).OrderMatch?
    && Alone(data, rules, p).targetId == Alone(data, rules, q).targetId
  }

  /** The condition for order independence, on the payments alone. */
  ghost predicate NoneContend(data: Data, rules: Rules, pays: seq<Record>)
    requires AllPayments(pays) && rules.book.Valid()
  {
    forall i, j | 0 <= i < |pays| && 0 <= j < |pays| :: !Contend(data, rules, pays[i], pays[j])
  }

  lemma ShuffledKinds(pays: seq<Record>, other: seq<Record>)
    requires AllPayments(pays) && Shuffled(pays, other)
    ensures AllPayments(other) && AllClean(pays) ==> AllClean(other)
  {
    hide Clean;
    assert forall i | 0 <= i < |other| :: other[i] in other && other[i] in pays;
  }

  ghost predicate OrderIndependent(data: Data, rules: Rules, pays: seq<Record>)
    requires AllPayments(pays) && rules.book.Valid()
  {
    forall other | Shuffled(pays, other) && AllPayments(other) :: Matched(data, rules, other) == Matched(data, rules, pays)
  }

  lemma OutcomeAlone(data: Data, records: set<Record>, rules: Rules, pays: seq<Record>, i: nat)
    requires Holds(data, records) && NoSettlements(records) && rules.book.Valid() && AllPayments(pays) && AllClean(pays) && NoRepeats(pays)
    requires NoneContend(data, rules, pays) && i < |pays|
    ensures var o, alone := RunOf(Simple(data), rules, pays).outcomes[i], Alone(data, rules, pays[i]);
            if alone.OrderMatch? then o == alone else !o.OrderMatch?
  {
    hide Alone, Holds, NoSettlements, Clean, RunOf;
    FirstComeFirstServed(data, records, rules, pays, i);
    assert forall j | 0 <= j < i :: !Contend(data, rules, pays[j], pays[i]);
  }

  /** Without contention the matches are those that the payments get alone. */
  lemma MatchedAlone(data: Data, records: set<Record>, rules: Rules, pays: seq<Record>, m: (Record, string))
    requires Holds(data, records) && NoSettlements(records) && rules.book.Valid() && AllPayments(pays) && AllClean(pays) && NoRepeats(pays)
    requires NoneContend(data, rules, pays)
    ensures m in Matched(data, rules, pays)
            <==> m.0 in pays && Alone(data, rules, m.0).OrderMatch? && Alone(data, rules, m.0).targetId == m.1
  {
    hide Alone, Holds, NoSettlements, Clean, RunOf, NoneContend;
    var outcomes := RunOf(Simple(data), rules, pays).outcomes;
    if m in Matched(data, rules, pays) {
      var i :| 0 <= i < |pays| && outcomes[i].OrderMatch? && m == (pays[i], outcomes[i].targetId);
      OutcomeAlone(data, records, rules, pays, i);
    }
    if m.0 in pays && Alone(data, rules, m.0).OrderMatch? && Alone(data, rules, m.0).targetId == m.1 {
      var i :| 0 <= i < |pays| && pays[i] == m.0;
      OutcomeAlone(data, records, rules, pays, i);
      assert outcomes[i].OrderMatch? && m == (pays[i], outcomes[i].targetId);
    }
  }

  /** The payment at i put in front of the others. */
  function Fronted(pays: seq<Record>, i: nat): seq<Record>
    requires i < |pays|
  {
    [pays[i]] + pays[..i] + pays[i + 1..]
  }

  lemma FrontedShuffles(pays: seq<Record>, i: nat)
    requires i < |pays| && NoRepeats(pays)
    ensures Shuffled(pays, Fronted(pays, i))
  {
  }

  /** Of two payments that contend, the one in front matches and the other does not. */
  lemma FrontWins(data: Data, records: set<Record>, rules: Rules, pays: seq<Record>, q: Record)
    requires Holds(data, records) && NoSettlements(records) && rules.book.Valid() && AllPayments(pays) && AllClean(pays) && NoRepeats(pays)
    requires pays != [] && q in pays && Contend(data, rules, pays[0], q)
    ensures (pays[0], Alone(data, rules, pays[0]).targetId) in Matched(data, rules, pays)
    ensures forall id :: (q, id) !in Matched(data, rules, pays)
  {
    hide Alone, Holds, NoSettlements, Clean, RunOf;
    FirstComeFirstServed(data, records, rules, pays, 0);
    assert RunOf(Simple(data), rules, pays).outcomes[0] == Alone(data, rules, pays[0]);
    forall i | 0 <= i < |pays| && pays[i] == q
      ensures !RunOf(Simple(data), rules, pays).outcomes[i].OrderMatch?
    {
      FirstComeFirstServed(data, records, rules, pays, i);
    }
  }

  /** The matches of a run are the same for every order of its payments exactly when no two payments match the same target alone. */
  lemma OrderIndependentExactlyWhen(data: Data, records: set<Record>, rules: Rules, pays: seq<Record>)
    requires Holds(data, records) && NoSettlements(records) && rules.book.Valid() && AllPayments(pays) && AllClean(pays) && NoRepeats(pays)
    ensures OrderIndependent(data, rules, pays) <==> NoneContend(data, rules, pays)
  {
    hide Alone, Holds, NoSettlements, Clean, Matched, Contend;
    if NoneContend(data, rules, pays) {
      forall other | Shuffled(pays, other) && AllPayments(other)
        ensures Matched(data, rules, other) == Matched(data, rules, pays)
      {
        ShuffledKinds(pays, other);
        NoneContendShuffled(data, rules, pays, other);
        forall m
          ensures m in Matched(data, rules, other) <==> m in Matched(data, rules, pays)
        {
          MatchedAlone(data, records, rules, pays, m);
          MatchedAlone(data, records, rules, other, m);
        }
      }
    } else {
      var i, j :| 0 <= i < |pays| && 0 <= j < |pays| && Contend(data, rules, pays[i], pays[j]);
      SomeOrderDiffers(data, records, rules, pays, i, j);
    }
  }

  lemma NoneContendShuffled(data: Data, rules: Rules, pays: seq<Record>, other: seq<Record>)
    requires rules.book.Valid() && AllPayments(pays) && AllPayments(other) && Shuffled(pays, other) && NoneContend(data, rules, pays)
    ensures NoneContend(data, rules, other)
  {
    hide Contend;
    forall i, j | 0 <= i < |other| && 0 <= j < |other|
      ensures !Contend(data, rules, other[i], other[j])
    {
      assert other[i] in pays && other[j] in pays;
    }
  }

  lemma SomeOrderDiffers(data: Data, records: set<Record>, rules: Rules, pays: seq<Record>, i: nat, j: nat)
    requires Holds(data, records) && NoSettlements(records) && rules.book.Valid() && AllPayments(pays) && AllClean(pays) && NoRepeats(pays)
    requires i < |pays| && j < |pays| && Contend(data, rules, pays[i], pays[j])
    ensures !OrderIndependent(data, rules, pays)
  {
    hide Alone, Holds, NoSettlements, Clean, Matched;
    var a, b := Fronted(pays, i), Fronted(pays, j);
    FrontedShuffles(pays, i);
    FrontedShuffles(pays, j);
    ShuffledKinds(pays, a);
    ShuffledKinds(pays, b);
    assert pays[i] in b && pays[j] in a && a[0] == pays[i] && b[0] == pays[j];
    FrontWins(data, records, rules, a, pays[j]);
    FrontWins(data, records, rules, b, pays[i]);
    assert Matched(data, rules, a) != Matched(data, rules, b);
  }

  /** Stored payments never contend outside the bank ledger topology: two of one order are both rejected as duplicates. */
  lemma StoredPaymentsDoNotContend(data: Data, records: set<Record>, rules: Rules, p: Record, q: Record)
    requires Holds(data, records) && NoSettlements(records) && rules.book.Valid() && rules.settings.topology != BankGl
    requires p in records && q in records && p.Payment? && q.Payment?
    ensures !Contend(data, rules, p, q)
  {
    hide OutcomeOf, Holds, NoSettlements, Clean, OrderEntries, EntryId, IndexKey, ToKey;
    HeldClean(data, records, p);
    HeldClean(data, records, q);
    if Contend(data, rules, p, q) {
      var e := AloneHasOneEntry(data, records, rules, p);
      var f := AloneHasOneEntry(data, records, rules, q);
      SameEntry(data, records, p, q, e, f);
      TwoPaymentsNeverMatch(data, records, rules, p, q);
    }
  }

  lemma TwoPaymentsNeverMatch(data: Data, records: set<Record>, rules: Rules, p: Record, q: Record)
    requires Holds(data, records) && rules.book.Valid() && rules.settings.topology != BankGl
    requires p in records && q in records && p != q && p.Payment? && q.Payment? && p.orderId == q.orderId && Clean(p)
    ensures !Alone(data, rules, p).OrderMatch?
  {
    hide Holds, Clean, OrderEntries, EntryId, IndexKey, ToKey, TargetFor, EarlyFindings;
    CleanPayment(p);
    PaymentEntries(data, records, p.orderId);
    if ToKey(p) == ToKey(q) { HeldOnce(data, records, p, q); }
    var es := OrderEntries(Simple(data), p.orderId, "PAYMENT");
    assert EntryUnder("ORDER", p.orderId, "PAYMENT", p) in es && EntryUnder("ORDER", p.orderId, "PAYMENT", q) in es;
    assert |es| > 1;
  }

  /** So outside the bank ledger topology the matches over stored payments do not depend on their order. */
  lemma StoredRunsAreOrderIndependent(data: Data, records: set<Record>, rules: Rules, pays: seq<Record>)
    requires Holds(data, records) && NoSettlements(records) && rules.book.Valid() && rules.settings.topology != BankGl
    requires AllPayments(pays) && NoRepeats(pays) && forall p | p in pays :: p in records
    ensures OrderIndependent(data, rules, pays)
  {
    hide Alone, Holds, NoSettlements, Clean, Matched, Contend, OrderIndependent;
    forall p | p in pays {
      HeldClean(data, records, p);
    }
    OrderIndependentExactlyWhen(data, records, rules, pays);
    forall i, j | 0 <= i < |pays| && 0 <= j < |pays|
      ensures !Contend(data, rules, pays[i], pays[j])
    {
      StoredPaymentsDoNotContend(data, records, rules, pays[i], pays[j]);
    }
  }

  // ---------- runs in stores with settlements ----------

  /** No two payments of the list look for their targets among the same ids. */
  ghost predicate DisjointCandidates(data: Data, pays: seq<Record>)
    requires AllPayments(pays)
  {
    forall i, j | 0 <= i < j < |pays| :: Candidates(data, pays[i]) !! Candidates(data, pays[j])
  }

  /** What has been consumed is among the candidates of the payments so far. */
  lemma {:induction false} ConsumedAreCandidates(data: Data, records: set<Record>, rules: Rules, pays: seq<Record>)
    requires Holds(data, records) && rules.book.Valid() && AllPayments(pays) && AllClean(pays)
    ensures forall id | id in RunOf(Simple(data), rules, pays).consumed :: exists i :: 0 <= i < |pays| && id in Candidates(data, pays[i])
  {
    hide OutcomeOf, Holds, Clean, Candidates;
    if pays != [] {
      var front, pay := pays[..|pays| - 1], pays[|pays| - 1];
      ConsumedAreCandidates(data, records, rules, front);
      MatchedWasAvailable(data, records, rules, RunOf(Simple(data), rules, front).consumed, pay);
      assert forall i | 0 <= i < |front| :: front[i] == pays[i];
    }
  }

  /** With disjoint candidates, settlements or not, every payment of a run gets exactly what it would get alone. */
  lemma DisjointPaymentsAreAlone(data: Data, records: set<Record>, rules: Rules, pays: seq<Record>, i: nat)
    requires Holds(data, records) && rules.book.Valid() && AllPayments(pays) && AllClean(pays) && i < |pays|
    requires DisjointCandidates(data, pays)
    ensures RunOf(Simple(data), rules, pays).outcomes[i] == Alone(data, rules, pays[i])
  {
    hide Decide, Holds, Clean, EntryId, ListsOf;
    OutcomeAt(Simple(data), rules, pays, i);
    ConsumedAreCandidates(data, records, rules, pays[..i]);
    var consumed, lists := RunOf(Simple(data), rules, pays[..i]).consumed, ListsOf(Simple(data), pays[i]);
    forall id | id in Candidates(data, pays[i])
      ensures id !in consumed
    {
      assert forall j | 0 <= j < i :: id !in Candidates(data, pays[..i][j]);
    }
    DecideFrame(data, lists, rules, consumed, {}, pays[i]);
  }

  lemma MatchedOfAlone(data: Data, rules: Rules, pays: seq<Record>, m: (Record, string))
    requires rules.book.Valid() && AllPayments(pays)
    requires forall i | 0 <= i < |pays| :: RunOf(Simple(data), rules, pays).outcomes[i] == Alone(data, rules, pays[i])
    ensures m in Matched(data, rules, pays)
            <==> m.0 in pays && Alone(data, rules, m.0).OrderMatch? && Alone(data, rules, m.0).targetId == m.1
  {
    hide Alone, RunOf;
    var outcomes := RunOf(Simple(data), rules, pays).outcomes;
    if m.0 in pays && Alone(data, rules, m.0).OrderMatch? && Alone(data, rules, m.0).targetId == m.1 {
      var i :| 0 <= i < |pays| && pays[i] == m.0;
      assert outcomes[i].OrderMatch? && m == (pays[i], outcomes[i].targetId);
    }
  }

  lemma DisjointShuffled(data: Data, pays: seq<Record>, other: seq<Record>)
    requires AllPayments(pays) && AllPayments(other) && Shuffled(pays, other) && DisjointCandidates(data, pays)
    ensures DisjointCandidates(data, other)
  {
    hide Candidates;
    forall i, j | 0 <= i < j < |other|
      ensures Candidates(data, other[i]) !! Candidates(data, other[j])
    {
      assert other[i] in pays && other[j] in pays && other[i] != other[j];
      var k, l :| 0 <= k < |pays| && 0 <= l < |pays| && pays[k] == other[i] && pays[l] == other[j];
      if k < l {
        assert Candidates(data, pays[k]) !! Candidates(data, pays[l]);
      } else {
        assert Candidates(data, pays[l]) !! Candidates(data, pays[k]);
      }
    }
  }

  /** So in any store of clean records the order of payments with disjoint candidates does not matter. */
  lemma DisjointRunsAreOrderIndependent(data: Data, records: set<Record>, rules: Rules, pays: seq<Record>)
    requires Holds(data, records) && rules.book.Valid() && AllPayments(pays) && AllClean(pays) && DisjointCandidates(data, pays)
    ensures OrderIndependent(data, rules, pays)
  {
    hide Alone, Holds, Clean, Matched, RunOf, DisjointCandidates;
    forall i | 0 <= i < |pays|
      ensures RunOf(Simple(data), rules, pays).outcomes[i] == Alone(data, rules, pays[i])
    {
      DisjointPaymentsAreAlone(data, records, rules, pays, i);
    }
    forall other | Shuffled(pays, other) && AllPayments(other)
      ensures Matched(data, rules, other) == Matched(data, rules, pays)
    {
      ShuffledKinds(pays, other);
      DisjointShuffled(data, pays, other);
      forall i | 0 <= i < |other|
        ensures RunOf(Simple(data), rules, other).outcomes[i] == Alone(data, rules, other[i])
      {
        DisjointPaymentsAreAlone(data, records, rules, other, i);
      }
      forall m
        ensures m in Matched(data, rules, other) <==> m in Matched(data, rules, pays)
      {
        MatchedOfAlone(data, rules, pays, m);
        MatchedOfAlone(data, rules, other, m);
      }
    }
  }
}
