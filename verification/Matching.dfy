/** What the matcher decides for one payment and for one settlement batch (recon/matcher.py:197-653). Amounts are in cents. */
module Matching {
  import opened Wrappers
  import opened Texts
  import opened Schemas
  import opened Storage
  import opened Spelling
  import opened Rules

  datatype Kind = DuplicateInternal | PartialRefund | FullRefund | Overpayment | AmountMismatch | DuplicateProcessor
                | MissingProcessor | CurrencyMismatch | UnknownFeePolicy | FeeMismatch
                | MissingInternal | DuplicateBankEntry | MissingBankSettlement | LateSettlement

  datatype Quantity = Cents(amount: int) | Currency(code: string) | Instant(seconds: int)

  datatype Finding = Finding(kind: Kind, expected: Quantity, actual: Quantity, diff: int, related: seq<string>)

  datatype Strategy = Exact | Timing | Tolerance

  /** A match, or an exception about a primary record; its first finding is the one reported. */
  datatype Outcome =
    | OrderMatch(orderId: string, paymentId: string, targetId: string, batchId: string, amount: int, fees: int, net: int,
                 strategy: Strategy, partial: bool)
    | BatchMatch(batchId: string, bankId: string, gross: int, fees: int, net: int)
    | Exception(primaryType: string, primaryId: string, findings: seq<Finding>)

  function AmountFinding(kind: Kind, expected: int, actual: int, diff: int, related: seq<string>): Finding {
    Finding(kind, Cents(expected), Cents(actual), diff, related)
  }

  // ---------- what is looked up for a payment ----------

  /** The index entries of a payment's order, and the settlements listed under its transaction and under its order. */
  datatype Lists = Lists(payments: Items, refunds: Items, invoices: Items, processors: Items, ofTransaction: Items, ofOrder: Items) {
    function Settlements(): Items {
      if ofTransaction != [] then ofTransaction else ofOrder
    }
  }

  /** The primary key that an index entry holds. */
  function KeyText(v: Value): string {
    match v
    case Pointer(k) => k
    case Json(_) => ""
  }

  function Keys(es: Items): (keys: seq<string>)
    ensures |keys| == |es|
  {
    seq(|es|, i requires 0 <= i < |es| => KeyText(es[i].1))
  }

  function Fetch(data: Data, key: string): Option<Record> {
    if key in data && data[key].Json? then Some(data[key].record) else None
  }

  function First(data: Data, es: Items): Option<Record> {
    if es == [] then None else Fetch(data, KeyText(es[0].1))
  }

  /** The id under which the matcher looks an entry up among the consumed ones. */
  function EntryId(e: Item): string {
    LastPart(KeyText(e.1))
  }

  /** The entries whose target is not consumed, in order. */
  function Available(es: Items, consumed: set<string>): Items {
    if es == [] then []
    else
      var rest, e := Available(es[..|es| - 1], consumed), es[|es| - 1];
      if EntryId(e) in consumed then rest else rest + [e]
  }

  /** The common fields of a processor transaction and of a settlement that stands in for one. */
  datatype Target = Target(isProcessor: bool, id: string, orderId: string, gross: int, fee: int, net: int, currency: string,
                           batchId: string, processorName: string, timestamp: int, description: string, feePolicyId: string)

  function AsTarget(r: Record): (t: Target)
    requires r.Processor? || r.Settlement?
    ensures t.id == Id(r) && t.isProcessor == r.Processor?
  {
    if r.Processor?
    then Target(true, r.processorTransactionId, r.orderId, r.gross, r.fee, r.net, r.currency, r.settlementBatchId, r.processorName,
                r.timestamp, r.description, r.feePolicyId)
    else Target(false, r.settlementId, "", r.gross, r.fee, r.net, r.currency, r.settlementBatchId, "SETTLEMENT", r.timestamp, "", "")
  }

  function ProcessorFor(data: Data, lists: Lists, consumed: set<string>): Option<Target> {
    var first := First(data, Available(lists.processors, consumed));
    if first.Some? && first.value.Processor? then Some(AsTarget(first.value)) else None
  }

  function SettlementFor(data: Data, lists: Lists, consumed: set<string>): Option<Target> {
    var first := First(data, Available(lists.Settlements(), consumed));
    if first.Some? && first.value.Settlement? then Some(AsTarget(first.value)) else None
  }

  function TargetFor(data: Data, lists: Lists, consumed: set<string>): Option<Target> {
    var processor := ProcessorFor(data, lists, consumed);
    if processor.Some? then processor else SettlementFor(data, lists, consumed)
  }

  // ---------- the findings, in the order of the checks ----------

  function RefundFindings(data: Data, lists: Lists, pay: Record): seq<Finding>
    requires pay.Payment?
  {
    var first := First(data, lists.refunds);
    if first.Some? && first.value.Refund? then
      var r := first.value;
      [AmountFinding(if r.amount < pay.amount then PartialRefund else FullRefund, pay.amount, r.amount, pay.amount - r.amount,
                     [r.refundId, pay.orderId])]
    else []
  }

  function InvoiceFindings(data: Data, lists: Lists, s: Settings, pay: Record): seq<Finding>
    requires pay.Payment?
  {
    var first := First(data, lists.invoices);
    if first.Some? && first.value.Invoice? then
      var i := first.value;
      if pay.amount > i.amount + s.amountTolerance then
        [AmountFinding(Overpayment, i.amount, pay.amount, pay.amount - i.amount, [i.invoiceId, pay.orderId])]
      else if pay.amount < i.amount - s.amountTolerance && !pay.partial.given then
        [AmountFinding(AmountMismatch, i.amount, pay.amount, i.amount - pay.amount, [i.invoiceId, pay.orderId])]
      else []
    else []
  }

  function DuplicateFindings(lists: Lists, consumed: set<string>, pay: Record): seq<Finding>
    requires pay.Payment?
  {
    if |lists.processors| > 1 && |Available(lists.processors, consumed)| > 1
    then [AmountFinding(DuplicateProcessor, pay.amount, pay.amount, 0, Keys(lists.processors))]
    else []
  }

  /** The findings made before a target is looked for. */
  function EarlyFindings(data: Data, lists: Lists, s: Settings, consumed: set<string>, pay: Record): seq<Finding>
    requires pay.Payment?
  {
    RefundFindings(data, lists, pay) + InvoiceFindings(data, lists, s, pay) + DuplicateFindings(lists, consumed, pay)
  }

  function CurrencyFindings(pay: Record, t: Target): seq<Finding>
    requires pay.Payment?
  {
    if IsCurrencyMatching(pay.currency, t.currency) then []
    else [Finding(CurrencyMismatch, Currency(pay.currency), Currency(t.currency), 0, [t.id, pay.orderId])]
  }

  function DayDiff(pay: Record, t: Target): nat {
    if pay.timestamp == 0 || t.timestamp == 0 then 0 else Abs(pay.timestamp - t.timestamp) / 86400
  }

  function Similarity(s: Settings, pay: Record, t: Target): real
    requires pay.Payment?
  {
    if pay.memo != "" && t.description != "" then s.similarity(pay.memo, t.description) else 1.0
  }

  /** The staged passes. */
  function StrategyFor(s: Settings, pay: Record, t: Target): Option<Strategy>
    requires pay.Payment?
  {
    var cents, days := Abs(pay.amount - t.gross), DayDiff(pay, t);
    if cents <= 1 && days == 0 then Some(Exact)
    else if cents <= 1 && days <= s.timingWindowDays then Some(Timing)
    else if cents <= s.amountTolerance && days <= s.toleranceWindowDays then
      if Similarity(s, pay, t) >= s.fuzzyThreshold || (pay.orderId != "" && pay.orderId == t.orderId) then Some(Tolerance) else None
    else None
  }

  function StrategyFindings(s: Settings, pay: Record, t: Target): seq<Finding>
    requires pay.Payment?
  {
    if StrategyFor(s, pay, t).Some? then []
    else [AmountFinding(AmountMismatch, pay.amount, t.gross, pay.amount - t.gross, [t.id, pay.orderId])]
  }

  function FeeFor(rules: Rules, pay: Record, t: Target): Option<int>
    requires pay.Payment? && rules.book.Valid()
  {
    ExpectedFee(rules, pay.amount, Context(t.processorName, pay.paymentMethod, pay.currency),
                if t.feePolicyId != "" then t.feePolicyId else pay.feePolicyId)
  }

  function FeeFindings(rules: Rules, pay: Record, t: Target): seq<Finding>
    requires pay.Payment? && rules.book.Valid()
  {
    if !ChecksFees(rules.settings) then []
    else
      match FeeFor(rules, pay, t)
      case None => [AmountFinding(UnknownFeePolicy, 0, t.fee, t.fee, [pay.transactionId, pay.orderId])]
      case Some(fee) =>
        if IsAmountMatching(rules.settings, fee, t.fee) then []
        else [AmountFinding(FeeMismatch, fee, t.fee, t.fee - fee, [pay.transactionId, pay.orderId])]
  }

  /** The findings about a payment and its target. */
  function TargetFindings(rules: Rules, pay: Record, t: Target): seq<Finding>
    requires pay.Payment? && rules.book.Valid()
  {
    CurrencyFindings(pay, t) + StrategyFindings(rules.settings, pay, t) + FeeFindings(rules, pay, t)
  }

  // ---------- the decision for a payment ----------

  function Duplicated(pay: Record, related: seq<string>): Outcome
    requires pay.Payment?
  {
    Exception("PAYMENT", pay.transactionId, [AmountFinding(DuplicateInternal, pay.amount, pay.amount, 0, related)])
  }

  function Decide(data: Data, lists: Lists, rules: Rules, consumed: set<string>, pay: Record): Outcome
    requires pay.Payment? && rules.book.Valid()
  {
    if pay.isDuplicate then Duplicated(pay, [pay.orderId])
    else if |lists.payments| > 1 && rules.settings.topology != BankGl then Duplicated(pay, Keys(lists.payments))
    else
      var early := EarlyFindings(data, lists, rules.settings, consumed, pay);
      match TargetFor(data, lists, consumed)
      case None =>
        if |lists.payments| > 1 then Duplicated(pay, Keys(lists.payments))
        else Exception("PAYMENT", pay.transactionId,
                       early + [AmountFinding(MissingProcessor, pay.amount, 0, pay.amount, [pay.orderId])])
      case Some(t) =>
        var findings := early + TargetFindings(rules, pay, t);
        if findings != [] then
          Exception(if t.isProcessor then "PROCESSOR" else "PAYMENT", if t.isProcessor then t.id else pay.transactionId, findings)
        else MatchOf(pay, t, StrategyFor(rules.settings, pay, t))
  }

  function MatchOf(pay: Record, t: Target, strategy: Option<Strategy>): Outcome
    requires pay.Payment?
  {
    OrderMatch(pay.orderId, pay.transactionId, t.id, t.batchId, pay.amount, t.fee, t.net,
               if strategy.Some? then strategy.value else Exact, pay.partial.stated)
  }

  /** What a decision adds to the consumed ids. */
  function Consumes(o: Outcome): set<string> {
    if o.OrderMatch? then {o.targetId} else {}
  }

  // ---------- when a payment matches ----------

  predicate Close(pay: Record, t: Target)
    requires pay.Payment?
  {
    -1 <= pay.amount - t.gross <= 1
  }

  /** Less than days + 1 whole days lie between two times; an unknown time, 0, is no distance away. */
  predicate WithinDays(a: int, b: int, days: int) {
    if a == 0 || b == 0 then days >= 0 else -86400 * (days + 1) < a - b < 86400 * (days + 1)
  }

  /** The texts are similar enough, or the target names the order; a missing text counts as fully similar. */
  predicate SameBusiness(s: Settings, pay: Record, t: Target)
    requires pay.Payment?
  {
    || (pay.orderId == t.orderId != "")
    || (if pay.memo == "" || t.description == "" then s.fuzzyThreshold <= 1.0 else s.fuzzyThreshold <= s.similarity(pay.memo, t.description))
  }

  predicate InTolerance(s: Settings, pay: Record, t: Target)
    requires pay.Payment?
  {
    && -s.amountTolerance <= pay.amount - t.gross <= s.amountTolerance
    && WithinDays(pay.timestamp, t.timestamp, s.toleranceWindowDays)
    && SameBusiness(s, pay, t)
  }

  predicate InTime(s: Settings, pay: Record, t: Target)
    requires pay.Payment?
  {
    Close(pay, t) && (WithinDays(pay.timestamp, t.timestamp, 0) || WithinDays(pay.timestamp, t.timestamp, s.timingWindowDays))
  }

  lemma DaysInSeconds(pay: Record, t: Target, days: int)
    ensures DayDiff(pay, t) <= days <==> WithinDays(pay.timestamp, t.timestamp, days)
  {
  }

  /** The pass that applies is the first whose condition holds, with the times in seconds. */
  lemma FirstPassThatHolds(s: Settings, pay: Record, t: Target)
    requires pay.Payment?
    ensures StrategyFor(s, pay, t) == Some(Exact) <==> Close(pay, t) && WithinDays(pay.timestamp, t.timestamp, 0)
    ensures StrategyFor(s, pay, t) == Some(Timing) <==> InTime(s, pay, t) && !WithinDays(pay.timestamp, t.timestamp, 0)
    ensures StrategyFor(s, pay, t) == Some(Tolerance) <==> InTolerance(s, pay, t) && !InTime(s, pay, t)
    ensures StrategyFor(s, pay, t) == None <==> !InTolerance(s, pay, t) && !InTime(s, pay, t)
  {
    hide DayDiff, WithinDays;
    DaysInSeconds(pay, t, 0);
    DaysInSeconds(pay, t, s.timingWindowDays);
    DaysInSeconds(pay, t, s.toleranceWindowDays);
  }

  /** The fee that the policy sets for the payment, if fees are checked, is the target's up to the tolerance. */
  ghost predicate FeeAgrees(rules: Rules, pay: Record, t: Target)
    requires pay.Payment? && rules.book.Valid()
  {
    rules.settings.enableFeeValidation && rules.settings.topology != BankGl ==>
      exists fee :: DueFee(rules, pay, t, fee) && -rules.settings.amountTolerance <= fee - t.fee <= rules.settings.amountTolerance
  }

  /** The target's policy goes before the payment's, and an id before any search. */
  ghost predicate DueFee(rules: Rules, pay: Record, t: Target, fee: int)
    requires pay.Payment? && rules.book.Valid()
  {
    var policyId := if t.feePolicyId == "" then pay.feePolicyId else t.feePolicyId;
    FeeIs(rules, pay.amount, Context(t.processorName, pay.paymentMethod, pay.currency), policyId, fee)
  }

  lemma FeeForByFields(rules: Rules, pay: Record, t: Target)
    requires pay.Payment? && rules.book.Valid()
    ensures forall fee :: FeeFor(rules, pay, t) == Some(fee) <==> DueFee(rules, pay, t, fee)
  {
    hide FeeIs, ExpectedFee, Book.Valid;
    forall fee {
      ExpectedFeeByFields(rules, pay.amount, Context(t.processorName, pay.paymentMethod, pay.currency),
                          if t.feePolicyId == "" then pay.feePolicyId else t.feePolicyId, fee);
    }
  }

  /** Wider tolerances and windows and a lower threshold. */
  ghost predicate Looser(s: Settings, loose: Settings) {
    && s.amountTolerance <= loose.amountTolerance && s.timingWindowDays <= loose.timingWindowDays
    && s.toleranceWindowDays <= loose.toleranceWindowDays && loose.fuzzyThreshold <= s.fuzzyThreshold && loose.similarity == s.similarity
  }

  /** Loosening the settings never loses a pass or makes it a later one. */
  lemma LooserNeverLosesAPass(s: Settings, loose: Settings, pay: Record, t: Target)
    requires pay.Payment? && Looser(s, loose)
    ensures StrategyFor(s, pay, t) == Some(Exact) ==> StrategyFor(loose, pay, t) == Some(Exact)
    ensures StrategyFor(s, pay, t) == Some(Timing) ==> StrategyFor(loose, pay, t) == Some(Timing)
    ensures StrategyFor(s, pay, t).Some? ==> StrategyFor(loose, pay, t).Some?
  {
    hide DayDiff;
  }

  /** The stored refund and invoice that the checks read. */
  function RefundFor(data: Data, lists: Lists): (r: Option<Record>)
    ensures r.Some? ==> r.value.Refund?
  {
    var first := First(data, lists.refunds);
    if first.Some? && first.value.Refund? then first else None
  }

  function InvoiceFor(data: Data, lists: Lists): (r: Option<Record>)
    ensures r.Some? ==> r.value.Invoice?
  {
    var first := First(data, lists.invoices);
    if first.Some? && first.value.Invoice? then first else None
  }

  /** What a payment meets: the keys of several payments, the first refund and invoice, the keys of rival processor transactions, and a target. */
  datatype Situation = Situation(copies: seq<string>, refund: Option<Record>, invoice: Option<Record>, rivals: seq<string>, target: Option<Target>) {
    ghost predicate Valid() {
      (refund.Some? ==> refund.value.Refund?) && (invoice.Some? ==> invoice.value.Invoice?)
    }
  }

  function SituationOf(data: Data, lists: Lists, consumed: set<string>): (x: Situation)
    ensures x.Valid()
  {
    Situation(if |lists.payments| > 1 then Keys(lists.payments) else [], RefundFor(data, lists), InvoiceFor(data, lists),
              if |Available(lists.processors, consumed)| > 1 then Keys(lists.processors) else [], TargetFor(data, lists, consumed))
  }

  function OneIf(c: bool, kind: Kind): seq<Kind> {
    if c then [kind] else []
  }

  /** Another posting of the same payment: no further check is made. */
  ghost predicate IsCopy(rules: Rules, pay: Record, x: Situation)
    requires pay.Payment?
  {
    pay.isDuplicate || (x.copies != [] && (rules.settings.topology != BankGl || x.target.None?))
  }

  ghost function OrderFailures(s: Settings, pay: Record, x: Situation): seq<Kind>
    requires pay.Payment? && x.Valid()
  {
    OneIf(x.refund.Some? && x.refund.value.amount < pay.amount, PartialRefund)
    + OneIf(x.refund.Some? && x.refund.value.amount >= pay.amount, FullRefund)
    + OneIf(x.invoice.Some? && pay.amount - x.invoice.value.amount > s.amountTolerance, Overpayment)
    + OneIf(x.invoice.Some? && -s.amountTolerance > pay.amount - x.invoice.value.amount && pay.amount - x.invoice.value.amount <= s.amountTolerance
            && !pay.partial.given, AmountMismatch)
    + OneIf(x.rivals != [], DuplicateProcessor)
  }

  ghost function TargetFailures(rules: Rules, pay: Record, t: Target): seq<Kind>
    requires pay.Payment? && rules.book.Valid()
  {
    var due := exists fee :: DueFee(rules, pay, t, fee);
    OneIf(!SameCode(pay.currency, t.currency), CurrencyMismatch)
    + OneIf(!InTime(rules.settings, pay, t) && !InTolerance(rules.settings, pay, t), AmountMismatch)
    + OneIf(!FeeAgrees(rules, pay, t) && !due, UnknownFeePolicy) + OneIf(!FeeAgrees(rules, pay, t) && due, FeeMismatch)
  }

  /** The checks that fail, in the order in which they are made. */
  ghost function Failures(rules: Rules, pay: Record, x: Situation): seq<Kind>
    requires pay.Payment? && rules.book.Valid() && x.Valid()
  {
    if IsCopy(rules, pay, x) then [DuplicateInternal]
    else OrderFailures(rules.settings, pay, x) + if x.target.Some? then TargetFailures(rules, pay, x.target.value) else [MissingProcessor]
  }

  // ---------- what a finding says ----------

  /** The figures and related ids of a finding, by its kind. */
  ghost predicate Tells(f: Finding, rules: Rules, pay: Record, x: Situation)
    requires pay.Payment? && rules.book.Valid() && x.Valid()
  {
    var paid, order := pay.amount, pay.orderId;
    match f.kind
    case DuplicateInternal => f.expected == f.actual == Cents(paid) && f.diff == 0 && f.related == if pay.isDuplicate then [order] else x.copies
    case DuplicateProcessor => f.expected == f.actual == Cents(paid) && f.diff == 0 && f.related == x.rivals
    case MissingProcessor => f.expected == Cents(paid) && f.actual == Cents(0) && f.diff == paid && f.related == [order]
    case PartialRefund => x.refund.Some? && RefundFigures(f, pay, x.refund.value)
    case FullRefund => x.refund.Some? && RefundFigures(f, pay, x.refund.value)
    case Overpayment =>
      && x.invoice.Some? && f.expected == Cents(x.invoice.value.amount) && f.actual == Cents(paid)
      && f.diff == paid - x.invoice.value.amount && f.related == [x.invoice.value.invoiceId, order]
    case AmountMismatch =>
      || (&& x.invoice.Some? && f.expected == Cents(x.invoice.value.amount) && f.actual == Cents(paid)
          && f.diff == x.invoice.value.amount - paid && f.related == [x.invoice.value.invoiceId, order])
      || (&& x.target.Some? && f.expected == Cents(paid) && f.actual == Cents(x.target.value.gross)
          && f.diff == paid - x.target.value.gross && f.related == [x.target.value.id, order])
    case CurrencyMismatch =>
      && x.target.Some? && f.expected == Currency(pay.currency) && f.actual == Currency(x.target.value.currency) && f.diff == 0
      && f.related == [x.target.value.id, order]
    case UnknownFeePolicy =>
      && x.target.Some? && f.expected == Cents(0) && f.actual == Cents(x.target.value.fee) && f.diff == x.target.value.fee
      && f.related == [pay.transactionId, order]
    case FeeMismatch =>
      && x.target.Some? && f.expected.Cents? && DueFee(rules, pay, x.target.value, f.expected.amount)
      && f.actual == Cents(x.target.value.fee) && f.diff == x.target.value.fee - f.expected.amount && f.related == [pay.transactionId, order]
    case _ => false
  }

  ghost predicate RefundFigures(f: Finding, pay: Record, refund: Record)
    requires pay.Payment? && refund.Refund?
  {
    && f.expected == Cents(pay.amount) && f.actual == Cents(refund.amount) && f.diff == pay.amount - refund.amount
    && f.related == [refund.refundId, pay.orderId]
  }

  /** The findings are of these kinds, in this order, and say what their kinds tell. */
  ghost predicate Explains(fs: seq<Finding>, kinds: seq<Kind>, rules: Rules, pay: Record, x: Situation)
    requires pay.Payment? && rules.book.Valid() && x.Valid()
  {
    |fs| == |kinds| && forall i | 0 <= i < |fs| :: fs[i].kind == kinds[i] && Tells(fs[i], rules, pay, x)
  }

  lemma ExplainsBoth(fs: seq<Finding>, ks: seq<Kind>, gs: seq<Finding>, ls: seq<Kind>, rules: Rules, pay: Record, x: Situation)
    requires pay.Payment? && rules.book.Valid() && x.Valid() && Explains(fs, ks, rules, pay, x) && Explains(gs, ls, rules, pay, x)
    ensures Explains(fs + gs, ks + ls, rules, pay, x)
  {
    hide Tells;
  }

  lemma {:induction false} AvailableMembers(es: Items, consumed: set<string>)
    ensures |Available(es, consumed)| <= |es|
    ensures forall e :: e in Available(es, consumed) <==> e in es && EntryId(e) !in consumed
  {
    hide EntryId;
    if es != [] {
      AvailableMembers(es[..|es| - 1], consumed);
      assert es == es[..|es| - 1] + [es[|es| - 1]];
    }
  }

  lemma RefundExplained(data: Data, lists: Lists, rules: Rules, consumed: set<string>, pay: Record)
    requires pay.Payment? && rules.book.Valid()
    ensures var x := SituationOf(data, lists, consumed);
            Explains(RefundFindings(data, lists, pay),
                     OneIf(x.refund.Some? && x.refund.value.amount < pay.amount, PartialRefund)
                     + OneIf(x.refund.Some? && x.refund.value.amount >= pay.amount, FullRefund), rules, pay, x)
  {
    hide First, Available, TargetFor, DueFee;
  }

  lemma InvoiceExplained(data: Data, lists: Lists, rules: Rules, consumed: set<string>, pay: Record)
    requires pay.Payment? && rules.book.Valid()
    ensures var x, s := SituationOf(data, lists, consumed), rules.settings;
            Explains(InvoiceFindings(data, lists, s, pay),
                     OneIf(x.invoice.Some? && pay.amount - x.invoice.value.amount > s.amountTolerance, Overpayment)
                     + OneIf(x.invoice.Some? && -s.amountTolerance > pay.amount - x.invoice.value.amount
                             && pay.amount - x.invoice.value.amount <= s.amountTolerance && !pay.partial.given, AmountMismatch), rules, pay, x)
  {
    hide First, Available, TargetFor, DueFee;
  }

  lemma DuplicateExplained(data: Data, lists: Lists, rules: Rules, consumed: set<string>, pay: Record)
    requires pay.Payment? && rules.book.Valid()
    ensures var x := SituationOf(data, lists, consumed);
            Explains(DuplicateFindings(lists, consumed, pay), OneIf(x.rivals != [], DuplicateProcessor), rules, pay, x)
  {
    hide First, TargetFor, DueFee, Keys, Available;
    AvailableMembers(lists.processors, consumed);
  }

  lemma OrderExplained(data: Data, lists: Lists, rules: Rules, consumed: set<string>, pay: Record)
    requires pay.Payment? && rules.book.Valid()
    ensures var x := SituationOf(data, lists, consumed);
            Explains(EarlyFindings(data, lists, rules.settings, consumed, pay), OrderFailures(rules.settings, pay, x), rules, pay, x)
  {
    hide RefundFindings, InvoiceFindings, DuplicateFindings, Explains, OneIf, SituationOf;
    var x, s := SituationOf(data, lists, consumed), rules.settings;
    RefundExplained(data, lists, rules, consumed, pay);
    InvoiceExplained(data, lists, rules, consumed, pay);
    DuplicateExplained(data, lists, rules, consumed, pay);
    var refunds := OneIf(x.refund.Some? && x.refund.value.amount < pay.amount, PartialRefund)
                   + OneIf(x.refund.Some? && x.refund.value.amount >= pay.amount, FullRefund);
    var due := if x.invoice.Some? then pay.amount - x.invoice.value.amount else 0;
    var invoices := OneIf(x.invoice.Some? && due > s.amountTolerance, Overpayment)
                    + OneIf(x.invoice.Some? && -s.amountTolerance > due && due <= s.amountTolerance && !pay.partial.given, AmountMismatch);
    ExplainsBoth(RefundFindings(data, lists, pay), refunds, InvoiceFindings(data, lists, s, pay), invoices, rules, pay, x);
    ExplainsBoth(RefundFindings(data, lists, pay) + InvoiceFindings(data, lists, s, pay), refunds + invoices,
                 DuplicateFindings(lists, consumed, pay), OneIf(x.rivals != [], DuplicateProcessor), rules, pay, x);
    assert OrderFailures(s, pay, x) == refunds + invoices + OneIf(x.rivals != [], DuplicateProcessor);
  }

  lemma CurrencyExplained(rules: Rules, pay: Record, x: Situation)
    requires pay.Payment? && rules.book.Valid() && x.Valid() && x.target.Some?
    ensures Explains(CurrencyFindings(pay, x.target.value), OneIf(!SameCode(pay.currency, x.target.value.currency), CurrencyMismatch), rules, pay, x)
  {
    hide DueFee, SameCode;
  }

  lemma StrategyExplained(rules: Rules, pay: Record, x: Situation)
    requires pay.Payment? && rules.book.Valid() && x.Valid() && x.target.Some?
    ensures var t, s := x.target.value, rules.settings;
            Explains(StrategyFindings(s, pay, t), OneIf(!InTime(s, pay, t) && !InTolerance(s, pay, t), AmountMismatch), rules, pay, x)
  {
    hide StrategyFor, DueFee, InTime, InTolerance;
    FirstPassThatHolds(rules.settings, pay, x.target.value);
  }

  lemma FeeExplained(rules: Rules, pay: Record, x: Situation)
    requires pay.Payment? && rules.book.Valid() && x.Valid() && x.target.Some?
    ensures var t := x.target.value;
            var due := exists fee :: DueFee(rules, pay, t, fee);
            Explains(FeeFindings(rules, pay, t),
                     OneIf(!FeeAgrees(rules, pay, t) && !due, UnknownFeePolicy) + OneIf(!FeeAgrees(rules, pay, t) && due, FeeMismatch), rules, pay, x)
  {
    hide FeeFor, DueFee;
    FeeForByFields(rules, pay, x.target.value);
  }

  lemma TargetExplained(rules: Rules, pay: Record, x: Situation)
    requires pay.Payment? && rules.book.Valid() && x.Valid() && x.target.Some?
    ensures Explains(TargetFindings(rules, pay, x.target.value), TargetFailures(rules, pay, x.target.value), rules, pay, x)
  {
    hide CurrencyFindings, StrategyFindings, FeeFindings, Explains, OneIf, DueFee, SameCode, InTime, InTolerance, FeeAgrees;
    var t, s := x.target.value, rules.settings;
    CurrencyExplained(rules, pay, x);
    StrategyExplained(rules, pay, x);
    FeeExplained(rules, pay, x);
    var due := exists fee :: DueFee(rules, pay, t, fee);
    var currency := OneIf(!SameCode(pay.currency, t.currency), CurrencyMismatch);
    var timely := OneIf(!InTime(s, pay, t) && !InTolerance(s, pay, t), AmountMismatch);
    var fee := OneIf(!FeeAgrees(rules, pay, t) && !due, UnknownFeePolicy) + OneIf(!FeeAgrees(rules, pay, t) && due, FeeMismatch);
    ExplainsBoth(CurrencyFindings(pay, t), currency, StrategyFindings(s, pay, t), timely, rules, pay, x);
    ExplainsBoth(CurrencyFindings(pay, t) + StrategyFindings(s, pay, t), currency + timely, FeeFindings(rules, pay, t), fee, rules, pay, x);
    assert TargetFailures(rules, pay, t) == currency + timely + fee;
  }

  /**
   A payment matches exactly when no check fails. Otherwise there is one exception, with one finding
   for each check that fails, in their order; it is about the processor transaction if that is the
   target, and about the payment if not.
   */
  lemma MatchesExactlyWhen(data: Data, lists: Lists, rules: Rules, consumed: set<string>, pay: Record)
    requires pay.Payment? && rules.book.Valid()
    ensures var o, x := Decide(data, lists, rules, consumed, pay), SituationOf(data, lists, consumed);
            if Failures(rules, pay, x) == [] then
              && x.target.Some? && o.OrderMatch? && o.targetId == x.target.value.id && o.paymentId == pay.transactionId && o.orderId == pay.orderId
              && o.amount == pay.amount && o.fees == x.target.value.fee && o.net == x.target.value.net && o.batchId == x.target.value.batchId
              && o.partial == pay.partial.stated
              && Some(o.strategy) == StrategyFor(rules.settings, pay, x.target.value) && Consumes(o) == {x.target.value.id}
            else
              && o.Exception? && Explains(o.findings, Failures(rules, pay, x), rules, pay, x) && Consumes(o) == {}
              && (o.primaryType, o.primaryId) == if x.target.Some? && x.target.value.isProcessor && !IsCopy(rules, pay, x)
                                                 then ("PROCESSOR", x.target.value.id) else ("PAYMENT", pay.transactionId)
  {
    hide EarlyFindings, TargetFindings, TargetFor, StrategyFor, FeeFor, FeeAgrees, SameCode, InTime, InTolerance, DueFee, Keys, Available,
         OrderFailures, TargetFailures, First;
    var x := SituationOf(data, lists, consumed);
    if !IsCopy(rules, pay, x) {
      OrderExplained(data, lists, rules, consumed, pay);
      var early, kinds := EarlyFindings(data, lists, rules.settings, consumed, pay), OrderFailures(rules.settings, pay, x);
      if x.target.Some? {
        TargetExplained(rules, pay, x);
        ExplainsBoth(early, kinds, TargetFindings(rules, pay, x.target.value), TargetFailures(rules, pay, x.target.value), rules, pay, x);
        NoTargetFailure(rules, pay, x.target.value);
      }
    }
  }

  /** No check of the target fails exactly when it agrees in currency, amount, time and fee. */
  lemma NoTargetFailure(rules: Rules, pay: Record, t: Target)
    requires pay.Payment? && rules.book.Valid()
    ensures TargetFailures(rules, pay, t) == [] <==>
              SameCode(pay.currency, t.currency) && (InTime(rules.settings, pay, t) || InTolerance(rules.settings, pay, t)) && FeeAgrees(rules, pay, t)
    ensures TargetFailures(rules, pay, t) == [] ==> StrategyFor(rules.settings, pay, t).Some?
  {
    hide SameCode, InTime, InTolerance, FeeAgrees, DueFee, StrategyFor;
    FirstPassThatHolds(rules.settings, pay, t);
  }

  // ---------- the decision for a settlement batch ----------

  function BankFor(data: Data, entries: Items): Option<Record> {
    var first := First(data, entries);
    if first.Some? && first.value.Bank? then first else None
  }

  function BatchException(batch: Record, f: Finding): Outcome
    requires batch.Batch?
  {
    Exception("BATCH", batch.batchId, [f])
  }

  function DecideBatch(data: Data, entries: Items, s: Settings, batch: Record): Outcome
    requires batch.Batch?
  {
    if |entries| > 1 then
      BatchException(batch, AmountFinding(DuplicateBankEntry, batch.totalNet, batch.totalNet, 0, Keys(entries)))
    else
      match BankFor(data, entries)
      case None => BatchException(batch, AmountFinding(MissingBankSettlement, batch.totalNet, 0, batch.totalNet, []))
      case Some(bank) =>
        if !IsCurrencyMatching(batch.currency, bank.currency) then
          BatchException(batch, Finding(CurrencyMismatch, Currency(batch.currency), Currency(bank.currency), 0, [bank.bankTransactionId]))
        else if !IsAmountMatching(s, batch.totalNet, bank.amount) then
          BatchException(batch, AmountFinding(AmountMismatch, batch.totalNet, bank.amount, batch.totalNet - bank.amount, [bank.bankTransactionId]))
        else if !IsWithinTimeWindow(s, batch.timestamp, bank.timestamp) then
          BatchException(batch, Finding(LateSettlement, Instant(batch.timestamp), Instant(bank.timestamp),
                                        Abs(batch.timestamp - bank.timestamp), [bank.bankTransactionId]))
        else BatchMatch(batch.batchId, bank.bankTransactionId, batch.totalGross, batch.totalFees, batch.totalNet)
  }

  // ---------- figures ----------

  /** The difference is what is missing, except where the excess is reported; currencies and times are no amounts. */
  predicate AddsUp(f: Finding) {
    f.expected.Cents? && f.actual.Cents? ==>
      f.diff == if f.kind in {Overpayment, UnknownFeePolicy, FeeMismatch, MissingInternal} then f.actual.amount - f.expected.amount
                else f.expected.amount - f.actual.amount
  }

  ghost predicate AllAddUp(fs: seq<Finding>) {
    forall i | 0 <= i < |fs| :: AddsUp(fs[i])
  }

  /** In every exception about a payment the figures of every finding add up. */
  lemma FiguresAddUp(data: Data, lists: Lists, rules: Rules, consumed: set<string>, pay: Record)
    requires pay.Payment? && rules.book.Valid()
    ensures var o := Decide(data, lists, rules, consumed, pay); o.Exception? ==> AllAddUp(o.findings)
  {
    hide Decide, SituationOf, Failures, DueFee;
    MatchesExactlyWhen(data, lists, rules, consumed, pay);
  }
}
