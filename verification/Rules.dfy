/** Fee policy lookup and the rules that the matcher asks (recon/rules.py). Amounts and tolerances are in cents. */
module Rules {
  import opened Wrappers
  import opened Texts
  import opened Spelling
  import opened Fees

  // ---------- the registry's dictionary ----------

  /** An insertion-ordered dictionary of policies. */
  datatype Book = Book(byId: map<string, FeePolicy>, order: seq<string>) {
    predicate Valid() {
      && (forall i | 0 <= i < |order| :: order[i] in byId)
      && (forall id | id in byId :: id in order && byId[id].policyId == id)
      && (forall i, j | 0 <= i < j < |order| :: order[i] != order[j])
    }

    function Get(id: string): Option<FeePolicy> {
      if id in byId then Some(byId[id]) else None
    }

    /** The policies in the order in which their ids first came. */
    function Listed(): seq<FeePolicy>
      requires Valid()
    {
      seq(|order|, i requires 0 <= i < |order| => byId[order[i]])
    }

    /** Overriding a policy keeps the place of its id. */
    function With(p: FeePolicy): Book {
      Book(byId[p.policyId := p], if p.policyId in byId then order else order + [p.policyId])
    }
  }

  lemma WithIsValid(book: Book, p: FeePolicy)
    requires book.Valid()
    ensures book.With(p).Valid()
  {
    var next := book.With(p);
    forall id | id in next.byId
      ensures id in next.order
    {
      if id == p.policyId && p.policyId !in book.byId { assert next.order[|book.order|] == id; }
    }
  }

  /** A new id goes to the end of the list. */
  lemma ListedWithNew(book: Book, p: FeePolicy)
    requires book.Valid() && p.policyId !in book.byId
    ensures book.With(p).Valid() && book.With(p).Listed() == book.Listed() + [p]
  {
    WithIsValid(book, p);
  }

  /** A known id keeps its place. */
  lemma ListedWithKnown(book: Book, p: FeePolicy, i: int)
    requires book.Valid() && 0 <= i < |book.order| && book.order[i] == p.policyId
    ensures book.With(p).Valid() && book.With(p).Listed() == book.Listed()[i := p]
  {
    WithIsValid(book, p);
  }

  lemma ListedOnce(book: Book, i: int, j: int)
    requires book.Valid() && 0 <= i < |book.order| && 0 <= j < |book.order| && book.Listed()[i] == book.Listed()[j]
    ensures i == j
  {
  }

  // ---------- which policy is chosen ----------

  datatype Context = Context(processor: string, paymentMethod: string, currency: string)

  predicate OfProcessor(p: FeePolicy, c: Context) {
    c.processor != "" && p.processor == c.processor && p.processor != "ANY"
  }

  predicate OfMethod(p: FeePolicy, c: Context) {
    c.paymentMethod != "" && p.paymentMethod == c.paymentMethod
  }

  /** The conditions of the four searches. */
  predicate Accepts(stage: nat, p: FeePolicy, c: Context) {
    if stage == 1 then
      && OfProcessor(p, c)
      && (c.paymentMethod != "" ==> p.paymentMethod == "ANY" || p.paymentMethod == c.paymentMethod)
      && (c.currency != "" ==> p.currency == "ANY" || p.currency == c.currency)
    else if stage == 2 then OfMethod(p, c) && p.currency == c.currency
    else if stage == 3 then OfMethod(p, c)
    else OfProcessor(p, c)
  }

  /** The last policy of the list that a search accepts. */
  function Latest(ps: seq<FeePolicy>, stage: nat, c: Context): Option<FeePolicy> {
    if ps == [] then None
    else if Accepts(stage, ps[|ps| - 1], c) then Some(ps[|ps| - 1])
    else Latest(ps[..|ps| - 1], stage, c)
  }

  function Choice(ps: seq<FeePolicy>, stage: nat, c: Context): Option<FeePolicy>
    requires 1 <= stage <= 5
    decreases 5 - stage
  {
    if stage == 5 then None
    else
      var found := Latest(ps, stage, c);
      if found.Some? then found else Choice(ps, stage + 1, c)
  }

  /** The policy that applies: the staged searches, then the global fallback if it is allowed. */
  function PolicyFor(book: Book, fallback: bool, c: Context): Option<FeePolicy>
    requires book.Valid()
  {
    var found := Choice(book.Listed(), 1, c);
    if found.Some? then found
    else if fallback then book.Get("DEFAULT_FALLBACK")
    else None
  }

  // ---------- the choice, said about the fields of the policies ----------

  /** Made for the context's processor, and for no other method or currency than the context's. */
  ghost predicate ForProcessorAndKind(p: FeePolicy, c: Context) {
    && p.processor == c.processor != "" && c.processor != "ANY"
    && (p.paymentMethod == "ANY" || c.paymentMethod in ["", p.paymentMethod])
    && (p.currency == "ANY" || c.currency in ["", p.currency])
  }

  ghost predicate ForMethodAndCurrency(p: FeePolicy, c: Context) {
    p.paymentMethod == c.paymentMethod != "" && p.currency == c.currency
  }

  ghost predicate ForMethod(p: FeePolicy, c: Context) {
    p.paymentMethod == c.paymentMethod != ""
  }

  ghost predicate ForProcessor(p: FeePolicy, c: Context) {
    p.processor == c.processor != "" && c.processor != "ANY"
  }

  /**
   The policy at i is the latest for the context's processor and kind; or there is none of those and
   it is the latest for the method and currency; or none of those either and it is the latest for the
   method; or none at all of those and it is the latest for the processor.
   */
  ghost predicate Chosen(ps: seq<FeePolicy>, i: int, c: Context) {
    && 0 <= i < |ps|
    && var noneForKind := forall j | 0 <= j < |ps| :: !ForProcessorAndKind(ps[j], c);
       var noneForCurrency := forall j | 0 <= j < |ps| :: !ForMethodAndCurrency(ps[j], c);
       var noneForMethod := forall j | 0 <= j < |ps| :: !ForMethod(ps[j], c);
       || (ForProcessorAndKind(ps[i], c) && forall j | i < j < |ps| :: !ForProcessorAndKind(ps[j], c))
       || (noneForKind && ForMethodAndCurrency(ps[i], c) && forall j | i < j < |ps| :: !ForMethodAndCurrency(ps[j], c))
       || (noneForKind && noneForCurrency && ForMethod(ps[i], c) && forall j | i < j < |ps| :: !ForMethod(ps[j], c))
       || (noneForKind && noneForMethod && ForProcessor(ps[i], c) && forall j | i < j < |ps| :: !ForProcessor(ps[j], c))
  }

  /** No policy is for the context's method or for its processor. */
  ghost predicate NoneFor(ps: seq<FeePolicy>, c: Context) {
    forall j | 0 <= j < |ps| :: !ForMethod(ps[j], c) && !ForProcessor(ps[j], c)
  }

  /** The policy of the list that applies to a context, the fallback only if it is allowed and nothing else applies. */
  ghost predicate Applies(ps: seq<FeePolicy>, fallback: bool, c: Context, p: FeePolicy) {
    exists i :: 0 <= i < |ps| && ps[i] == p && (Chosen(ps, i, c) || (fallback && NoneFor(ps, c) && p.policyId == "DEFAULT_FALLBACK"))
  }

  lemma AcceptsByFields(p: FeePolicy, c: Context)
    ensures Accepts(1, p, c) <==> ForProcessorAndKind(p, c)
    ensures Accepts(2, p, c) <==> ForMethodAndCurrency(p, c)
    ensures Accepts(3, p, c) <==> ForMethod(p, c)
    ensures Accepts(4, p, c) <==> ForProcessor(p, c)
  {
  }

  /** How specific a policy is for a context, 5 if it does not apply at all. */
  ghost function Rank(p: FeePolicy, c: Context): nat {
    if ForProcessorAndKind(p, c) then 1
    else if ForMethodAndCurrency(p, c) then 2
    else if ForMethod(p, c) then 3
    else if ForProcessor(p, c) then 4 else 5
  }

  /** The policy at i is at least as specific as all others, and strictly more so than those after it. */
  ghost predicate Best(ps: seq<FeePolicy>, i: int, c: Context) {
    && 0 <= i < |ps| && Rank(ps[i], c) < 5
    && (forall j | 0 <= j < |ps| :: Rank(ps[i], c) <= Rank(ps[j], c))
    && (forall j | i < j < |ps| :: Rank(ps[i], c) < Rank(ps[j], c))
  }

  lemma {:induction false} LatestFound(ps: seq<FeePolicy>, stage: nat, c: Context) returns (i: int)
    ensures -1 <= i < |ps|
    ensures i == -1 ==> Latest(ps, stage, c) == None
    ensures i >= 0 ==> Latest(ps, stage, c) == Some(ps[i]) && Accepts(stage, ps[i], c)
    ensures forall j | i < j < |ps| :: !Accepts(stage, ps[j], c)
  {
    hide Accepts;
    if ps == [] {
      i := -1;
    } else if Accepts(stage, ps[|ps| - 1], c) {
      i := |ps| - 1;
    } else {
      i := LatestFound(ps[..|ps| - 1], stage, c);
    }
  }

  lemma RankByStage(p: FeePolicy, stage: nat, c: Context)
    requires 1 <= stage <= 5
    ensures Rank(p, c) <= 5 && (stage < 5 && Rank(p, c) >= stage ==> (Accepts(stage, p, c) <==> Rank(p, c) == stage))
  {
    hide Accepts, ForProcessorAndKind, ForMethodAndCurrency, ForMethod, ForProcessor;
    AcceptsByFields(p, c);
  }

  lemma {:induction false} ChoiceFrom(ps: seq<FeePolicy>, stage: nat, c: Context)
    requires 1 <= stage <= 5
    requires forall j | 0 <= j < |ps| :: Rank(ps[j], c) >= stage
    ensures Choice(ps, stage, c) == None ==> forall j | 0 <= j < |ps| :: Rank(ps[j], c) == 5
    ensures Choice(ps, stage, c) != None ==> exists i :: Best(ps, i, c) && Choice(ps, stage, c) == Some(ps[i])
    decreases 5 - stage
  {
    hide Accepts, Rank;
    forall j | 0 <= j < |ps| {
      RankByStage(ps[j], stage, c);
    }
    if stage < 5 {
      var i := LatestFound(ps, stage, c);
      if i == -1 {
        forall j | 0 <= j < |ps|
          ensures Rank(ps[j], c) >= stage + 1
        {
          assert !Accepts(stage, ps[j], c);
        }
        ChoiceFrom(ps, stage + 1, c);
      } else {
        assert Rank(ps[i], c) == stage;
        assert forall j | i < j < |ps| :: !Accepts(stage, ps[j], c) && Rank(ps[j], c) != stage;
        assert Best(ps, i, c);
      }
    }
  }

  /** The staged searches find the most specific policy, of equally specific ones the latest, and nothing exactly when none applies. */
  lemma ChoiceIsBest(ps: seq<FeePolicy>, c: Context)
    ensures Choice(ps, 1, c) == None <==> forall j | 0 <= j < |ps| :: Rank(ps[j], c) == 5
    ensures forall p :: Choice(ps, 1, c) == Some(p) <==> exists i :: Best(ps, i, c) && 0 <= i < |ps| && ps[i] == p
  {
    hide Accepts;
    ChoiceFrom(ps, 1, c);
    if exists i :: Best(ps, i, c) {
      var i :| Best(ps, i, c);
      forall k | Best(ps, k, c)
        ensures k == i
      {
        BestIsUnique(ps, i, k, c);
      }
    }
  }

  lemma BestIsChosen(ps: seq<FeePolicy>, i: int, c: Context)
    ensures Best(ps, i, c) <==> Chosen(ps, i, c)
    ensures Chosen(ps, i, c) ==> 0 <= i < |ps|
  {
    hide ForProcessorAndKind;
    forall j | 0 <= j < |ps|
      ensures ForMethodAndCurrency(ps[j], c) ==> ForMethod(ps[j], c)
      ensures ForProcessorAndKind(ps[j], c) ==> ForProcessor(ps[j], c)
    {
      KindHasProcessor(ps[j], c);
    }
    hide ForMethodAndCurrency, ForMethod, ForProcessor;
  }

  lemma KindHasProcessor(p: FeePolicy, c: Context)
    ensures ForProcessorAndKind(p, c) ==> ForProcessor(p, c)
  {
  }

  /** The staged searches choose by the fields of the policies, and find nothing exactly when no policy is for the method or the processor. */
  lemma ChoiceByFields(ps: seq<FeePolicy>, c: Context)
    ensures Choice(ps, 1, c) == None <==> NoneFor(ps, c)
    ensures forall p :: Choice(ps, 1, c) == Some(p) <==> exists i :: Chosen(ps, i, c) && ps[i] == p
  {
    hide Choice, Chosen, Best;
    ChoiceIsBest(ps, c);
    forall j | 0 <= j < |ps|
      ensures Rank(ps[j], c) == 5 <==> !ForMethod(ps[j], c) && !ForProcessor(ps[j], c)
    {
      KindHasProcessor(ps[j], c);
    }
    forall i {
      BestIsChosen(ps, i, c);
    }
  }

  /** The applicable policy is the one that its fields and its place tell, and there is at most one. */
  lemma PolicyByFields(book: Book, fallback: bool, c: Context)
    requires book.Valid()
    ensures forall p :: PolicyFor(book, fallback, c) == Some(p) <==> Applies(book.Listed(), fallback, c, p)
  {
    hide Choice, Chosen, NoneFor, Book.Valid, Book.Listed, Book.Get;
    var ps := book.Listed();
    ChoiceByFields(ps, c);
    forall p {
      GetByFields(book, "DEFAULT_FALLBACK", p);
    }
    forall i | Chosen(ps, i, c)
      ensures 0 <= i < |ps| && Choice(ps, 1, c) == Some(ps[i])
    {
      BestIsChosen(ps, i, c);
    }
  }

  lemma GetByFields(book: Book, id: string, p: FeePolicy)
    requires book.Valid()
    ensures book.Get(id) == Some(p) <==> p.policyId == id && exists i :: 0 <= i < |book.Listed()| && book.Listed()[i] == p
  {
    if book.Get(id) == Some(p) {
      var i :| 0 <= i < |book.order| && book.order[i] == id;
      assert book.Listed()[i] == p;
    }
  }

  lemma BestIsUnique(ps: seq<FeePolicy>, i: int, k: int, c: Context)
    requires Best(ps, i, c) && Best(ps, k, c)
    ensures i == k
  {
    hide Rank;
  }

  /** A policy with a new id is chosen exactly when no earlier one is more specific; otherwise the choice stays what it was. */
  lemma NewestWinsTies(book: Book, p: FeePolicy, c: Context)
    requires book.Valid() && p.policyId !in book.byId
    ensures book.With(p).Valid()
    ensures var ps := book.Listed();
            var wins := Rank(p, c) < 5 && forall j | 0 <= j < |ps| :: Rank(p, c) <= Rank(ps[j], c);
            Choice(book.With(p).Listed(), 1, c) == if wins then Some(p) else Choice(ps, 1, c)
  {
    hide Rank, Choice, Book.Valid, Book.Listed, Book.With;
    ListedWithNew(book, p);
    ChoiceWithLast(book.Listed(), p, c);
  }

  lemma ChoiceWithLast(ps: seq<FeePolicy>, p: FeePolicy, c: Context)
    ensures var wins := Rank(p, c) < 5 && forall j | 0 <= j < |ps| :: Rank(p, c) <= Rank(ps[j], c);
            Choice(ps + [p], 1, c) == if wins then Some(p) else Choice(ps, 1, c)
  {
    hide Rank, Choice;
    var qs := ps + [p];
    ChoiceIsBest(ps, c);
    ChoiceIsBest(qs, c);
    assert qs[|ps|] == p;
    if Rank(p, c) < 5 && forall j | 0 <= j < |ps| :: Rank(p, c) <= Rank(ps[j], c) {
      assert Best(qs, |ps|, c);
    } else if Choice(ps, 1, c).Some? {
      var i :| Best(ps, i, c) && Choice(ps, 1, c) == Some(ps[i]);
      assert Best(qs, i, c) && qs[i] == ps[i];
    } else {
      assert forall j | 0 <= j < |qs| :: Rank(qs[j], c) == 5;
    }
  }

  /**
   Overriding a policy does not make it the latest: it is chosen exactly when it is at least as
   specific as those before its old place and more specific than those after it.
   */
  lemma OverrideKeepsItsPlace(book: Book, p: FeePolicy, i: int, c: Context)
    requires book.Valid() && 0 <= i < |book.order| && book.order[i] == p.policyId
    ensures book.With(p).Valid()
    ensures var ps := book.Listed();
            Choice(book.With(p).Listed(), 1, c) == Some(p)
            <==> && Rank(p, c) < 5
                 && (forall j | 0 <= j < i :: Rank(p, c) <= Rank(ps[j], c))
                 && (forall j | i < j < |ps| :: Rank(p, c) < Rank(ps[j], c))
  {
    hide Rank, Choice, Best, Book.Valid, Book.With;
    ListedWithKnown(book, p, i);
    var qs := book.With(p).Listed();
    ChoiceIsBest(qs, c);
    BestAt(book.Listed(), p, i, c);
    if Choice(qs, 1, c) == Some(p) {
      var k :| Best(qs, k, c) && 0 <= k < |qs| && qs[k] == p;
      SameOrder(book, p, i);
      ListedOnce(book.With(p), i, k);
    }
  }

  lemma SameOrder(book: Book, p: FeePolicy, i: int)
    requires book.Valid() && 0 <= i < |book.order| && book.order[i] == p.policyId
    ensures book.With(p).order == book.order
  {
  }

  lemma BestAt(ps: seq<FeePolicy>, p: FeePolicy, i: int, c: Context)
    requires 0 <= i < |ps|
    ensures Best(ps[i := p], i, c)
            <==> && Rank(p, c) < 5
                 && (forall j | 0 <= j < i :: Rank(p, c) <= Rank(ps[j], c))
                 && (forall j | i < j < |ps| :: Rank(p, c) < Rank(ps[j], c))
  {
    hide Rank;
    var qs := ps[i := p];
    assert forall j | 0 <= j < |ps| && j != i :: qs[j] == ps[j];
    if Best(qs, i, c) {
      forall j | 0 <= j < |ps| && j != i
        ensures Rank(p, c) <= Rank(ps[j], c) && (j > i ==> Rank(p, c) < Rank(ps[j], c))
      {
        assert qs[j] == ps[j];
      }
    }
  }

  class FeePolicyRegistry {
    var book: Book
    const allowGlobalFallback: bool

    constructor (allowGlobalFallback: bool)
      ensures book.Valid() && book.Listed() == DefaultPolicies()
      ensures this.allowGlobalFallback == allowGlobalFallback
    {
      this.allowGlobalFallback := allowGlobalFallback;
      book := Book(map[], []);
      new;
      RegisterDefaultPolicies();
    }

    method Register(policy: FeePolicy)
      requires book.Valid()
      modifies this
      ensures book == old(book).With(policy) && book.Valid()
    {
      WithIsValid(book, policy);
      if policy.policyId !in book.byId {
        book := book.(order := book.order + [policy.policyId]);
      }
      book := book.(byId := book.byId[policy.policyId := policy]);
    }

    method Get(policyId: string) returns (r: Option<FeePolicy>)
      ensures r == book.Get(policyId)
    {
      r := if policyId in book.byId then Some(book.byId[policyId]) else None;
    }

    method RegisterDefaultPolicies()
      requires book == Book(map[], [])
      modifies this
      ensures book.Valid() && book.Listed() == DefaultPolicies()
    {
      hide Book.With, Book.Listed, Book.Valid, DefaultPolicies;
      DefaultIdsDiffer();
      var ps := DefaultPolicies();
      var i := 0;
      EmptyBook();
      while i < |ps|
        invariant 0 <= i <= |ps| && book.Valid() && book.Listed() == ps[..i]
        invariant forall id | id in book.byId :: exists j :: 0 <= j < i && ps[j].policyId == id
      {
        ListedWithNew(book, ps[i]);
        WithIds(book, ps[i]);
        Register(ps[i]);
        assert ps[..i + 1] == ps[..i] + [ps[i]];
        i := i + 1;
      }
      assert ps[..i] == ps;
    }

    /** One search over the reversed list of policies. */
    method Search(stage: nat, c: Context) returns (r: Option<FeePolicy>)
      requires book.Valid()
      ensures r == Latest(book.Listed(), stage, c)
    {
      hide Accepts;
      var ps := book.Listed();
      var i := |ps|;
      assert ps[..i] == ps;
      while i > 0
        invariant 0 <= i <= |ps| && Latest(ps, stage, c) == Latest(ps[..i], stage, c)
      {
        i := i - 1;
        assert ps[..i + 1][..i] == ps[..i];
        if Accepts(stage, ps[i], c) { return Some(ps[i]); }
      }
      r := None;
    }

    /** The most specific policy for a transaction, or none. */
    method MatchPolicy(c: Context) returns (r: Option<FeePolicy>)
      requires book.Valid()
      ensures r == PolicyFor(book, allowGlobalFallback, c)
      ensures forall p :: r == Some(p) <==> Applies(book.Listed(), allowGlobalFallback, c, p)
    {
      hide Latest, Accepts, Applies;
      PolicyByFields(book, allowGlobalFallback, c);
      r := Search(1, c);
      if r.Some? { return; }
      r := Search(2, c);
      if r.Some? { return; }
      r := Search(3, c);
      if r.Some? { return; }
      r := Search(4, c);
      if r.Some? { return; }
      assert Choice(book.Listed(), 5, c) == None;
      if allowGlobalFallback { r := Get("DEFAULT_FALLBACK"); }
    }
  }

  lemma EmptyBook()
    ensures Book(map[], []).Valid() && Book(map[], []).Listed() == []
  {
  }

  lemma WithIds(book: Book, p: FeePolicy)
    ensures book.With(p).byId.Keys == book.byId.Keys + {p.policyId}
  {
  }

  // ---------- the policies that every registry starts with ----------

  function Policy(id: string, rate: real, charge: real, paymentMethod: string, currency: string): FeePolicy {
    FeePolicy(id, rate, charge, currency, "ANY", "ANY", paymentMethod)
  }

  function DefaultPolicies(): seq<FeePolicy> {
    [ Policy("STRIPE_STANDARD", 2.9, 0.3, "ANY", "USD"),
      Policy("CARD_STANDARD_2.9", 2.9, 0.3, "CARD", "ANY"),
      Policy("UPI_STANDARD", 0.0, 0.0, "UPI", "ANY"),
      Policy("DEBIT_CARD_STANDARD", 0.9, 0.0, "DEBIT_CARD", "INR"),
      Policy("CREDIT_CARD_STANDARD", 2.0, 0.0, "CREDIT_CARD", "INR"),
      Policy("NET_BANKING_STANDARD", 0.0, 15.0, "NET_BANKING", "INR"),
      Policy("DIRECT_DEBIT_ZERO", 0.0, 0.0, "DIRECT_DEBIT", "ANY"),
      Policy("BANK_TRANSFER_ZERO", 0.0, 0.0, "BANK_TRANSFER", "ANY"),
      Policy("CHEQUE_ZERO", 0.0, 0.0, "CHEQUE", "ANY"),
      Policy("SEPA_CREDIT_ZERO", 0.0, 0.0, "SEPA_CREDIT_TRANSFER", "ANY"),
      Policy("RULE_INTL_CARD_3.5", 3.5, 0.0, "INTERNATIONAL_CARD", "ANY"),
      Policy("RULE_HIGH_VOLUME_DISCOUNT", 1.2, 0.0, "ANY", "ANY") ]
  }

  lemma DefaultIdsDiffer()
    ensures forall i, j | 0 <= i < j < |DefaultPolicies()| :: DefaultPolicies()[i].policyId != DefaultPolicies()[j].policyId
  {
    var tags := seq(12, i requires 0 <= i < 12 => (|DefaultPolicies()[i].policyId|, DefaultPolicies()[i].policyId[0]));
    assert tags == [(15, 'S'), (17, 'C'), (12, 'U'), (19, 'D'), (20, 'C'), (20, 'N'), (17, 'D'), (18, 'B'), (11, 'C'), (16, 'S'), (18, 'R'), (25, 'R')];
  }

  lemma AnyProcessor()
    ensures forall p | p in DefaultPolicies() :: p.processor == "ANY"
  {
  }

  /** Default policies are chosen by payment method alone: a policy in another currency applies as well. */
  lemma DefaultsGoByMethod(c: Context)
    ensures Choice(DefaultPolicies(), 1, c).Some? <==> c.paymentMethod != "" && exists p :: p in DefaultPolicies() && p.paymentMethod == c.paymentMethod
  {
    hide DefaultPolicies, Choice;
    var ps := DefaultPolicies();
    ChoiceIsBest(ps, c);
    AnyProcessor();
    forall j | 0 <= j < |ps|
      ensures Rank(ps[j], c) < 5 <==> OfMethod(ps[j], c)
    {
      assert ps[j] in ps && !OfProcessor(ps[j], c);
    }
  }

  /** What a new registry charges for a means of payment: a percentage and a fixed amount. Only for ANY does the currency matter. */
  function Tariff(means: string, currency: string): Option<(real, real)> {
    if means in ["UPI", "DIRECT_DEBIT", "BANK_TRANSFER", "CHEQUE", "SEPA_CREDIT_TRANSFER"] then Some((0.0, 0.0))
    else if means == "CARD" || (means == "ANY" && currency == "USD") then Some((2.9, 0.3))
    else if means == "CREDIT_CARD" then Some((2.0, 0.0))
    else if means == "DEBIT_CARD" then Some((0.9, 0.0))
    else if means == "INTERNATIONAL_CARD" then Some((3.5, 0.0))
    else if means == "NET_BANKING" then Some((0.0, 15.0))
    else if means == "ANY" then Some((1.2, 0.0))
    else None
  }

  function Means(): seq<string> {
    ["CARD", "UPI", "DEBIT_CARD", "CREDIT_CARD", "NET_BANKING", "DIRECT_DEBIT", "BANK_TRANSFER", "CHEQUE", "SEPA_CREDIT_TRANSFER",
     "INTERNATIONAL_CARD", "ANY"]
  }

  lemma MeansDiffer()
    ensures |Means()| == 11
    ensures forall i, j | 0 <= i < j < 11 :: Means()[i] != Means()[j]
  {
    var all := Means();
    assert |all| == 11 && forall i | 0 <= i < 11 :: all[i] != "";
    var tags := seq(11, i requires 0 <= i < 11 => (|all[i]|, all[i][0]));
    assert tags[0] == (4, 'C') && tags[1] == (3, 'U') && tags[2] == (10, 'D') && tags[3] == (11, 'C') && tags[4] == (11, 'N') && tags[5] == (12, 'D');
    assert tags == [(4, 'C'), (3, 'U'), (10, 'D'), (11, 'C'), (11, 'N'), (12, 'D'), (13, 'B'), (6, 'C'), (20, 'S'), (18, 'I'), (3, 'A')];
  }

  lemma MeansOfDefaults()
    ensures |DefaultPolicies()| == 12
    ensures forall i | 1 <= i < 12 :: DefaultPolicies()[i].paymentMethod == Means()[i - 1]
    ensures DefaultPolicies()[0].paymentMethod == DefaultPolicies()[11].paymentMethod == "ANY"
    ensures DefaultPolicies()[0].currency == "USD" && DefaultPolicies()[11].currency == "ANY"
  {
  }

  lemma TariffOfDefaults(currency: string)
    ensures forall i | 1 <= i < |DefaultPolicies()| && (i == 11 ==> currency != "USD") ::
              Tariff(DefaultPolicies()[i].paymentMethod, currency) == Some((DefaultPolicies()[i].percentageRate, DefaultPolicies()[i].fixedCharge))
    ensures Tariff("ANY", "USD") == Some((DefaultPolicies()[0].percentageRate, DefaultPolicies()[0].fixedCharge))
  {
  }

  lemma TariffKnows(means: string, currency: string)
    ensures Tariff(means, currency).Some? ==> means in Means() && means != ""
  {
    var all := Means();
    assert all[0] == "CARD" && all[1] == "UPI" && all[2] == "DEBIT_CARD" && all[3] == "CREDIT_CARD" && all[4] == "NET_BANKING";
    assert all[5] == "DIRECT_DEBIT" && all[6] == "BANK_TRANSFER" && all[7] == "CHEQUE" && all[8] == "SEPA_CREDIT_TRANSFER";
    assert all[9] == "INTERNATIONAL_CARD" && all[10] == "ANY";
  }

  /** No default policy is for a processor; the latest for the method is the one chosen, and only ANY has two. */
  lemma ChosenDefault(i: int, c: Context)
    requires 0 <= i < |DefaultPolicies()| && DefaultPolicies()[i].paymentMethod == c.paymentMethod != ""
    requires i == 0 <==> c.paymentMethod == "ANY" && c.currency == "USD"
    ensures Chosen(DefaultPolicies(), i, c)
  {
    hide DefaultPolicies, Means;
    MeansDiffer();
    MeansOfDefaults();
    AnyProcessor();
    var ps := DefaultPolicies();
    forall j | 0 <= j < |ps|
      ensures !ForProcessor(ps[j], c) && !ForProcessorAndKind(ps[j], c)
    {
      assert ps[j] in ps;
    }
    forall j | i < j < |ps|
      ensures !ForMethodAndCurrency(ps[j], c) && (i != 0 ==> !ForMethod(ps[j], c))
    {
      assert j < 11 ==> Means()[j - 1] != Means()[10];
      if i != 0 { assert Means()[i - 1] != Means()[j - 1]; }
    }
  }

  /** A new registry charges by its tariff, and knows no fee exactly where the tariff has none. */
  lemma DefaultFees(book: Book, fallback: bool, c: Context)
    requires book.Valid() && book.Listed() == DefaultPolicies()
    ensures var p := PolicyFor(book, fallback, c);
            Tariff(c.paymentMethod, c.currency) == if p.Some? then Some((p.value.percentageRate, p.value.fixedCharge)) else None
  {
    hide DefaultPolicies, Tariff, PolicyFor, Chosen, Means, Book.Valid, Book.Listed;
    MeansDiffer();
    MeansOfDefaults();
    TariffOfDefaults(c.currency);
    PolicyByFields(book, fallback, c);
    var ps := DefaultPolicies();
    if Tariff(c.paymentMethod, c.currency).Some? {
      TariffKnows(c.paymentMethod, c.currency);
      var k :| 0 <= k < 11 && Means()[k] == c.paymentMethod;
      var i := if k == 10 && c.currency == "USD" then 0 else k + 1;
      assert k < 10 ==> Means()[k] != Means()[10];
      ChosenDefault(i, c);
      assert Applies(ps, fallback, c, ps[i]);
    } else if PolicyFor(book, fallback, c).Some? {
      var p := PolicyFor(book, fallback, c).value;
      assert Applies(ps, fallback, c, p);
      var i :| 0 <= i < |ps| && ps[i] == p && (Chosen(ps, i, c) || p.policyId == "DEFAULT_FALLBACK");
      NotByMethod(i, c);
    }
  }

  /** No default policy is chosen for anything but its method, and none is the fallback. */
  lemma NotByMethod(i: int, c: Context)
    requires 0 <= i < |DefaultPolicies()|
    ensures Chosen(DefaultPolicies(), i, c) ==> DefaultPolicies()[i].paymentMethod == c.paymentMethod
    ensures DefaultPolicies()[i].policyId != "DEFAULT_FALLBACK"
  {
    hide DefaultPolicies;
    AnyProcessor();
    NoFallback(i);
    var p := DefaultPolicies()[i];
    assert p in DefaultPolicies() && !ForProcessor(p, c);
  }

  lemma NoFallback(i: int)
    requires 0 <= i < |DefaultPolicies()|
    ensures DefaultPolicies()[i].policyId != "DEFAULT_FALLBACK"
  {
    var id := DefaultPolicies()[i].policyId;
    assert |id| == |"DEFAULT_FALLBACK"| ==> id[0] == 'S';
  }

  /** The terms of the policies that every registry knows by name. */
  function NamedTerms(id: string): Option<(real, real, string, string)> {
    if id == "STRIPE_STANDARD" then Some((2.9, 0.3, "ANY", "USD"))
    else if id == "CARD_STANDARD_2.9" then Some((2.9, 0.3, "CARD", "ANY"))
    else if id == "UPI_STANDARD" then Some((0.0, 0.0, "UPI", "ANY"))
    else if id == "DIRECT_DEBIT_ZERO" then Some((0.0, 0.0, "DIRECT_DEBIT", "ANY"))
    else if id == "BANK_TRANSFER_ZERO" then Some((0.0, 0.0, "BANK_TRANSFER", "ANY"))
    else if id == "CHEQUE_ZERO" then Some((0.0, 0.0, "CHEQUE", "ANY"))
    else if id == "SEPA_CREDIT_ZERO" then Some((0.0, 0.0, "SEPA_CREDIT_TRANSFER", "ANY"))
    else if id == "DEBIT_CARD_STANDARD" then Some((0.9, 0.0, "DEBIT_CARD", "INR"))
    else if id == "CREDIT_CARD_STANDARD" then Some((2.0, 0.0, "CREDIT_CARD", "INR"))
    else if id == "NET_BANKING_STANDARD" then Some((0.0, 15.0, "NET_BANKING", "INR"))
    else if id == "RULE_INTL_CARD_3.5" then Some((3.5, 0.0, "INTERNATIONAL_CARD", "ANY"))
    else if id == "RULE_HIGH_VOLUME_DISCOUNT" then Some((1.2, 0.0, "ANY", "ANY"))
    else None
  }

  function TermsOf(p: FeePolicy): (real, real, string, string) {
    (p.percentageRate, p.fixedCharge, p.paymentMethod, p.currency)
  }

  lemma TermsOfDefault(i: int)
    requires 0 <= i < |DefaultPolicies()|
    ensures var p := DefaultPolicies()[i]; NamedTerms(p.policyId) == Some(TermsOf(p)) && p.processor == "ANY"
  {
  }

  lemma NamesKnown(id: string)
    ensures NamedTerms(id).Some? ==> exists i :: 0 <= i < |DefaultPolicies()| && DefaultPolicies()[i].policyId == id
  {
    var ps := DefaultPolicies();
    assert ps[0].policyId == "STRIPE_STANDARD" && ps[1].policyId == "CARD_STANDARD_2.9" && ps[2].policyId == "UPI_STANDARD";
    assert ps[3].policyId == "DEBIT_CARD_STANDARD" && ps[4].policyId == "CREDIT_CARD_STANDARD" && ps[5].policyId == "NET_BANKING_STANDARD";
    assert ps[6].policyId == "DIRECT_DEBIT_ZERO" && ps[7].policyId == "BANK_TRANSFER_ZERO" && ps[8].policyId == "CHEQUE_ZERO";
    assert ps[9].policyId == "SEPA_CREDIT_ZERO" && ps[10].policyId == "RULE_INTL_CARD_3.5" && ps[11].policyId == "RULE_HIGH_VOLUME_DISCOUNT";
  }

  /** Which policy of a new registry an id names. */
  lemma NamedDefaults(book: Book, id: string)
    requires book.Valid() && book.Listed() == DefaultPolicies()
    ensures var p := book.Get(id);
            NamedTerms(id) == (if p.Some? then Some(TermsOf(p.value)) else None) && (p.Some? ==> p.value.processor == "ANY" && p.value.policyId == id)
  {
    hide DefaultPolicies, NamedTerms, Book.Get, Book.Listed, Book.Valid;
    NamesKnown(id);
    forall p {
      GetByFields(book, id, p);
    }
    forall i | 0 <= i < |DefaultPolicies()| {
      TermsOfDefault(i);
    }
  }

  // ---------- the rules ----------

  datatype Topology = Gateway | DirectAccounting | BankGl

  /** The engine's settings. The similarity of two descriptions is a parameter. */
  datatype Settings = Settings(amountTolerance: int, timingWindowDays: int, toleranceWindowDays: int, fuzzyThreshold: real,
                               timeWindowSeconds: int, enableFeeValidation: bool, topology: Topology, similarity: (string, string) -> real)

  /** The settings together with what the registry holds. */
  datatype Rules = Rules(settings: Settings, book: Book, fallback: bool)

  function Abs(x: int): nat {
    if x < 0 then -x else x
  }

  predicate IsAmountMatching(s: Settings, expected: int, actual: int) {
    Abs(expected - actual) <= s.amountTolerance
  }

  /** Currencies agree exactly when their codes differ at most in case and outer blanks. */
  predicate IsCurrencyMatching(a: string, b: string): (r: bool)
    ensures r <==> SameCode(a, b)
  {
    SameCodeExactly(a, b);
    Upper(Strip(a)) == Upper(Strip(b))
  }

  predicate IsWithinTimeWindow(s: Settings, a: int, b: int) {
    Abs(a - b) <= s.timeWindowSeconds
  }

  predicate ChecksFees(s: Settings) {
    s.enableFeeValidation && s.topology != BankGl
  }

  /** The fee to expect in cents; none if no policy is known. */
  function ExpectedFee(rules: Rules, amount: int, c: Context, policyId: string): Option<int>
    requires rules.book.Valid()
  {
    if !ChecksFees(rules.settings) then Some(0)
    else
      var policy := if policyId != "" then rules.book.Get(policyId) else PolicyFor(rules.book, rules.fallback, c);
      if policy.Some? then Some(CalculateFee(policy.value, amount as real / 100.0)) else None
  }

  /** The policy that sets the fee: the one with the given id, or else the one that applies. */
  ghost predicate Governs(rules: Rules, c: Context, policyId: string, p: FeePolicy)
    requires rules.book.Valid()
  {
    var ps := rules.book.Listed();
    if policyId != "" then p.policyId == policyId && exists i :: 0 <= i < |ps| && ps[i] == p
    else Applies(ps, rules.fallback, c, p)
  }

  /** The fee to expect for an amount, both in cents. */
  ghost predicate FeeIs(rules: Rules, amount: int, c: Context, policyId: string, fee: int)
    requires rules.book.Valid()
  {
    if rules.settings.enableFeeValidation && rules.settings.topology != BankGl then
      exists p :: Governs(rules, c, policyId, p) && IsFee(p, amount as real / 100.0, fee)
    else fee == 0
  }

  /** The expected fee is that of the policy that governs, to the nearest cent, and there is none exactly when no policy governs. */
  lemma ExpectedFeeByFields(rules: Rules, amount: int, c: Context, policyId: string, fee: int)
    requires rules.book.Valid()
    ensures ExpectedFee(rules, amount, c, policyId) == Some(fee) <==> FeeIs(rules, amount, c, policyId, fee)
  {
    hide PolicyFor, Applies, CalculateFee, IsFee, Book.Valid, Book.Get, Book.Listed;
    var policy := if policyId != "" then rules.book.Get(policyId) else PolicyFor(rules.book, rules.fallback, c);
    PolicyByFields(rules.book, rules.fallback, c);
    forall p
      ensures policy == Some(p) <==> Governs(rules, c, policyId, p)
    {
      GetByFields(rules.book, policyId, p);
    }
    if policy.Some? {
      FeeIsNearest(policy.value, amount as real / 100.0, fee);
      assert Governs(rules, c, policyId, policy.value);
    }
  }

  class ReconciliationRules {
    const settings: Settings
    const registry: FeePolicyRegistry

    constructor (settings: Settings, registry: FeePolicyRegistry)
      ensures this.settings == settings && this.registry == registry
    {
      this.settings := settings;
      this.registry := registry;
    }

    ghost function Value(): Rules
      reads registry
    {
      Rules(settings, registry.book, registry.allowGlobalFallback)
    }

    method ComputeExpectedFee(amount: int, c: Context, policyId: string) returns (r: Option<int>)
      requires registry.book.Valid()
      ensures r == ExpectedFee(Value(), amount, c, policyId)
      ensures forall fee :: r == Some(fee) <==> FeeIs(Value(), amount, c, policyId, fee)
    {
      hide CalculateFee, PolicyFor, FeeIs, Book.Valid;
      forall fee {
        ExpectedFeeByFields(Value(), amount, c, policyId, fee);
      }
      if !settings.enableFeeValidation || settings.topology == BankGl { return Some(0); }
      var policy;
      if policyId != "" {
        policy := registry.Get(policyId);
      } else {
        policy := registry.MatchPolicy(c);
      }
      if policy.None? { return None; }
      r := Some(CalculateFee(policy.value, amount as real / 100.0));
    }
  }
}
