/** What every run of billing operations keeps: each stored balance is the sum of its entries. */
module BillingLedger {
  import opened Billing
  import opened Money
  import opened Wrappers

  datatype Step =
    | DoWallet(tenant: string, debit: bool, amount: real, currency: string, reference: string)
    | DoInvoice(i: Id, tenant: string, terms: Terms, key: Option<string>)
    | DoPay(p: Id, tenant: string, provider: string, amount: real)
    | DoRefund(tenant: string, p: Id, amount: real)
    | DoCreditNote(tenant: string, i: Id, amount: real)

  /** Callers submit positive amounts; prices are not negative. */
  predicate Admissible(s: Step) {
    match s
    case DoWallet(_, _, amount, _, _) => amount > 0.0
    case DoInvoice(_, _, terms, _) => terms.price.base >= 0.0 && terms.price.overage >= 0.0
    case DoPay(_, _, _, amount) => amount > 0.0
    case DoRefund(_, _, amount) => amount > 0.0
    case DoCreditNote(_, _, amount) => amount > 0.0
  }

  function Attempt(l: Ledger, s: Step): Outcome {
    match s
    case DoWallet(tenant, debit, amount, currency, reference) => WalletTx(l, tenant, debit, amount, currency, reference)
    case DoInvoice(i, tenant, terms, key) => InvoiceCreate(l, i, tenant, terms, key)
    case DoPay(p, tenant, provider, amount) => Pay(l, p, tenant, provider, amount)
    case DoRefund(tenant, p, amount) => Refund(l, tenant, p, amount)
    case DoCreditNote(tenant, i, amount) => CreditNote(l, tenant, i, amount)
  }

  /** A refused step leaves the ledger alone. */
  function Do(l: Ledger, s: Step): Ledger {
    var outcome := Attempt(l, s);
    if outcome.Done? then outcome.ledger else l
  }

  function Run(l: Ledger, steps: seq<Step>): Ledger
    decreases |steps|
  {
    if steps == [] then l else Run(Do(l, steps[0]), steps[1..])
  }

  // ---------------------------------------------------------------------
  // The invariant
  // ---------------------------------------------------------------------

  predicate WalletOk(l: Ledger, tenant: string) {
    if tenant in l.wallets then
      && l.wallets[tenant].balance == Total(l.transactions, tenant) >= 0
      && l.wallets[tenant].version == Number(l.transactions, tenant)
    else Total(l.transactions, tenant) == 0 && Number(l.transactions, tenant) == 0
  }

  /** Credits stay within a total; under a total below zero there are none. */
  predicate InvoiceOk(l: Ledger, i: Id) {
    if i in l.invoices then
      var invoice := l.invoices[i];
      && invoice.subtotal == Total(l.lines, i) >= 0 && invoice.total == invoice.subtotal + invoice.tax
      && 0 <= invoice.credits == Total(l.notes, i)
      && (if invoice.total >= 0 then invoice.credits <= invoice.total else invoice.credits == 0)
      && (invoice.credited ==> invoice.credits == invoice.total)
    else Total(l.lines, i) == 0 && Total(l.notes, i) == 0
  }

  /** Sandbox refunds are confirmed at once, all others wait; a payment that rounds to nothing refunds nothing. */
  predicate PaymentOk(l: Ledger, p: Id) {
    if p in l.payments then
      var payment := l.payments[p];
      && 0 <= Total(l.refunds, p) <= payment.amount && 0 <= Total(l.pending, p)
      && (payment.provider == "SANDBOX" ==> Total(l.pending, p) == 0)
      && (payment.provider != "SANDBOX" ==> Total(l.refunds, p) == 0)
      && (payment.amount == 0 ==> Total(l.pending, p) == 0)
    else Total(l.refunds, p) == 0 && Total(l.pending, p) == 0
  }

  predicate RequestOk(l: Ledger, q: (string, string)) {
    q in l.requests ==> l.requests[q] in l.invoices && l.invoices[l.requests[q]].tenant == q.0
  }

  ghost predicate Inv(l: Ledger) {
    && (forall tenant :: WalletOk(l, tenant)) && (forall i :: InvoiceOk(l, i))
    && (forall p :: PaymentOk(l, p)) && (forall q :: RequestOk(l, q))
  }

  lemma Appended<K>(entries: seq<Entry<K>>, e: Entry<K>, owner: K)
    ensures Total(entries + [e], owner) == Total(entries, owner) + if e.owner == owner then e.amount else 0
    ensures Number(entries + [e], owner) == Number(entries, owner) + if e.owner == owner then 1 else 0
  {
    assert (entries + [e])[..|entries|] == entries;
  }

  lemma WalletStep(l: Ledger, s: Step)
    requires Inv(l) && Admissible(s) && s.DoWallet?
    ensures Inv(Do(l, s))
  {
    var v := Do(l, s);
    var signed := if s.debit then -Round(s.amount) else Round(s.amount);
    forall tenant ensures WalletOk(v, tenant) {
      assert WalletOk(l, tenant) && WalletOk(l, s.tenant);
      Appended(l.transactions, Entry(s.tenant, signed), tenant);
    }
    forall i ensures InvoiceOk(v, i) { assert InvoiceOk(l, i); }
    forall p ensures PaymentOk(v, p) { assert PaymentOk(l, p); }
    forall q ensures RequestOk(v, q) { assert RequestOk(l, q); }
  }

  lemma LinesAdd(lines: seq<Entry<Id>>, added: Id, price: Price, over: nat, i: Id)
    ensures Total(lines + Lines(added, price, over), i)
         == Total(lines, i) + if i == added then Round(price.base) + OverageAmount(price, over) else 0
  {
    var base, overage := Entry(added, Round(price.base)), Entry(added, OverageAmount(price, over));
    Appended(lines, base, i);
    if over > 0 {
      Appended(lines + [base], overage, i);
      assert lines + Lines(added, price, over) == lines + [base] + [overage];
    } else {
      assert lines + Lines(added, price, over) == lines + [base];
      assert over as real * price.overage == 0.0;
      WithinHalfACent(0.0);
    }
  }

  lemma InvoiceStep(l: Ledger, s: Step)
    requires Inv(l) && Admissible(s) && s.DoInvoice?
    ensures Inv(Do(l, s))
  {
    var v := Do(l, s);
    SubtotalIsNonnegative(s.terms);
    forall t ensures WalletOk(v, t) { assert WalletOk(l, t); }
    forall i ensures InvoiceOk(v, i) {
      assert InvoiceOk(l, i);
      LinesAdd(l.lines, s.i, s.terms.price, Overage(s.terms), i);
    }
    forall p ensures PaymentOk(v, p) { assert PaymentOk(l, p); }
    forall q ensures RequestOk(v, q) { assert RequestOk(l, q); }
  }

  lemma SubtotalIsNonnegative(terms: Terms)
    requires terms.price.base >= 0.0 && terms.price.overage >= 0.0
    ensures Subtotal(terms) >= 0
  {
    WithinHalfACent(terms.price.base);
    NotNegative(Overage(terms), terms.price.overage);
    WithinHalfACent(Overage(terms) as real * terms.price.overage);
  }

  lemma NotNegative(n: nat, x: real)
    requires x >= 0.0
    ensures n as real * x >= 0.0
  {
  }

  lemma PayStep(l: Ledger, s: Step)
    requires Inv(l) && Admissible(s) && s.DoPay?
    ensures Inv(Do(l, s))
  {
    var v := Do(l, s);
    WithinHalfACent(s.amount);
    forall tenant ensures WalletOk(v, tenant) { assert WalletOk(l, tenant); }
    forall i ensures InvoiceOk(v, i) { assert InvoiceOk(l, i); }
    forall p ensures PaymentOk(v, p) { assert PaymentOk(l, p); }
    forall q ensures RequestOk(v, q) { assert RequestOk(l, q); }
  }

  /** A refund that what is left of the payment covers: confirmed for the sandbox, pending otherwise. */
  lemma RefundAdded(l: Ledger, v: Ledger, refunded: Id, cents: int)
    requires Inv(l) && refunded in l.payments && 0 <= cents && Total(l.refunds, refunded) + cents <= l.payments[refunded].amount
    requires v == if l.payments[refunded].provider == "SANDBOX" then l.(refunds := l.refunds + [Entry(refunded, cents)])
                  else l.(pending := l.pending + [Entry(refunded, cents)])
    ensures Inv(v)
  {
    forall tenant ensures WalletOk(v, tenant) { assert WalletOk(l, tenant); }
    forall i ensures InvoiceOk(v, i) { assert InvoiceOk(l, i); }
    forall q ensures RequestOk(v, q) { assert RequestOk(l, q); }
    forall p ensures PaymentOk(v, p) {
      assert PaymentOk(l, p);
      Appended(l.refunds, Entry(refunded, cents), p);
      Appended(l.pending, Entry(refunded, cents), p);
    }
  }

  lemma RefundStep(l: Ledger, s: Step)
    requires Inv(l) && Admissible(s) && s.DoRefund?
    ensures Inv(Do(l, s))
  {
    WithinHalfACent(s.amount);
    if Attempt(l, s).Done? {
      RefundAdded(l, Do(l, s), s.p, Round(s.amount));
    }
  }

  lemma CreditStep(l: Ledger, s: Step)
    requires Inv(l) && Admissible(s) && s.DoCreditNote?
    ensures Inv(Do(l, s))
  {
    var v := Do(l, s);
    WithinHalfACent(s.amount);
    forall tenant ensures WalletOk(v, tenant) { assert WalletOk(l, tenant); }
    forall i ensures InvoiceOk(v, i) {
      assert InvoiceOk(l, i);
      Appended(l.notes, Entry(s.i, Round(s.amount)), i);
    }
    forall p ensures PaymentOk(v, p) { assert PaymentOk(l, p); }
    forall q ensures RequestOk(v, q) { assert RequestOk(l, q); }
  }

  /**
   Over any run of operations: a wallet's balance is the sum of its signed
   transactions, never negative, and its version their number; an invoice's total
   is its lines plus tax, and its credits the sum of its credit notes, within a
   total that is not negative; confirmed refunds stay within the payment.
   */
  lemma {:induction false} LedgerBalances(l: Ledger, steps: seq<Step>)
    requires Inv(l) && forall s :: s in steps ==> Admissible(s)
    ensures Inv(Run(l, steps))
    decreases |steps|
  {
    if steps != [] {
      var s := steps[0];
      assert s in steps && forall t :: t in steps[1..] ==> t in steps;
      match s {
        case DoWallet(_, _, _, _, _) => WalletStep(l, s);
        case DoInvoice(_, _, _, _) => InvoiceStep(l, s);
        case DoPay(_, _, _, _) => PayStep(l, s);
        case DoRefund(_, _, _) => RefundStep(l, s);
        case DoCreditNote(_, _, _) => CreditStep(l, s);
      }
      LedgerBalances(Do(l, s), steps[1..]);
    }
  }

  ghost predicate AllAdmissible(steps: seq<Step>) {
    forall s :: s in steps ==> Admissible(s)
  }

  /** The same of every ledger reached from the empty books. */
  lemma ReachableBalances(steps: seq<Step>)
    requires AllAdmissible(steps)
    ensures Inv(Run(Empty, steps))
  {
    assert Inv(Empty);
    LedgerBalances(Empty, steps);
  }

  /** A repeated wallet reference has no further effect, whatever it asks for. */
  lemma WalletReferenceCountsOnce(l: Ledger, tenant: string, debit: bool, amount: real, currency: string, reference: string,
                                  debit2: bool, amount2: real, currency2: string)
    requires WalletTx(l, tenant, debit, amount, currency, reference).Done?
    ensures var once := WalletTx(l, tenant, debit, amount, currency, reference).ledger;
            WalletTx(once, tenant, debit2, amount2, currency2, reference) == Done(once)
  {
  }

  /** A repeated request key makes no second invoice, whatever the terms have become. */
  lemma RequestKeyCountsOnce(l: Ledger, i: Id, tenant: string, terms: Terms, key: string, j: Id, terms2: Terms)
    requires InvoiceCreate(l, i, tenant, terms, Some(key)).Done?
    ensures var once := InvoiceCreate(l, i, tenant, terms, Some(key)).ledger;
            InvoiceCreate(once, j, tenant, terms2, Some(key)) == Done(once)
  {
  }

  // ---------------------------------------------------------------------
  // Credits and a tax below zero
  // ---------------------------------------------------------------------

  predicate CreditsWithin(l: Ledger, i: Id) {
    i in l.invoices && l.invoices[i].credits <= l.invoices[i].total
  }

  ghost predicate CreditsAlwaysWithin(l: Ledger, i: Id) {
    forall steps :: AllAdmissible(steps) ==> CreditsWithin(Run(l, steps), i)
  }

  /** The rate leaves a total: it takes less than half a cent more than the subtotal. */
  predicate TaxLeavesTotal(terms: Terms) {
    terms.rate.None? || Amount(Subtotal(terms)) * terms.rate.value * 100.0 > -(Subtotal(terms) as real) - 0.5
  }

  lemma {:induction false} InvoiceStays(l: Ledger, steps: seq<Step>, i: Id)
    requires i in l.invoices
    ensures i in Run(l, steps).invoices && Run(l, steps).invoices[i].total == l.invoices[i].total
    decreases |steps|
  {
    if steps != [] {
      InvoiceStays(Do(l, steps[0]), steps[1..], i);
    }
  }

  /**
   From any reachable books: the credits of a new invoice stay within its total
   in every continuation if and only if its tax leaves a total. Nothing the
   program does keeps a tax rule from having a negative rate.
   */
  lemma CreditsWithinIff(before: seq<Step>, i: Id, tenant: string, terms: Terms, key: Option<string>)
    requires AllAdmissible(before) && Admissible(DoInvoice(i, tenant, terms, key))
    requires i !in Run(Empty, before).invoices && !Requested(Run(Empty, before), tenant, key)
    ensures CreditsAlwaysWithin(Do(Run(Empty, before), DoInvoice(i, tenant, terms, key)), i) <==> TaxLeavesTotal(terms)
  {
    var l := Run(Empty, before);
    var v := Do(l, DoInvoice(i, tenant, terms, key));
    ReachableBalances(before);
    InvoiceStep(l, DoInvoice(i, tenant, terms, key));
    SubtotalIsNonnegative(terms);
    if terms.rate.Some? {
      RoundAtLeast(Amount(Subtotal(terms)) * terms.rate.value, -Subtotal(terms));
    }
    assert v.invoices[i].total >= 0 <==> TaxLeavesTotal(terms);
    if TaxLeavesTotal(terms) {
      forall steps | AllAdmissible(steps) ensures CreditsWithin(Run(v, steps), i) {
        LedgerBalances(v, steps);
        InvoiceStays(v, steps, i);
        assert InvoiceOk(Run(v, steps), i);
      }
    } else {
      assert AllAdmissible([]) && Run(v, []) == v && !CreditsWithin(v, i);
    }
  }

  /** A tax that is not negative always leaves a total. */
  lemma OrdinaryTaxLeavesTotal(terms: Terms)
    requires terms.price.base >= 0.0 && terms.price.overage >= 0.0 && (terms.rate.Some? ==> terms.rate.value >= 0.0)
    ensures TaxLeavesTotal(terms)
  {
    SubtotalIsNonnegative(terms);
    if terms.rate.Some? {
      TimesNotNegative(Amount(Subtotal(terms)), terms.rate.value);
    }
  }

  lemma TimesNotNegative(x: real, y: real)
    requires x >= 0.0 && y >= 0.0
    ensures x * y >= 0.0
  {
  }

  /** A rate of minus two hundred per cent on a hundred leaves credits above the total. */
  lemma NegativeTaxBreaksCredits()
    ensures var terms := Terms(Price(100.0, 0, 0.0), [], 0, 1, Some(-2.0));
            !CreditsWithin(Run(Empty, [DoInvoice(1, "t", terms, None)]), 1)
  {
    var terms := Terms(Price(100.0, 0, 0.0), [], 0, 1, Some(-2.0));
    var step := DoInvoice(1, "t", terms, None);
    assert Run(Empty, [step]) == Run(Do(Empty, step), []) == Do(Empty, step) by { assert [step][1..] == []; }
    assert Subtotal(terms) == 10000;
    assert Amount(10000) * -2.0 == -200.0;
  }

  // ---------------------------------------------------------------------
  // Refunds of one payment, taken together
  // ---------------------------------------------------------------------

  predicate RefundsWithin(l: Ledger, p: Id) {
    p in l.payments && Total(l.refunds, p) + Total(l.pending, p) <= l.payments[p].amount
  }

  ghost predicate RefundsAlwaysWithin(l: Ledger, p: Id) {
    forall steps :: AllAdmissible(steps) ==> RefundsWithin(Run(l, steps), p)
  }

  lemma {:induction false} PaymentStays(l: Ledger, steps: seq<Step>, p: Id)
    requires p in l.payments
    ensures p in Run(l, steps).payments && Run(l, steps).payments[p] == l.payments[p]
    decreases |steps|
  {
    if steps != [] {
      PaymentStays(Do(l, steps[0]), steps[1..], p);
    }
  }

  /**
   From any reachable books: the refunds granted on a payment, confirmed and
   waiting together, stay within it in every continuation if and only if the
   payment was made in the sandbox, or rounds to nothing.
   */
  lemma RefundsWithinIff(before: seq<Step>, p: Id)
    requires AllAdmissible(before) && p in Run(Empty, before).payments
    ensures var l := Run(Empty, before);
            RefundsAlwaysWithin(l, p) <==> l.payments[p].provider == "SANDBOX" || l.payments[p].amount == 0
  {
    var l := Run(Empty, before);
    ReachableBalances(before);
    assert PaymentOk(l, p);
    if l.payments[p].provider == "SANDBOX" || l.payments[p].amount == 0 {
      forall steps | AllAdmissible(steps) ensures RefundsWithin(Run(l, steps), p) {
        LedgerBalances(l, steps);
        PaymentStays(l, steps, p);
        assert PaymentOk(Run(l, steps), p);
      }
    } else {
      RefundedTwice(l, p);
    }
  }

  /** The whole of a payment that is not a sandbox one may be refunded twice. */
  lemma RefundedTwice(l: Ledger, p: Id)
    requires Inv(l) && p in l.payments && l.payments[p].provider != "SANDBOX" && l.payments[p].amount > 0
    ensures var step := DoRefund(l.payments[p].tenant, p, Amount(l.payments[p].amount));
            AllAdmissible([step, step]) && !RefundsWithin(Run(l, [step, step]), p)
  {
    assert PaymentOk(l, p);
    var cents := l.payments[p].amount;
    var step := DoRefund(l.payments[p].tenant, p, Amount(cents));
    RoundIsIdempotent(cents);
    var once := l.(pending := l.pending + [Entry(p, cents)]);
    var twice := once.(pending := once.pending + [Entry(p, cents)]);
    assert Do(l, step) == once && Do(once, step) == twice;
    Appended(l.pending, Entry(p, cents), p);
    Appended(once.pending, Entry(p, cents), p);
    assert [step, step][1..] == [step] && [step][1..] == [];
    assert Run(once, [step]) == Run(twice, []) == twice;
    assert Run(l, [step, step]) == Run(once, [step]);
  }

  /** Ten paid offline, ten refunded, and ten refunded again. */
  lemma TwentyRefundedOfTen()
    ensures var pay, refund := DoPay(1, "t", "MANUAL_OFFLINE", 10.0), DoRefund("t", 1, 10.0);
            var l := Run(Empty, [pay, refund, refund]);
            1 in l.payments && l.payments[1].amount == 1000 && Total(l.refunds, 1) + Total(l.pending, 1) == 2000
  {
    var pay, refund := DoPay(1, "t", "MANUAL_OFFLINE", 10.0), DoRefund("t", 1, 10.0);
    assert Round(10.0) == 1000;
    var paid := Empty.(payments := map[1 := Payment("t", "MANUAL_OFFLINE", 1000)]);
    var once := paid.(pending := [Entry(1, 1000)]);
    var twice := paid.(pending := [Entry(1, 1000), Entry(1, 1000)]);
    assert Do(Empty, pay) == paid;
    assert Do(paid, refund) == once;
    assert once.pending + [Entry(1, 1000)] == twice.pending;
    assert Do(once, refund) == twice;
    assert [pay, refund, refund][1..] == [refund, refund] && [refund, refund][1..] == [refund] && [refund][1..] == [];
    assert Run(once, [refund]) == Run(twice, []) == twice;
    assert Run(paid, [refund, refund]) == twice;
    assert twice.pending[..1] == [Entry(1, 1000)] && twice.pending[..1][..0] == [];
  }

  // ---------------------------------------------------------------------
  // Proration
  // ---------------------------------------------------------------------

  lemma RatioIsFraction(start: real, end: real, now: real)
    requires start <= now
    ensures 0.0 <= Ratio(start, end, now) <= 1.0
  {
    var total := if end - start >= 1.0 then end - start else 1.0;
    var remaining := if end - now >= 0.0 then end - now else 0.0;
    assert remaining <= total;
    Fraction(remaining, total);
  }

  lemma Fraction(a: real, b: real)
    requires 0.0 <= a <= b && b > 0.0
    ensures 0.0 <= a / b <= 1.0
  {
    assert a / b * b == a;
    assert a / b <= 1.0 <==> a / b * b <= 1.0 * b;
  }

  lemma Scaled(x: real, ratio: real)
    requires 0.0 <= ratio <= 1.0 && 0.0 <= x
    ensures 0.0 <= Prorated(x, ratio) <= x
  {
    assert x * ratio <= x * 1.0;
  }

  /** An upgrade takes effect at once and charges between nothing and the rounded price difference. */
  lemma UpgradeChargeIsBounded(before: real, after: real, start: real, end: real, now: real)
    requires start <= now && before <= after
    ensures var change := ChangePlan(before, after, start, end, now);
            change.Immediate? && 0 <= change.charge <= Round(after - before)
  {
    var difference, ratio := after - before, Ratio(start, end, now);
    RatioIsFraction(start, end, now);
    Scaled(difference, ratio);
    RoundIsMonotone(0.0, Prorated(difference, ratio));
    RoundIsMonotone(Prorated(difference, ratio), difference);
    WithinHalfACent(0.0);
  }

  /**
   A change of plan waits for the next period exactly when the prorated difference
   is at least half a cent in the customer's favour: late in the period a cheaper
   plan takes effect at once, for nothing.
   */
  lemma DowngradeWaitsIff(before: real, after: real, start: real, end: real, now: real)
    ensures var delta := Prorated(after - before, Ratio(start, end, now));
            && (ChangePlan(before, after, start, end, now).NextPeriod? <==> delta <= -0.005)
            && (-0.005 < delta < 0.005 ==> ChangePlan(before, after, start, end, now) == Immediate(0))
  {
    var delta := Prorated(after - before, Ratio(start, end, now));
    NegativeIff(delta);
    WithinHalfACent(delta);
  }

  /** A plan at half the price, twelve minutes before the end of thirty days, takes effect at once. */
  lemma LateDowngradeIsImmediate()
    ensures ChangePlan(20.0, 10.0, 0.0, 2592000.0, 2591280.0) == Immediate(0)
  {
    assert Ratio(0.0, 2592000.0, 2591280.0) == 1.0 / 3600.0;
    assert Prorated(-10.0, 1.0 / 3600.0) == -1.0 / 360.0;
    DowngradeWaitsIff(20.0, 10.0, 0.0, 2592000.0, 2591280.0);
  }
}
