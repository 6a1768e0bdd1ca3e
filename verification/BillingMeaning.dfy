/** When each billing operation goes through, in terms of the entries booked so far, and what it books. */
module BillingMeaning {
  import opened Billing
  import opened BillingLedger
  import opened Money
  import opened Wrappers

  // ---------------------------------------------------------------------
  // Wallets
  // ---------------------------------------------------------------------

  function Signed(debit: bool, cents: int): int {
    if debit then -cents else cents
  }

  /**
   A new transaction is posted exactly when it keeps to the wallet's currency and
   the transactions before it cover it; then it adds its amount, and no other
   tenant's sum changes.
   */
  lemma PostedIff(l: Ledger, tenant: string, debit: bool, amount: real, currency: string, reference: string, other: string)
    requires Inv(l) && (tenant, reference) !in l.references
    ensures var outcome := WalletTx(l, tenant, debit, amount, currency, reference);
            && (outcome.Done? <==>
                  && (tenant in l.wallets ==> l.wallets[tenant].currency == currency)
                  && Total(l.transactions, tenant) + Signed(debit, Round(amount)) >= 0)
            && (outcome.Done? ==>
                  && Total(outcome.ledger.transactions, tenant) == Total(l.transactions, tenant) + Signed(debit, Round(amount))
                  && tenant in outcome.ledger.wallets && outcome.ledger.wallets[tenant].currency == currency
                  && (other != tenant ==> Total(outcome.ledger.transactions, other) == Total(l.transactions, other))
                  && outcome.ledger.references == l.references + {(tenant, reference)})
  {
    assert WalletOk(l, tenant);
    Appended(l.transactions, Entry(tenant, Signed(debit, Round(amount))), tenant);
    Appended(l.transactions, Entry(tenant, Signed(debit, Round(amount))), other);
  }

  /** A wallet keeps the currency of its first transaction over every run. */
  lemma {:induction false} CurrencyIsKept(l: Ledger, steps: seq<Step>, tenant: string)
    requires tenant in l.wallets
    ensures tenant in Run(l, steps).wallets && Run(l, steps).wallets[tenant].currency == l.wallets[tenant].currency
    decreases |steps|
  {
    if steps != [] {
      CurrencyIsKept(Do(l, steps[0]), steps[1..], tenant);
    }
  }

  // ---------------------------------------------------------------------
  // Refunds and credit notes
  // ---------------------------------------------------------------------

  /** A refund is granted exactly on the tenant's own payment and within what confirmed refunds leave; it is confirmed at once only in the sandbox. */
  lemma RefundedIff(l: Ledger, tenant: string, p: Id, amount: real)
    ensures var outcome := Refund(l, tenant, p, amount);
            && (outcome.Done? <==>
                  p in l.payments && l.payments[p].tenant == tenant && Round(amount) <= l.payments[p].amount - Total(l.refunds, p))
            && (outcome.Done? ==>
                  && Total(outcome.ledger.refunds, p) == Total(l.refunds, p) + (if l.payments[p].provider == "SANDBOX" then Round(amount) else 0)
                  && Total(outcome.ledger.pending, p) == Total(l.pending, p) + (if l.payments[p].provider == "SANDBOX" then 0 else Round(amount))
                  && outcome.ledger.payments == l.payments)
  {
    Appended(l.refunds, Entry(p, Round(amount)), p);
    Appended(l.pending, Entry(p, Round(amount)), p);
  }

  /** A credit note is issued exactly on the tenant's own invoice and within what earlier notes leave of its total; the one that takes the rest marks it credited. */
  lemma CreditedIff(l: Ledger, tenant: string, i: Id, amount: real)
    requires Inv(l) && amount > 0.0
    ensures var outcome := CreditNote(l, tenant, i, amount);
            && (outcome.Done? <==>
                  i in l.invoices && l.invoices[i].tenant == tenant && Total(l.notes, i) + Round(amount) <= l.invoices[i].total)
            && (outcome.Done? ==>
                  && Total(outcome.ledger.notes, i) == Total(l.notes, i) + Round(amount)
                  && i in outcome.ledger.invoices
                  && (outcome.ledger.invoices[i].credited <==> Total(outcome.ledger.notes, i) == l.invoices[i].total))
  {
    assert InvoiceOk(l, i);
    WithinHalfACent(amount);
    Appended(l.notes, Entry(i, Round(amount)), i);
  }

  // ---------------------------------------------------------------------
  // Invoices
  // ---------------------------------------------------------------------

  /** Periods that follow one another bill every unit exactly once. */
  lemma {:induction false} EveryUnitIsBilledOnce(usage: seq<Metered>, a: int, b: int, c: int)
    requires a <= b <= c
    ensures UsedIn(usage, a, c) == UsedIn(usage, a, b) + UsedIn(usage, b, c)
  {
    if usage != [] {
      EveryUnitIsBilledOnce(usage[..|usage| - 1], a, b, c);
    }
  }

  function AllMetered(usage: seq<Metered>): nat {
    if usage == [] then 0 else AllMetered(usage[..|usage| - 1]) + usage[|usage| - 1].quantity
  }

  /** Usage of the period counts whole, the first instant included and the last not; other usage not at all. */
  lemma {:induction false} UsageOfThePeriod(usage: seq<Metered>, start: int, end: int)
    ensures (forall k :: 0 <= k < |usage| ==> start <= usage[k].at < end) ==> UsedIn(usage, start, end) == AllMetered(usage)
    ensures (forall k :: 0 <= k < |usage| ==> usage[k].at < start || usage[k].at >= end) ==> UsedIn(usage, start, end) == 0
  {
    if usage != [] {
      UsageOfThePeriod(usage[..|usage| - 1], start, end);
    }
  }

  lemma NothingOver(price: Price)
    ensures OverageAmount(price, 0) == 0
  {
    var none := 0 as real;
    assert none == 0.0 && none * price.overage == 0.0;
    assert Round(0.0) == 0;
  }

  /** What the usage beyond the included amount costs. */
  function ForOverage(price: Price, used: nat): int {
    if used > price.included then Round((used - price.included) as real * price.overage) else 0
  }

  lemma SubtotalIs(terms: Terms)
    ensures Subtotal(terms) == Round(terms.price.base) + ForOverage(terms.price, UsedIn(terms.usage, terms.start, terms.end))
  {
    NothingOver(terms.price);
  }

  lemma LinesAre(lines: seq<Entry<Id>>, i: Id, terms: Terms)
    ensures var over := Overage(terms);
            var after := lines + Lines(i, terms.price, over);
            && Total(after, i) == Total(lines, i) + Subtotal(terms)
            && |after| == |lines| + (if over > 0 then 2 else 1)
  {
    var over := Overage(terms);
    var base, more := Entry(i, Round(terms.price.base)), Entry(i, OverageAmount(terms.price, over));
    Appended(lines, base, i);
    if over > 0 {
      Appended(lines + [base], more, i);
      assert lines + Lines(i, terms.price, over) == lines + [base] + [more];
    } else {
      SubtotalIs(terms);
      assert Lines(i, terms.price, over) == [base];
    }
  }

  /** The row of an invoice: the base price, the usage beyond what is included at its price, each rounded, and the tax on their sum. */
  lemma DrawnIs(tenant: string, terms: Terms)
    ensures var invoice := Drawn(tenant, terms);
            && invoice.tenant == tenant && invoice.credits == 0 && !invoice.credited
            && invoice.subtotal == Round(terms.price.base) + ForOverage(terms.price, UsedIn(terms.usage, terms.start, terms.end))
            && invoice.total == invoice.subtotal + invoice.tax && invoice.tax == TaxOn(invoice.subtotal, terms.rate)
  {
    SubtotalIs(terms);
  }

  /** An invoice under a new id and key is always drawn up, and its lines make up its subtotal: one for the base, one more where usage is beyond what is included. */
  lemma InvoiceIsDrawn(l: Ledger, i: Id, tenant: string, terms: Terms, key: Option<string>)
    requires Inv(l) && i !in l.invoices && (key.Some? ==> (tenant, key.value) !in l.requests)
    ensures var outcome := InvoiceCreate(l, i, tenant, terms, key);
            && outcome.Done? && outcome.ledger.invoices == l.invoices[i := Drawn(tenant, terms)]
            && Total(outcome.ledger.lines, i) == Drawn(tenant, terms).subtotal
            && |outcome.ledger.lines| == |l.lines| + if UsedIn(terms.usage, terms.start, terms.end) > terms.price.included then 2 else 1
  {
    assert InvoiceOk(l, i);
    LinesAre(l.lines, i, terms);
  }

  /** Without a rule there is no tax, and with one it is within half a cent of the rate. */
  lemma TaxIsRounded(subtotal: int, rate: real)
    ensures TaxOn(subtotal, None) == 0
    ensures -0.5 <= TaxOn(subtotal, Some(rate)) as real - subtotal as real * rate <= 0.5
  {
    var x := Amount(subtotal) * rate;
    WithinHalfACent(x);
    assert x * 100.0 == subtotal as real * rate;
  }

  /** Over every run a payment keeps what was paid, rounded to cents. */
  lemma PaymentIsKept(l: Ledger, p: Id, tenant: string, provider: string, amount: real, steps: seq<Step>)
    requires p !in l.payments
    ensures var after := Run(Do(l, DoPay(p, tenant, provider, amount)), steps);
            p in after.payments && after.payments[p] == Payment(tenant, provider, Round(amount))
  {
    PaymentStays(Do(l, DoPay(p, tenant, provider, amount)), steps, p);
  }
}
