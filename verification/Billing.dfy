/**
 The billing ledger: wallets and their transactions, invoices with their lines
 and credit notes, payments and their refunds. Stored amounts are in cents;
 what a caller submits is exact and is rounded on the way in.
 */
module Billing {
  import opened Money
  import opened Wrappers

  type Id = nat

  datatype Entry<K> = Entry(owner: K, amount: int)

  datatype Wallet = Wallet(currency: string, balance: int, version: nat)

  datatype Invoice = Invoice(tenant: string, subtotal: int, tax: int, total: int, credits: int, credited: bool)

  datatype Payment = Payment(tenant: string, provider: string, amount: int)

  datatype Price = Price(base: real, included: nat, overage: real)

  datatype Metered = Metered(at: int, quantity: nat)

  /** What an invoice is drawn up from: the price, the metered usage, the period and the tax rule that taxes, if any. */
  datatype Terms = Terms(price: Price, usage: seq<Metered>, start: int, end: int, rate: Option<real>)

  datatype Ledger = Ledger(
    wallets: map<string, Wallet>, transactions: seq<Entry<string>>, references: set<(string, string)>,
    invoices: map<Id, Invoice>, requests: map<(string, string), Id>, lines: seq<Entry<Id>>, notes: seq<Entry<Id>>,
    payments: map<Id, Payment>, refunds: seq<Entry<Id>>, pending: seq<Entry<Id>>)

  const Empty := Ledger(map[], [], {}, map[], map[], [], [], map[], [], [])

  function Total<K(==)>(entries: seq<Entry<K>>, owner: K): int {
    if entries == [] then 0
    else Total(entries[..|entries| - 1], owner)
         + if entries[|entries| - 1].owner == owner then entries[|entries| - 1].amount else 0
  }

  function Number<K(==)>(entries: seq<Entry<K>>, owner: K): nat {
    if entries == [] then 0
    else Number(entries[..|entries| - 1], owner) + if entries[|entries| - 1].owner == owner then 1 else 0
  }

  // ---------------------------------------------------------------------
  // The operations
  // ---------------------------------------------------------------------

  datatype Outcome = Done(ledger: Ledger) | Refused(status: int)

  function WalletOf(l: Ledger, tenant: string, currency: string): Wallet {
    if tenant in l.wallets then l.wallets[tenant] else Wallet(currency, 0, 0)
  }

  /** A repeated reference is answered without effect. */
  function WalletTx(l: Ledger, tenant: string, debit: bool, amount: real, currency: string, reference: string): Outcome {
    if (tenant, reference) in l.references then Done(l)
    else
      var wallet := WalletOf(l, tenant, currency);
      var signed := if debit then -Round(amount) else Round(amount);
      if wallet.currency != currency || wallet.balance + signed < 0 then Refused(409)
      else Done(l.(wallets := l.wallets[tenant := wallet.(balance := wallet.balance + signed, version := wallet.version + 1)],
                   transactions := l.transactions + [Entry(tenant, signed)],
                   references := l.references + {(tenant, reference)}))
  }

  /** The usage from the start of the period to before its end. */
  function UsedIn(usage: seq<Metered>, start: int, end: int): nat {
    if usage == [] then 0
    else UsedIn(usage[..|usage| - 1], start, end)
         + if start <= usage[|usage| - 1].at < end then usage[|usage| - 1].quantity else 0
  }

  function Overage(terms: Terms): nat {
    var quantity := UsedIn(terms.usage, terms.start, terms.end);
    if quantity > terms.price.included then quantity - terms.price.included else 0
  }

  function OverageAmount(price: Price, over: nat): int {
    Round(over as real * price.overage)
  }

  /** `rate`: the tax rule in force, if there is one that taxes. */
  function TaxOn(subtotal: int, rate: Option<real>): int {
    if rate.Some? then Round(Amount(subtotal) * rate.value) else 0
  }

  function Lines(i: Id, price: Price, over: nat): seq<Entry<Id>> {
    [Entry(i, Round(price.base))] + if over > 0 then [Entry(i, OverageAmount(price, over))] else []
  }

  function Subtotal(terms: Terms): int {
    Round(terms.price.base) + OverageAmount(terms.price, Overage(terms))
  }

  function Drawn(tenant: string, terms: Terms): Invoice {
    var tax := TaxOn(Subtotal(terms), terms.rate);
    Invoice(tenant, Subtotal(terms), tax, Subtotal(terms) + tax, 0, false)
  }

  /** The request key under which a tenant asked before. */
  predicate Requested(l: Ledger, tenant: string, key: Option<string>) {
    key.Some? && (tenant, key.value) in l.requests
  }

  /** A repeated request key is answered with the invoice it made. */
  function InvoiceCreate(l: Ledger, i: Id, tenant: string, terms: Terms, key: Option<string>): Outcome {
    if Requested(l, tenant, key) then Done(l)
    else if i in l.invoices then Refused(409)
    else
      Done(l.(invoices := l.invoices[i := Drawn(tenant, terms)],
              requests := if key.Some? then l.requests[(tenant, key.value) := i] else l.requests,
              lines := l.lines + Lines(i, terms.price, Overage(terms))))
  }

  function Pay(l: Ledger, p: Id, tenant: string, provider: string, amount: real): Outcome {
    if p in l.payments then Refused(409)
    else Done(l.(payments := l.payments[p := Payment(tenant, provider, Round(amount))]))
  }

  function Refund(l: Ledger, tenant: string, p: Id, amount: real): Outcome {
    if p !in l.payments || l.payments[p].tenant != tenant then Refused(404)
    else if Total(l.refunds, p) + Round(amount) > l.payments[p].amount then Refused(409)
    else if l.payments[p].provider == "SANDBOX" then Done(l.(refunds := l.refunds + [Entry(p, Round(amount))]))
    else Done(l.(pending := l.pending + [Entry(p, Round(amount))]))
  }

  function CreditNote(l: Ledger, tenant: string, i: Id, amount: real): Outcome {
    if i !in l.invoices || l.invoices[i].tenant != tenant then Refused(404)
    else
      var invoice := l.invoices[i];
      if Round(amount) > invoice.total - invoice.credits then Refused(409)
      else
        var credits := invoice.credits + Round(amount);
        Done(l.(invoices := l.invoices[i := invoice.(credits := credits, credited := invoice.credited || credits >= invoice.total)],
                notes := l.notes + [Entry(i, Round(amount))]))
  }

  // ---------------------------------------------------------------------
  // Changing plan
  // ---------------------------------------------------------------------

  datatype Change = Immediate(charge: int) | NextPeriod

  /** The part of the period that remains. */
  function Ratio(start: real, end: real, now: real): real {
    var total := if end - start >= 1.0 then end - start else 1.0;
    var remaining := if end - now >= 0.0 then end - now else 0.0;
    remaining / total
  }

  function Prorated(difference: real, ratio: real): real {
    difference * ratio
  }

  function ChangePlan(before: real, after: real, start: real, end: real, now: real): Change {
    var delta := Round(Prorated(after - before, Ratio(start, end, now)));
    if delta < 0 then NextPeriod else Immediate(delta)
  }

  // ---------------------------------------------------------------------
  // The ledger, updated in place
  // ---------------------------------------------------------------------

  class Books {
    var ledger: Ledger

    constructor ()
      ensures ledger == Empty
    {
      ledger := Empty;
    }

    method PostWallet(tenant: string, debit: bool, amount: real, currency: string, reference: string) returns (ok: bool)
      modifies this
      ensures var outcome := WalletTx(old(ledger), tenant, debit, amount, currency, reference);
              ok == outcome.Done? && ledger == if ok then outcome.ledger else old(ledger)
    {
      if (tenant, reference) in ledger.references {
        return true;
      }
      var wallet := WalletOf(ledger, tenant, currency);
      if wallet.currency != currency {
        return false;
      }
      var signed := if debit then -Round(amount) else Round(amount);
      if wallet.balance + signed < 0 {
        return false;
      }
      wallet := wallet.(balance := wallet.balance + signed);
      wallet := wallet.(version := wallet.version + 1);
      ledger := ledger.(wallets := ledger.wallets[tenant := wallet]);
      ledger := ledger.(transactions := ledger.transactions + [Entry(tenant, signed)],
                        references := ledger.references + {(tenant, reference)});
      return true;
    }

    method CreateInvoice(i: Id, tenant: string, terms: Terms, key: Option<string>) returns (ok: bool)
      modifies this
      ensures var outcome := InvoiceCreate(old(ledger), i, tenant, terms, key);
              ok == outcome.Done? && ledger == if ok then outcome.ledger else old(ledger)
    {
      if key.Some? && (tenant, key.value) in ledger.requests {
        return true;
      }
      if i in ledger.invoices {
        return false;
      }
      var over := Overage(terms);
      var base, overage := Round(terms.price.base), OverageAmount(terms.price, over);
      var tax := TaxOn(base + overage, terms.rate);
      ledger := ledger.(invoices := ledger.invoices[i := Invoice(tenant, base + overage, tax, base + overage + tax, 0, false)]);
      if key.Some? {
        ledger := ledger.(requests := ledger.requests[(tenant, key.value) := i]);
      }
      var lines := [Entry(i, base)];
      if over > 0 {
        lines := lines + [Entry(i, overage)];
      }
      assert lines == Lines(i, terms.price, over);
      ledger := ledger.(lines := ledger.lines + lines);
      return true;
    }

    method RefundPayment(tenant: string, p: Id, amount: real) returns (ok: bool)
      modifies this
      ensures var outcome := Refund(old(ledger), tenant, p, amount);
              ok == outcome.Done? && ledger == if ok then outcome.ledger else old(ledger)
    {
      if p !in ledger.payments || ledger.payments[p].tenant != tenant {
        return false;
      }
      var already := Total(ledger.refunds, p);
      if already + Round(amount) > ledger.payments[p].amount {
        return false;
      }
      if ledger.payments[p].provider == "SANDBOX" {
        ledger := ledger.(refunds := ledger.refunds + [Entry(p, Round(amount))]);
      } else {
        ledger := ledger.(pending := ledger.pending + [Entry(p, Round(amount))]);
      }
      return true;
    }

    method IssueCreditNote(tenant: string, i: Id, amount: real) returns (ok: bool)
      modifies this
      ensures var outcome := CreditNote(old(ledger), tenant, i, amount);
              ok == outcome.Done? && ledger == if ok then outcome.ledger else old(ledger)
    {
      if i !in ledger.invoices || ledger.invoices[i].tenant != tenant {
        return false;
      }
      var invoice := ledger.invoices[i];
      if Round(amount) > invoice.total - invoice.credits {
        return false;
      }
      invoice := invoice.(credits := invoice.credits + Round(amount));
      if invoice.credits >= invoice.total {
        invoice := invoice.(credited := true);
      }
      ledger := ledger.(invoices := ledger.invoices[i := invoice], notes := ledger.notes + [Entry(i, Round(amount))]);
      return true;
    }
  }
}
