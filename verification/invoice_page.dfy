/** The invoice page's arithmetic (src/app/invoice/page.tsx:79-101) and the
    file name of the downloaded PDF (src/app/invoice/page.tsx:219-220).

    The page computes with JavaScript numbers and rounds every money amount
    with `toMoney`, that is `Math.round`. Here the inputs are exact real
    numbers and `Round` is the rounding, so every money amount is a whole
    number of rupees. */
module InvoicePage {
  import Decimal

  /** `Math.round`: the nearest integer, halves rounded up. */
  function Round(x: real): (r: int)
    ensures r as real - 0.5 <= x < r as real + 0.5
  {
    (x + 0.5).Floor
  }

  lemma RoundWhole(n: int)
    ensures Round(n as real) == n
  {
  }

  function Max(a: int, b: int): int { if a < b then b else a }
  function Min(a: int, b: int): int { if a < b then a else b }

  // ---------------------------------------------------------------------
  // Query parameters

  /** The deposit status as the page reads it: `'none'`, `'paid'`,
      `'pending'`, or any other text the query carried. */
  datatype DepositStatus = NoDeposit | DepositPaid | DepositPending | DepositOther(text: string)

  /** The payment status: `'unpaid'`, `'partial'`, `'full'`, or other text. */
  datatype PaymentStatus = Unpaid | Partial | Full | PaymentOther(text: string)

  /** `p.depositStatus || 'none'`, as one of the statuses. */
  function ParseDepositStatus(s: string): DepositStatus {
    if s == "" || s == "none" then NoDeposit
    else if s == "paid" then DepositPaid
    else if s == "pending" then DepositPending
    else DepositOther(s)
  }

  /** `p.paymentStatus || 'unpaid'`, as one of the statuses. */
  function ParsePaymentStatus(s: string): PaymentStatus {
    if s == "" || s == "unpaid" then Unpaid
    else if s == "partial" then Partial
    else if s == "full" then Full
    else PaymentOther(s)
  }

  /** The parameters the page reads (the memo `p`, lines 32-54), after the
      numeric ones have gone through `Number(...) || 0`. */
  datatype InvoiceParams = InvoiceParams(
    invoiceNo: string,
    invoiceType: string,
    customerName: string,
    propertyName: string,
    rate: real,
    nights: int,
    taxRate: real,
    deposit: real,
    depositStatus: string,
    amountPaid: real,
    paymentStatus: string)

  function AsciiLower(c: char): char {
    if 'A' <= c <= 'Z' then (c as int + 32) as char else c
  }

  /** `toLowerCase` on ASCII letters: every capital A-Z becomes its small
      letter, every other character is kept. */
  function ToLower(s: string): (r: string)
    ensures |r| == |s|
    ensures forall i :: 0 <= i < |s| ==> r[i] == AsciiLower(s[i])
    ensures forall i :: 0 <= i < |r| ==> !('A' <= r[i] <= 'Z')
  {
    seq(|s|, i requires 0 <= i < |s| => AsciiLower(s[i]))
  }

  /** `(p.invoiceType || '').toLowerCase() === 'proforma'`. */
  predicate IsProforma(invoiceType: string) {
    ToLower(invoiceType) == "proforma"
  }

  /** The type names read as proforma are exactly the eight-letter
      spellings of "proforma" with each letter in either case. */
  lemma ProformaSpellings(t: string)
    ensures IsProforma(t) <==>
              |t| == 8 && forall i :: 0 <= i < 8 ==> t[i] == "proforma"[i] || t[i] == "PROFORMA"[i]
  {
    if |t| == 8 {
      forall i | 0 <= i < 8
        ensures AsciiLower(t[i]) == "proforma"[i] <==> t[i] == "proforma"[i] || t[i] == "PROFORMA"[i]
      {
      }
      if forall i :: 0 <= i < 8 ==> t[i] == "proforma"[i] || t[i] == "PROFORMA"[i] {
        assert forall i :: 0 <= i < 8 ==> ToLower(t)[i] == "proforma"[i];
      }
    }
  }

  // ---------------------------------------------------------------------
  // Totals

  datatype Totals = Totals(
    subtotal: int,
    taxAmount: int,
    depositStatus: DepositStatus,
    depositCharge: int,
    paidDeposit: int,
    pendingDeposit: int,
    baseTotal: int,
    displayTotal: int,
    paymentStatus: PaymentStatus,
    manualPaid: int,
    otherPaid: int,
    totalPaid: int,
    balance: int)

  /** The totals block of the page. Amounts that are already whole numbers
      go through `toMoney` unchanged (`RoundWhole`), so only the four
      amounts computed from real inputs are rounded here. */
  function ComputeTotals(p: InvoiceParams): (t: Totals)
    ensures IsProforma(p.invoiceType) ==>
              t.depositStatus == NoDeposit && t.paymentStatus == Unpaid && t.manualPaid == 0
              && t.paidDeposit == 0 && t.pendingDeposit == 0 && t.totalPaid == 0
              && t.displayTotal == t.baseTotal && t.balance == Max(0, t.baseTotal)
    ensures t.baseTotal == t.subtotal + t.taxAmount
    ensures t.subtotal as real - 0.5 <= Gross(p.rate, p.nights) < t.subtotal as real + 0.5
    ensures t.taxAmount as real - 0.5 <= TaxOn(p.taxRate, t.subtotal) < t.taxAmount as real + 0.5
    ensures t.depositStatus != NoDeposit ==> t.depositCharge == Round(NonNegative(p.deposit))
    ensures !IsProforma(p.invoiceType) ==>
              t.depositStatus == ParseDepositStatus(p.depositStatus)
              && t.paymentStatus == ParsePaymentStatus(p.paymentStatus)
              && t.manualPaid == Round(NonNegative(p.amountPaid))
  {
    var proforma := IsProforma(p.invoiceType);
    var subtotal := Round(Gross(p.rate, p.nights));
    var taxAmount := Round(TaxOn(p.taxRate, subtotal));
    var depositStatus := if proforma then NoDeposit else ParseDepositStatus(p.depositStatus);
    var paymentStatus := if proforma then Unpaid else ParsePaymentStatus(p.paymentStatus);
    var deposit := Round(NonNegative(p.deposit));
    var manualPaid := if proforma then 0 else Round(NonNegative(p.amountPaid));
    Settle(subtotal, taxAmount, depositStatus, deposit, paymentStatus, manualPaid)
  }

  /** `rate * nights`, before rounding. */
  function Gross(rate: real, nights: int): real {
    rate * nights as real
  }

  /** `(taxRate / 100) * subtotal`, before rounding. */
  function TaxOn(taxRate: real, subtotal: int): real {
    taxRate / 100.0 * subtotal as real
  }

  /** `Math.max(0, x)`. */
  function NonNegative(x: real): (r: real)
    ensures r >= 0.0 && (x >= 0.0 ==> r == x)
  {
    if x < 0.0 then 0.0 else x
  }

  /** The whole-rupee part of the totals block, from the rounded subtotal
      and tax, the effective statuses, the rounded non-negative deposit and
      the rounded non-negative manual payment. A pending deposit is owed but
      never part of the grand total, and what is paid plus what is owed is
      everything charged. */
  function Settle(subtotal: int, taxAmount: int, depositStatus: DepositStatus, deposit: int,
                  paymentStatus: PaymentStatus, manualPaid: int): (t: Totals)
    requires deposit >= 0 && manualPaid >= 0
    ensures t.subtotal == subtotal && t.taxAmount == taxAmount && t.manualPaid == manualPaid
    ensures t.depositStatus == depositStatus && t.paymentStatus == paymentStatus
    ensures t.paidDeposit >= 0 && t.pendingDeposit >= 0
    ensures t.paidDeposit == 0 || t.pendingDeposit == 0
    ensures t.depositCharge == (if depositStatus == NoDeposit then 0 else deposit)
    ensures depositStatus == DepositPaid ==> t.paidDeposit == deposit
    ensures depositStatus == DepositPending ==> t.pendingDeposit == deposit
    ensures t.otherPaid <= Max(0, t.baseTotal)
    ensures t.baseTotal >= 0 ==> t.otherPaid >= 0
    ensures t.balance >= 0
    ensures t.displayTotal == t.baseTotal + t.paidDeposit
    ensures t.paymentStatus == Full && t.pendingDeposit == 0 ==> t.balance == 0
    ensures t.baseTotal >= 0 ==> t.totalPaid + t.balance == t.displayTotal + t.pendingDeposit
  {
    var depositCharge := if depositStatus == NoDeposit then 0 else deposit;
    var paidDeposit := if depositStatus == DepositPaid then depositCharge else 0;
    var pendingDeposit := if depositStatus == DepositPending then depositCharge else 0;
    var baseTotal := subtotal + taxAmount;
    var otherPaid :=
      if paymentStatus == Full then baseTotal
      else if paymentStatus == Partial then Min(baseTotal, manualPaid)
      else 0;
    Totals(subtotal, taxAmount, depositStatus, depositCharge, paidDeposit, pendingDeposit,
           baseTotal, baseTotal + paidDeposit, paymentStatus, manualPaid, otherPaid,
           otherPaid + paidDeposit, Max(0, baseTotal - otherPaid) + pendingDeposit)
  }

  /** What is paid and what is owed under each payment status: a partial
      payment counts up to the base total, nothing counts while unpaid, and
      a full payment settles the base total. */
  lemma PaymentOutcomes(subtotal: int, taxAmount: int, depositStatus: DepositStatus, deposit: int,
                        paymentStatus: PaymentStatus, manualPaid: int)
    requires deposit >= 0 && manualPaid >= 0
    ensures var t := Settle(subtotal, taxAmount, depositStatus, deposit, paymentStatus, manualPaid);
            paymentStatus == Partial && manualPaid <= t.baseTotal ==>
              t.totalPaid == manualPaid + t.paidDeposit
              && t.balance == t.baseTotal - manualPaid + t.pendingDeposit
    ensures var t := Settle(subtotal, taxAmount, depositStatus, deposit, paymentStatus, manualPaid);
            paymentStatus == Partial && manualPaid > t.baseTotal ==>
              t.totalPaid == t.baseTotal + t.paidDeposit && t.balance == t.pendingDeposit
    ensures var t := Settle(subtotal, taxAmount, depositStatus, deposit, paymentStatus, manualPaid);
            (paymentStatus == Unpaid || paymentStatus.PaymentOther?) ==>
              t.totalPaid == t.paidDeposit && t.balance == Max(0, t.baseTotal) + t.pendingDeposit
    ensures var t := Settle(subtotal, taxAmount, depositStatus, deposit, paymentStatus, manualPaid);
            paymentStatus == Full ==>
              t.totalPaid == t.baseTotal + t.paidDeposit && t.balance == t.pendingDeposit
  {
  }

  /** The parameters as the page's memo reads them: an empty invoice
      number, type, customer name or property name is replaced by the
      page's sample value (the statuses' defaults are applied when they are
      parsed). */
  function WithDefaults(p: InvoiceParams): (r: InvoiceParams)
    ensures r.invoiceNo != "" && r.invoiceType != "" && r.customerName != "" && r.propertyName != ""
    ensures p.invoiceNo != "" ==> r.invoiceNo == p.invoiceNo
    ensures p.invoiceNo == "" ==> r.invoiceNo == "MCSC-11"
    ensures p.invoiceType != "" ==> r.invoiceType == p.invoiceType
    ensures p.invoiceType == "" ==> r.invoiceType == "invoice"
    ensures p.customerName != "" ==> r.customerName == p.customerName
    ensures p.customerName == "" ==> r.customerName == "Anuj"
    ensures p.propertyName != "" ==> r.propertyName == p.propertyName
    ensures p.propertyName == "" ==> r.propertyName == "Rahul's Paradise"
    ensures r.rate == p.rate && r.nights == p.nights && r.taxRate == p.taxRate && r.deposit == p.deposit
    ensures r.amountPaid == p.amountPaid
    ensures r.depositStatus == p.depositStatus && r.paymentStatus == p.paymentStatus
  {
    p.(invoiceNo := if p.invoiceNo == "" then "MCSC-11" else p.invoiceNo,
       invoiceType := if p.invoiceType == "" then "invoice" else p.invoiceType,
       customerName := if p.customerName == "" then "Anuj" else p.customerName,
       propertyName := if p.propertyName == "" then "Rahul's Paradise" else p.propertyName)
  }

  /** The quantity cell: the number of nights and "NIGHT" or "NIGHTS". */
  function QtyText(nights: int): (r: string)
    ensures var n := Decimal.IntToString(nights);
            |r| > |n| && r[..|n|] == n && r[|n|] == ' '
    ensures r[|Decimal.IntToString(nights)| + 1..] == (if nights == 1 then "NIGHT" else "NIGHTS")
  {
    Decimal.IntToString(nights) + " " + (if nights == 1 then "NIGHT" else "NIGHTS")
  }

  /** The number in the quantity cell reads back as the number of nights. */
  lemma QtyTextReadsBack(nights: int)
    ensures var r := QtyText(nights);
            var n := Decimal.IntToString(nights);
            |n| < |r| && r[|n|] == ' ' && ' ' !in n
            && (n[0] == '-' || Decimal.IsDigit(n[0])) && Decimal.AllDigits(n[1..])
            && Decimal.SignedValue(r[..|n|]) == nights
  {
    var n := Decimal.IntToString(nights);
    Decimal.IntToStringRoundTrip(nights);
    assert QtyText(nights)[..|n|] == n;
    assert forall i :: 0 <= i < |n| ==> n[i] == '-' || Decimal.IsDigit(n[i]);
  }

  // ---------------------------------------------------------------------
  // PDF file name

  /** The characters `[a-z0-9-_]` (case-insensitive) keeps. */
  predicate IsSafeChar(c: char) {
    'a' <= c <= 'z' || 'A' <= c <= 'Z' || '0' <= c <= '9' || c == '-' || c == '_'
  }

  /** `safe(s)`: every character outside the set becomes `_`. */
  function Safe(s: string): (r: string)
    ensures |r| == |s|
    ensures forall i :: 0 <= i < |s| ==> IsSafeChar(r[i])
    ensures forall i :: 0 <= i < |s| && IsSafeChar(s[i]) ==> r[i] == s[i]
    ensures forall i :: 0 <= i < |s| && !IsSafeChar(s[i]) ==> r[i] == '_'
  {
    if s == [] then []
    else [if IsSafeChar(s[0]) then s[0] else '_'] + Safe(s[1..])
  }

  /** A name made of safe characters is kept as it is. */
  lemma SafeKeepsSafe(s: string)
    requires forall i :: 0 <= i < |s| ==> IsSafeChar(s[i])
    ensures Safe(s) == s
  {
  }

  /** Cleaning a cleaned name changes nothing. */
  lemma SafeIdempotent(s: string)
    ensures Safe(Safe(s)) == Safe(s)
  {
  }

  /** The file name of the downloaded PDF: the cleaned invoice number
      (`INV` when empty), `_`, the cleaned customer name (`Customer` when
      empty), `.pdf`. */
  function PdfFileName(invoiceNo: string, customerName: string): (r: string)
    ensures var no := if invoiceNo == "" then "INV" else invoiceNo;
            var name := if customerName == "" then "Customer" else customerName;
            |r| == |no| + |name| + 5 && r[..|no|] == Safe(no) && r[|no|] == '_'
            && r[|no| + 1..|r| - 4] == Safe(name) && r[|r| - 4..] == ".pdf"
  {
    var no := if invoiceNo == "" then "INV" else invoiceNo;
    var name := if customerName == "" then "Customer" else customerName;
    FileNameParts(Safe(no), Safe(name));
    Safe(no) + "_" + Safe(name) + ".pdf"
  }

  /** Character by character: each character of the number and of the name
      is kept when `[a-z0-9-_]` allows it and is `_` otherwise, so nothing
      before `.pdf` is outside that set. */
  lemma PdfFileNameChars(invoiceNo: string, customerName: string)
    ensures var r := PdfFileName(invoiceNo, customerName);
            var no := if invoiceNo == "" then "INV" else invoiceNo;
            var name := if customerName == "" then "Customer" else customerName;
            (forall i :: 0 <= i < |no| ==> r[i] == (if IsSafeChar(no[i]) then no[i] else '_'))
            && (forall i :: 0 <= i < |name| ==>
                  r[|no| + 1 + i] == (if IsSafeChar(name[i]) then name[i] else '_'))
            && forall i :: 0 <= i < |r| - 4 ==> IsSafeChar(r[i])
  {
    var r := PdfFileName(invoiceNo, customerName);
    var no := if invoiceNo == "" then "INV" else invoiceNo;
    var name := if customerName == "" then "Customer" else customerName;
    forall i | 0 <= i < |no|
      ensures r[i] == (if IsSafeChar(no[i]) then no[i] else '_')
    {
      assert r[i] == r[..|no|][i];
    }
    forall i | 0 <= i < |name|
      ensures r[|no| + 1 + i] == (if IsSafeChar(name[i]) then name[i] else '_')
    {
      assert r[|no| + 1 + i] == r[|no| + 1..|r| - 4][i];
    }
    forall i | 0 <= i < |r| - 4
      ensures IsSafeChar(r[i])
    {
      if i > |no| {
        assert r[i] == r[|no| + 1..|r| - 4][i - |no| - 1];
      } else if i < |no| {
        assert r[i] == r[..|no|][i];
      }
    }
  }

  /** Where the parts of `<s>_<t>.pdf` sit. */
  lemma FileNameParts(s: string, t: string)
    ensures var r := s + "_" + t + ".pdf";
            |r| == |s| + |t| + 5 && r[..|s|] == s && r[|s|] == '_' && r[|s| + 1..|r| - 4] == t
            && r[|r| - 4..] == ".pdf"
  {
  }
}
