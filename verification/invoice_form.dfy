/** The invoice form (src/app/page.tsx): invoice-number normalisation, the
    derived night count, the payload handed to the invoice page, and the
    handlers that replace fields of the form state. */
module InvoiceForm {
  import opened Wrappers
  import Decimal
  import InvoicePage

  datatype DocType = Invoice | Proforma
  datatype DepositChoice = NoDeposit | DepositPaid | DepositPending
  datatype PaymentChoice = Unpaid | Partial | Full

  /** The form state. Dates are day numbers (`None` for an empty field); the
      numeric text fields hold the value `Number(text) || 0` reads from them. */
  datatype FormState = FormState(
    invoiceNo: string,
    invoiceDate: string,
    invoiceType: DocType,
    customerName: string,
    propertyName: string,
    checkin: Option<int>,
    checkout: Option<int>,
    guests: real,
    rate: real,
    nights: int,
    taxRate: real,
    deposit: real,
    depositStatus: DepositChoice,
    amountPaid: real,
    paymentStatus: PaymentChoice)

  // ---------------------------------------------------------------------
  // Invoice numbers

  /** The prefix of each document type. */
  function Prefix(t: DocType): string {
    if t == Proforma then "PFI-" else "MCSC-"
  }

  function AsciiUpper(c: char): char {
    if 'a' <= c <= 'z' then (c as int - 32) as char else c
  }

  /** `s` with its ASCII letters in upper case. */
  function UpperAscii(s: string): string {
    seq(|s|, i requires 0 <= i < |s| => AsciiUpper(s[i]))
  }

  /** `s` starts with `p` ignoring ASCII case; `p` is upper case. */
  predicate StartsWithIgnoreCase(s: string, p: string) {
    |s| >= |p| && UpperAscii(s[..|p|]) == p
  }

  /** `value.replace(/^(MCSC-|PFI-)/i, '')`: the part removed is either
      type's prefix in some letter case, and it is removed exactly when the
      input starts with one. */
  function StripPrefix(v: string): (r: string)
    ensures |r| <= |v| && r == v[|v| - |r|..]
    ensures var k := |v| - |r|;
            k == 0 || (k == 5 && UpperAscii(v[..5]) == "MCSC-") || (k == 4 && UpperAscii(v[..4]) == "PFI-")
    ensures |r| == |v| <==> !StartsWithIgnoreCase(v, "MCSC-") && !StartsWithIgnoreCase(v, "PFI-")
  {
    if StartsWithIgnoreCase(v, "MCSC-") then v[5..]
    else if StartsWithIgnoreCase(v, "PFI-") then v[4..]
    else v
  }

  /** `s.replace(/\D/g, '')`: the ASCII digits of `s`, in order. */
  function KeepDigits(s: string): (r: string)
    ensures Decimal.AllDigits(r) && |r| <= |s|
    ensures Decimal.AllDigits(s) ==> r == s
  {
    if s == [] then []
    else (if Decimal.IsDigit(s[0]) then [s[0]] else []) + KeepDigits(s[1..])
  }

  /** Keeping the digits of a concatenation keeps those of each part; with
      the one-character case this determines `KeepDigits`. */
  lemma {:induction false} KeepDigitsAppend(a: string, b: string)
    ensures KeepDigits(a + b) == KeepDigits(a) + KeepDigits(b)
    ensures |a| == 1 ==> KeepDigits(a) == (if Decimal.IsDigit(a[0]) then a else [])
    decreases |a|
  {
    if a == [] {
      assert a + b == b;
    } else {
      assert (a + b)[0] == a[0] && (a + b)[1..] == a[1..] + b;
      KeepDigitsAppend(a[1..], b);
      var h: string := if Decimal.IsDigit(a[0]) then [a[0]] else [];
      assert KeepDigits(a + b) == h + (KeepDigits(a[1..]) + KeepDigits(b));
      assert KeepDigits(a) == h + KeepDigits(a[1..]);
      assert h + (KeepDigits(a[1..]) + KeepDigits(b)) == (h + KeepDigits(a[1..])) + KeepDigits(b);
    }
  }

  /** A character is kept exactly when it is a digit of the input. */
  lemma {:induction false} KeepDigitsMembers(s: string)
    ensures forall c :: c in KeepDigits(s) <==> c in s && Decimal.IsDigit(c)
    decreases |s|
  {
    if s != [] {
      KeepDigitsMembers(s[1..]);
      assert forall c :: c in s <==> c == s[0] || c in s[1..];
    }
  }

  /** A text that upper-cases to no digit has none to keep. */
  lemma {:induction false} NoDigitsKept(w: string, p: string)
    requires UpperAscii(w) == p && forall i :: 0 <= i < |p| ==> !Decimal.IsDigit(p[i])
    ensures KeepDigits(w) == []
    decreases |w|
  {
    if w != [] {
      assert AsciiUpper(w[0]) == p[0];
      assert UpperAscii(w[1..]) == p[1..];
      NoDigitsKept(w[1..], p[1..]);
    }
  }

  /** `getInvoiceNumber`: the digits of the value, in order; the prefix it
      strips holds no digit, so stripping it first changes nothing. */
  function GetInvoiceNumber(v: string): (r: string)
    ensures Decimal.AllDigits(r)
    ensures r == KeepDigits(v)
  {
    PrefixKeepsNoDigits(v);
    KeepDigits(StripPrefix(v))
  }

  lemma PrefixKeepsNoDigits(v: string)
    ensures KeepDigits(StripPrefix(v)) == KeepDigits(v)
  {
    if StartsWithIgnoreCase(v, "MCSC-") {
      assert v == v[..5] + v[5..];
      KeepDigitsAppend(v[..5], v[5..]);
      NoDigitsKept(v[..5], "MCSC-");
    } else if StartsWithIgnoreCase(v, "PFI-") {
      assert v == v[..4] + v[4..];
      KeepDigitsAppend(v[..4], v[4..]);
      NoDigitsKept(v[..4], "PFI-");
    }
  }

  /** `formatInvoiceNumber`: empty stays empty, anything else gets the
      type's prefix. */
  function FormatInvoiceNumber(t: DocType, number: string): (r: string)
    ensures r == "" <==> number == ""
  {
    if number == "" then "" else Prefix(t) + number
  }

  /** An invoice number the handlers leave behind: empty, or the type's
      prefix followed by one or more digits. */
  predicate WellFormedNo(s: string, t: DocType) {
    s == "" ||
    (|s| > |Prefix(t)| && s[..|Prefix(t)|] == Prefix(t) && Decimal.AllDigits(s[|Prefix(t)|..]))
  }

  /** Normalising any input gives a well-formed number. */
  lemma NormalisedIsWellFormed(t: DocType, v: string)
    ensures WellFormedNo(FormatInvoiceNumber(t, GetInvoiceNumber(v)), t)
  {
    var d := GetInvoiceNumber(v);
    if d != "" {
      var s := Prefix(t) + d;
      assert s[..|Prefix(t)|] == Prefix(t) && s[|Prefix(t)|..] == d;
    }
  }

  /** Taking the digits of a formatted number gives the digits back, under
      either prefix. */
  lemma FormatRoundTrip(t: DocType, d: string)
    requires Decimal.AllDigits(d)
    ensures GetInvoiceNumber(FormatInvoiceNumber(t, d)) == d
  {
    if d != "" {
      KeepDigitsAppend(Prefix(t), d);
      PrefixHasNoDigits(t);
    }
  }

  lemma PrefixHasNoDigits(t: DocType)
    ensures KeepDigits(Prefix(t)) == []
  {
    if t == Proforma {
      assert UpperAscii("PFI-") == "PFI-";
      NoDigitsKept("PFI-", "PFI-");
    } else {
      assert UpperAscii("MCSC-") == "MCSC-";
      NoDigitsKept("MCSC-", "MCSC-");
    }
  }

  /** Normalising a normalised number changes nothing. */
  lemma NormaliseIdempotent(t: DocType, v: string)
    ensures var f := FormatInvoiceNumber(t, GetInvoiceNumber(v));
            FormatInvoiceNumber(t, GetInvoiceNumber(f)) == f
  {
    FormatRoundTrip(t, GetInvoiceNumber(v));
  }

  /** The invoice number after a document-type change: the digits are kept
      under the new prefix; a number without digits becomes empty. */
  function Retyped(invoiceNo: string, newType: DocType): (r: string)
    ensures WellFormedNo(r, newType)
    ensures GetInvoiceNumber(r) == GetInvoiceNumber(invoiceNo)
    ensures invoiceNo != "" && GetInvoiceNumber(invoiceNo) == "" ==> r == ""
  {
    var number := GetInvoiceNumber(invoiceNo);
    NormalisedIsWellFormed(newType, invoiceNo);
    FormatRoundTrip(newType, number);
    if invoiceNo != "" then FormatInvoiceNumber(newType, number) else invoiceNo
  }

  // ---------------------------------------------------------------------
  // Nights and payload

  /** `autoNights`: with both dates set, the whole days between them but at
      least 1; otherwise the typed night count. */
  function AutoNights(form: FormState): (r: int)
    ensures form.checkin.Some? && form.checkout.Some? ==>
              r >= 1 && r >= form.checkout.value - form.checkin.value
              && (r == 1 || r == form.checkout.value - form.checkin.value)
    ensures form.checkin.None? || form.checkout.None? ==> r == form.nights
  {
    match (form.checkin, form.checkout)
    case (Some(a), Some(b)) => if b - a < 1 then 1 else b - a
    case _ => form.nights
  }

  /** The object serialised into the invoice page's query string. */
  datatype Payload = Payload(
    invoiceNo: string,
    invoiceDate: string,
    invoiceType: DocType,
    customerName: string,
    propertyName: string,
    checkin: Option<int>,
    checkout: Option<int>,
    nights: int,
    guests: real,
    rate: real,
    taxRate: real,
    deposit: real,
    amountPaid: real,
    paymentStatus: PaymentChoice,
    depositStatus: DepositChoice)

  /** `buildPayload`: the payload and the total used for the approval
      request. A proforma invoice is sent with no deposit and unpaid. */
  function BuildPayload(form: FormState): (r: (Payload, real))
    ensures var (p, total) := r;
            && p.invoiceNo == form.invoiceNo && p.invoiceType == form.invoiceType
            && p.customerName == form.customerName && p.propertyName == form.propertyName
            && p.nights == AutoNights(form)
            && p.rate == form.rate && p.taxRate == form.taxRate && p.guests == form.guests
            && p.checkin == form.checkin && p.checkout == form.checkout && p.invoiceDate == form.invoiceDate
            && (form.invoiceType == Proforma ==>
                  p.depositStatus == NoDeposit && p.paymentStatus == Unpaid
                  && p.amountPaid == 0.0 && p.deposit == 0.0)
            && (p.depositStatus == NoDeposit ==> p.deposit == 0.0)
            && p.deposit >= 0.0
            && (p.amountPaid != 0.0 ==> form.invoiceType == Invoice && p.paymentStatus == Partial)
            && (form.invoiceType == Invoice ==>
                  p.depositStatus == form.depositStatus && p.paymentStatus == form.paymentStatus)
            && (p.depositStatus != NoDeposit ==> p.deposit == (if form.deposit < 0.0 then 0.0 else form.deposit))
            && (form.invoiceType == Invoice && form.paymentStatus == Partial ==> p.amountPaid == form.amountPaid)
            && total == form.rate * p.nights as real * (1.0 + form.taxRate / 100.0)
  {
    var isProforma := form.invoiceType == Proforma;
    var depositStatus := if isProforma then NoDeposit else form.depositStatus;
    var deposit := if depositStatus != NoDeposit then (if form.deposit < 0.0 then 0.0 else form.deposit) else 0.0;
    var nights := AutoNights(form);
    var subtotal := form.rate * nights as real;
    var total := subtotal + subtotal * form.taxRate / 100.0;
    var amountPaid := if isProforma then 0.0 else if form.paymentStatus == Partial then form.amountPaid else 0.0;
    (Payload(form.invoiceNo, form.invoiceDate, form.invoiceType, form.customerName,
             form.propertyName, form.checkin, form.checkout, nights, form.guests,
             form.rate, form.taxRate, deposit, amountPaid,
             if isProforma then Unpaid else form.paymentStatus, depositStatus),
     total)
  }

  // ---------------------------------------------------------------------
  // From the form to the invoice page

  function DocTypeText(t: DocType): string {
    if t == Proforma then "proforma" else "invoice"
  }

  function DepositText(d: DepositChoice): string {
    match d
    case NoDeposit => "none"
    case DepositPaid => "paid"
    case DepositPending => "pending"
  }

  function PaymentText(p: PaymentChoice): string {
    match p
    case Unpaid => "unpaid"
    case Partial => "partial"
    case Full => "full"
  }

  /** What the invoice page reads back from the payload's query string,
      with the page's defaults for empty text. */
  function ToParams(p: Payload): InvoicePage.InvoiceParams {
    InvoicePage.WithDefaults(InvoicePage.InvoiceParams(
      p.invoiceNo, DocTypeText(p.invoiceType), p.customerName, p.propertyName,
      p.rate, p.nights, p.taxRate, p.deposit, DepositText(p.depositStatus),
      p.amountPaid, PaymentText(p.paymentStatus)))
  }

  /** A payload without an invoice number (`BuildPayload` copies the
      form's) gets a PDF named after the page's sample number `MCSC-11`, so
      the `INV` fallback of the file name is never reached from the form. */
  lemma UnnumberedFileName(p: Payload)
    requires p.invoiceNo == ""
    ensures var q := ToParams(p);
            InvoicePage.PdfFileName(q.invoiceNo, q.customerName)[..8] == "MCSC-11_"
  {
    var q := ToParams(p);
    assert q.invoiceNo == "MCSC-11";
    SampleNumberFileName(q.customerName);
  }

  lemma SampleNumberFileName(name: string)
    ensures InvoicePage.PdfFileName("MCSC-11", name)[..8] == "MCSC-11_"
  {
    var no: string := "MCSC-11";
    assert no == ['M', 'C', 'S', 'C', '-', '1', '1'];
    InvoicePage.SafeKeepsSafe(no);
    var r := InvoicePage.PdfFileName(no, name);
    assert r[..7] == no && r[7] == '_';
    assert r[..8] == r[..7] + [r[7]];
  }

  /** A proforma form reaches the invoice page as a bill with nothing paid,
      no deposit, and the whole base total owed. */
  lemma ProformaBill(form: FormState)
    requires form.invoiceType == Proforma
    ensures var t := InvoicePage.ComputeTotals(ToParams(BuildPayload(form).0));
            t.totalPaid == 0 && t.displayTotal == t.baseTotal
            && t.balance == InvoicePage.Max(0, t.baseTotal)
  {
    assert InvoicePage.ToLower("proforma") == "proforma";
  }

  /** An invoice paid in full reaches the invoice page with nothing owed
      unless a deposit is pending. */
  lemma FullyPaidBill(form: FormState)
    requires form.invoiceType == Invoice && form.paymentStatus == Full
    requires form.depositStatus != DepositPending
    ensures InvoicePage.ComputeTotals(ToParams(BuildPayload(form).0)).balance == 0
  {
    var s := InvoicePage.ToLower("invoice");
    assert s[0] == 'i';
  }

  /** A partial payment on an invoice reaches the invoice page as the
      rounded amount paid; while it does not exceed the base total, it is
      counted in full and the rest of the bill, with any pending deposit,
      is owed. */
  lemma PartialBill(form: FormState)
    requires form.invoiceType == Invoice && form.paymentStatus == Partial && form.amountPaid >= 0.0
    ensures var t := InvoicePage.ComputeTotals(ToParams(BuildPayload(form).0));
            t.manualPaid == InvoicePage.Round(form.amountPaid)
            && (t.manualPaid <= t.baseTotal ==>
                  t.totalPaid == t.manualPaid + t.paidDeposit
                  && t.balance == t.baseTotal - t.manualPaid + t.pendingDeposit)
  {
    var s := InvoicePage.ToLower("invoice");
    assert s[0] == 'i';
    var q := ToParams(BuildPayload(form).0);
    var t := InvoicePage.ComputeTotals(q);
    assert q.paymentStatus == "partial" && q.amountPaid == form.amountPaid;
    InvoicePage.PaymentOutcomes(t.subtotal, t.taxAmount, t.depositStatus, t.depositCharge,
                                t.paymentStatus, t.manualPaid);
  }

  // ---------------------------------------------------------------------
  // The page's form state and its handlers

  class FormPage {
    var form: FormState

    constructor (initial: FormState)
      ensures form == initial
    {
      form := initial;
    }

    /** The mount effect: a saved number is reformatted under the current
        type's prefix, unless it has no digits or is already in that form. */
    method NormaliseOnLoad()
      modifies this
      ensures var f := FormatInvoiceNumber(old(form.invoiceType), GetInvoiceNumber(old(form.invoiceNo)));
              form == if old(form.invoiceNo) != "" && f != "" then old(form).(invoiceNo := f) else old(form)
      ensures old(form.invoiceNo) != "" && GetInvoiceNumber(old(form.invoiceNo)) != "" ==>
                WellFormedNo(form.invoiceNo, form.invoiceType)
    {
      if form.invoiceNo != "" {
        NormalisedIsWellFormed(form.invoiceType, form.invoiceNo);
        var number := GetInvoiceNumber(form.invoiceNo);
        var formatted := FormatInvoiceNumber(form.invoiceType, number);
        if formatted != form.invoiceNo && formatted != "" {
          form := form.(invoiceNo := formatted);
        }
      }
    }

    /** `handleInvoiceNumberChange`: only digits are kept, behind the
        current type's prefix. */
    method HandleInvoiceNumberChange(input: string)
      modifies this
      ensures form == old(form).(invoiceNo := FormatInvoiceNumber(old(form.invoiceType), GetInvoiceNumber(input)))
      ensures WellFormedNo(form.invoiceNo, form.invoiceType)
    {
      NormalisedIsWellFormed(form.invoiceType, input);
      form := form.(invoiceNo := FormatInvoiceNumber(form.invoiceType, GetInvoiceNumber(input)));
    }

    /** `handleInvoiceTypeChange`: the type changes (to invoice when nothing
        is selected) and a non-empty number swaps its prefix. */
    method HandleInvoiceTypeChange(choice: Option<DocType>)
      modifies this
      ensures form == old(form).(invoiceType := choice.GetOr(Invoice),
                                 invoiceNo := Retyped(old(form.invoiceNo), choice.GetOr(Invoice)))
      ensures WellFormedNo(form.invoiceNo, form.invoiceType)
      ensures GetInvoiceNumber(form.invoiceNo) == GetInvoiceNumber(old(form.invoiceNo))
    {
      var newType := choice.GetOr(Invoice);
      if form.invoiceNo != "" {
        var number := GetInvoiceNumber(form.invoiceNo);
        var formatted := if number != "" then Prefix(newType) + number else "";
        form := form.(invoiceType := newType, invoiceNo := formatted);
      } else {
        form := form.(invoiceType := newType);
      }
    }

    /** The deposit select: choosing no deposit also clears the amount. */
    method HandleDepositStatusChange(choice: Option<DepositChoice>)
      modifies this
      ensures form == old(form).(depositStatus := choice.GetOr(NoDeposit),
                                 deposit := if choice.GetOr(NoDeposit) == NoDeposit then 0.0 else old(form.deposit))
    {
      var status := choice.GetOr(NoDeposit);
      form := form.(depositStatus := status);
      if status == NoDeposit {
        form := form.(deposit := 0.0);
      }
    }
  }
}
