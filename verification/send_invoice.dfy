/** `POST /api/send-invoice` (src/app/api/send-invoice/route.ts): checks the
    request, derives the SMTP transport settings, and composes the email
    (subject, plain-text body, attachment name) that is handed to the mail
    transport. Sending itself is not part of this model; its success is a
    parameter. A missing or falsy request field is the empty string (0 for
    the guest count). */
module SendInvoice {
  import opened Wrappers
  import Decimal

  datatype MailRequest = MailRequest(
    toEmail: string,
    customerName: string,
    invoiceNo: string,
    pdfBase64: string,
    fileName: string,
    propertyName: string,
    checkinDate: string,
    checkoutDate: string,
    guests: int,
    totalAmount: string,
    paymentStatus: string,
    invoiceDate: string)

  /** The SMTP settings of the deployment; an unset variable is "" (None for
      the port). */
  datatype SmtpEnv = SmtpEnv(host: string, user: string, pass: string, port: Option<int>, from: string)

  datatype Transport = Transport(host: string, port: int, secure: bool, user: string, pass: string)

  datatype Mail = Mail(from: string, to: string, subject: string, text: string, fileName: string, content: string)

  /** What the route does with a request: refuse it, or build a transport
      and a mail. */
  datatype Outcome = MissingInput | NotConfigured | Deliver(transport: Transport, mail: Mail)

  // ---------------------------------------------------------------------
  // Subject

  /** The characters `String.prototype.trim` removes: ECMAScript white
      space and line terminators. */
  predicate IsJsSpace(c: char) {
    c in {'\t', '\n', '\U{000B}', '\U{000C}', '\r', ' ', '\U{00A0}', '\U{1680}',
          '\U{2028}', '\U{2029}', '\U{202F}', '\U{205F}', '\U{3000}', '\U{FEFF}'}
    || '\U{2000}' <= c <= '\U{200A}'
  }

  function TrimStart(s: string): (r: string)
    ensures |r| <= |s|
  {
    if s != [] && IsJsSpace(s[0]) then TrimStart(s[1..]) else s
  }

  function TrimEnd(s: string): (r: string)
    ensures |r| <= |s|
  {
    if s != [] && IsJsSpace(s[|s| - 1]) then TrimEnd(s[..|s| - 1]) else s
  }

  /** `.trim()`. */
  function Trim(s: string): (r: string) {
    TrimEnd(TrimStart(s))
  }

  /** Trimming the start removes exactly the leading white space. */
  lemma {:induction false} TrimStartSpec(s: string)
    ensures var r := TrimStart(s);
            r == s[|s| - |r|..] && (r == [] || !IsJsSpace(r[0]))
            && forall i :: 0 <= i < |s| - |r| ==> IsJsSpace(s[i])
    decreases |s|
  {
    if s != [] && IsJsSpace(s[0]) {
      TrimStartSpec(s[1..]);
    }
  }

  /** Trimming the end removes exactly the trailing white space. */
  lemma {:induction false} TrimEndSpec(s: string)
    ensures var r := TrimEnd(s);
            r == s[..|r|] && (r == [] || !IsJsSpace(r[|r| - 1]))
            && forall i :: |r| <= i < |s| ==> IsJsSpace(s[i])
    decreases |s|
  {
    if s != [] && IsJsSpace(s[|s| - 1]) {
      TrimEndSpec(s[..|s| - 1]);
    }
  }

  /** Trimming a text that starts and ends with a visible character
      changes nothing. */
  lemma TrimNoop(s: string)
    requires s != [] && !IsJsSpace(s[0]) && !IsJsSpace(s[|s| - 1])
    ensures Trim(s) == s
  {
  }

  /** The subject before trimming. */
  function SubjectText(invoiceNo: string): (s: string)
    ensures |s| > 0 && s[0] == 'I' && s[|s| - 1] == 'a'
  {
    var head, tail := "Invoice ", " from Mi Casa Su Casa";
    assert (head + invoiceNo + tail)[0] == head[0];
    assert (head + invoiceNo + tail)[|head + invoiceNo + tail| - 1] == tail[|tail| - 1];
    head + invoiceNo + tail
  }

  /** `Invoice <no> from Mi Casa Su Casa`, trimmed. The trim never removes
      anything, so even an empty invoice number leaves the inner double
      space in place. */
  function Subject(invoiceNo: string): (r: string)
    ensures r == SubjectText(invoiceNo)
  {
    assert !IsJsSpace('I') && !IsJsSpace('a');
    TrimNoop(SubjectText(invoiceNo));
    Trim(SubjectText(invoiceNo))
  }

  // ---------------------------------------------------------------------
  // Labelled lines

  /** One `label: value` line, kept only when its field is truthy. */
  datatype Field = Field(name: string, present: bool, value: string)

  predicate NonePresent(fs: seq<Field>) {
    fs == [] || (!fs[0].present && NonePresent(fs[1..]))
  }

  lemma NonePresentFour(fs: seq<Field>)
    requires |fs| == 4
    ensures NonePresent(fs) <==> !fs[0].present && !fs[1].present && !fs[2].present && !fs[3].present
  {
    var f1 := fs[1..];
    var f2 := f1[1..];
    var f3 := f2[1..];
    assert f1[0] == fs[1] && f2[0] == fs[2] && f3[0] == fs[3] && f3[1..] == [];
    assert NonePresent(f3) <==> !fs[3].present;
    assert NonePresent(f2) <==> !fs[2].present && NonePresent(f3);
    assert NonePresent(f1) <==> !fs[1].present && NonePresent(f2);
  }

  /** The label/value pairs of the present fields, in order. */
  function Present(fs: seq<Field>): (r: seq<(string, string)>)
    ensures |r| <= |fs|
    ensures r == [] <==> NonePresent(fs)
  {
    if fs == [] then []
    else (if fs[0].present then [(fs[0].name, fs[0].value)] else []) + Present(fs[1..])
  }

  /** Exactly the present fields have a pair. */
  lemma {:induction false} PresentMembers(fs: seq<Field>)
    ensures forall p :: p in Present(fs) <==> exists f :: f in fs && f.present && p == (f.name, f.value)
    decreases |fs|
  {
    if fs != [] {
      PresentMembers(fs[1..]);
      assert forall f :: f in fs <==> f == fs[0] || f in fs[1..];
    }
  }

  /** The `name: value` lines of the present fields (`[a && ..., ...].filter(Boolean)`). */
  function Lines(fs: seq<Field>): (r: seq<string>)
    ensures |r| == |Present(fs)|
  {
    if fs == [] then [] else LineOf(fs[0]) + Lines(fs[1..])
  }

  /** The line of one field: `name: value` when present, none otherwise. */
  function LineOf(f: Field): (r: seq<string>)
    ensures |r| == (if f.present then 1 else 0)
  {
    if f.present then [f.name + ": " + f.value] else []
  }

  /** `lines.join('\n')`. */
  function JoinLines(ls: seq<string>): string {
    if |ls| == 0 then "" else if |ls| == 1 then ls[0] else ls[0] + ['\n'] + JoinLines(ls[1..])
  }

  /** The position of the first `c` in `s`, or `|s|`. */
  function FirstIndex(s: string, c: char): (i: nat)
    ensures i <= |s| && c !in s[..i] && (i < |s| ==> s[i] == c)
  {
    if s == [] then 0 else if s[0] == c then 0 else 1 + FirstIndex(s[1..], c)
  }

  /** A reader for joined lines: the text cut at each newline. */
  function SplitLines(s: string): (r: seq<string>)
    decreases |s|
  {
    if s == [] then []
    else
      var i := FirstIndex(s, '\n');
      if i == |s| then [s] else [s[..i]] + SplitLines(s[i + 1..])
  }

  /** A reader for one line: the label before the first `: ` and the value
      after it. */
  function ParseLine(line: string): (r: Option<(string, string)>)
    ensures r.Some? ==> line == r.value.0 + ": " + r.value.1 && ':' !in r.value.0
  {
    var i := FirstIndex(line, ':');
    if i + 1 < |line| && line[i + 1] == ' ' then
      assert line == line[..i] + ": " + line[i + 2..];
      Some((line[..i], line[i + 2..]))
    else None
  }

  function ParseLines(ls: seq<string>): (r: seq<Option<(string, string)>>)
    ensures |r| == |ls|
  {
    if ls == [] then [] else [ParseLine(ls[0])] + ParseLines(ls[1..])
  }

  function Somes(ps: seq<(string, string)>): (r: seq<Option<(string, string)>>)
    ensures |r| == |ps| && forall i :: 0 <= i < |ps| ==> r[i] == Some(ps[i])
  {
    seq(|ps|, i requires 0 <= i < |ps| => Some(ps[i]))
  }

  lemma FirstIndexAfter(a: string, b: string, c: char)
    requires c !in a
    ensures FirstIndex(a + [c] + b, c) == |a|
    decreases |a|
  {
    if a != [] {
      assert (a + [c] + b)[1..] == a[1..] + [c] + b;
      FirstIndexAfter(a[1..], b, c);
    }
  }

  lemma FirstIndexAbsent(s: string, c: char)
    requires c !in s
    ensures FirstIndex(s, c) == |s|
  {
    if s != [] {
      FirstIndexAbsent(s[1..], c);
    }
  }

  /** Joining lines that are non-empty and contain no newline can be undone
      by cutting at newlines. */
  lemma {:induction false} SplitJoin(ls: seq<string>)
    requires forall l :: l in ls ==> l != [] && '\n' !in l
    ensures SplitLines(JoinLines(ls)) == ls
    decreases |ls|
  {
    if |ls| == 1 {
      FirstIndexAbsent(ls[0], '\n');
    } else if |ls| > 1 {
      var rest := JoinLines(ls[1..]);
      var s := ls[0] + ['\n'] + rest;
      assert JoinLines(ls) == s;
      assert ls[0] in ls;
      FirstIndexAfter(ls[0], rest, '\n');
      assert s[..|ls[0]|] == ls[0] && s[|ls[0]| + 1..] == rest;
      assert forall l :: l in ls[1..] ==> l in ls;
      SplitJoin(ls[1..]);
    }
  }

  lemma ParseLineOf(name: string, value: string)
    requires PlainName(name)
    ensures ParseLine(name + ": " + value) == Some((name, value))
  {
    var line := name + ": " + value;
    assert ':' !in name by {
      assert forall i :: 0 <= i < |name| ==> name[i] != ':';
    }
    assert line == name + [':'] + (" " + value);
    FirstIndexAfter(name, " " + value, ':');
    assert line[|name| + 1] == ' ';
    assert line[..|name|] == name && line[|name| + 2..] == value;
  }

  /** A field name the line reader can split off: non-empty, with no colon
      and no newline. */
  predicate PlainName(s: string) {
    s != [] && forall i :: 0 <= i < |s| ==> s[i] != ':' && s[i] != '\n'
  }

  /** Well-labelled fields whose values have no newline can be read back
      from the joined lines: exactly the present fields, in order. */
  lemma {:induction false} LinesReadBack(fs: seq<Field>)
    requires forall f :: f in fs ==> PlainName(f.name) && '\n' !in f.value
    ensures ParseLines(SplitLines(JoinLines(Lines(fs)))) == Somes(Present(fs))
  {
    LinesWellFormed(fs);
    SplitJoin(Lines(fs));
    ParseEach(fs);
  }

  lemma {:induction false} LinesWellFormed(fs: seq<Field>)
    requires forall f :: f in fs ==> PlainName(f.name) && '\n' !in f.value
    ensures forall l :: l in Lines(fs) ==> l != [] && '\n' !in l
    decreases |fs|
  {
    if fs != [] {
      LinesWellFormed(fs[1..]);
      var f := fs[0];
      var line := f.name + ": " + f.value;
      assert forall i :: 0 <= i < |line| ==> line[i] != '\n' by {
        forall i | 0 <= i < |line| ensures line[i] != '\n' {
          if i < |f.name| {
            assert line[i] == f.name[i];
          } else if i >= |f.name| + 2 {
            assert line[i] == f.value[i - |f.name| - 2];
          }
        }
      }
    }
  }

  lemma {:induction false} ParseEach(fs: seq<Field>)
    requires forall f :: f in fs ==> PlainName(f.name)
    ensures ParseLines(Lines(fs)) == Somes(Present(fs))
    decreases |fs|
  {
    if fs != [] {
      ParseEach(fs[1..]);
      var f := fs[0];
      ParseLinesAppend(LineOf(f), Lines(fs[1..]));
      if f.present {
        ParseLineOf(f.name, f.value);
      }
    }
  }

  lemma {:induction false} ParseLinesAppend(a: seq<string>, b: seq<string>)
    ensures ParseLines(a + b) == ParseLines(a) + ParseLines(b)
    decreases |a|
  {
    if a == [] {
      assert a + b == b;
    } else {
      assert (a + b)[0] == a[0] && (a + b)[1..] == a[1..] + b;
      ParseLinesAppend(a[1..], b);
    }
  }

  // ---------------------------------------------------------------------
  // The email

  /** The guest count as the template prints it; 0 is falsy. */
  function GuestsText(guests: int): (s: string)
    ensures s != "" <==> guests != 0
  {
    if guests == 0 then "" else Decimal.IntToString(guests)
  }

  /** Property, check-in, check-out and guests, in that order. */
  function BookingFields(req: MailRequest): (fs: seq<Field>)
    ensures |fs| == 4
  {
    [Field("Property", req.propertyName != "", req.propertyName),
     Field("Check-in", req.checkinDate != "", req.checkinDate),
     Field("Check-out", req.checkoutDate != "", req.checkoutDate),
     Field("Guests", req.guests != 0, GuestsText(req.guests))]
  }

  /** The rupee sign as line 65 of the route spells it: the three
      characters U+00E2 U+201A U+00B9, which are the UTF-8 bytes of U+20B9
      read as Windows-1252. */
  const GarbledRupee: string := "\U{00E2}\U{201A}\U{00B9}"

  /** The Indian rupee sign U+20B9. */
  const Rupee: string := "\U{20B9}"

  /** Invoice number, date, amount and payment status, in that order, the
      amount preceded by `rupee`. */
  function SummaryFieldsWith(req: MailRequest, rupee: string): (fs: seq<Field>)
    ensures |fs| == 4
  {
    [Field("Invoice No", req.invoiceNo != "", req.invoiceNo),
     Field("Invoice Date", req.invoiceDate != "", req.invoiceDate),
     Field("Total Amount", req.totalAmount != "", rupee + req.totalAmount),
     Field("Payment Status", req.paymentStatus != "", req.paymentStatus)]
  }

  /** The summary lines, the amount preceded by `rupee`: the route writes
      them with `GarbledRupee`, and `Rupee` is the sign it means. */
  function SummaryLines(req: MailRequest, rupee: string): (ls: seq<string>)
    ensures |ls| <= 4
    ensures ls == [] <==> req.invoiceNo == "" && req.invoiceDate == "" && req.totalAmount == "" && req.paymentStatus == ""
  {
    NonePresentFour(SummaryFieldsWith(req, rupee));
    assert |Lines(SummaryFieldsWith(req, rupee))| == |Present(SummaryFieldsWith(req, rupee))|;
    Lines(SummaryFieldsWith(req, rupee))
  }

  function BookingLines(req: MailRequest): (ls: seq<string>)
    ensures |ls| <= 4
    ensures ls == [] <==> req.propertyName == "" && req.checkinDate == "" && req.checkoutDate == "" && req.guests == 0
  {
    NonePresentFour(BookingFields(req));
    assert |Lines(BookingFields(req))| == |Present(BookingFields(req))|;
    Lines(BookingFields(req))
  }

  /** `Booking details:` and its lines, or nothing. */
  function BookingSection(req: MailRequest): (s: string)
    ensures s == "" <==> BookingLines(req) == []
    ensures s != "" ==> s == "Booking details:\n" + JoinLines(BookingLines(req)) + "\n"
  {
    var ls := BookingLines(req);
    if |ls| > 0 then "Booking details:\n" + JoinLines(ls) + "\n" else ""
  }

  /** `Invoice summary:` and its lines, or nothing. */
  function InvoiceSection(req: MailRequest, rupee: string): (s: string)
    ensures s == "" <==> SummaryLines(req, rupee) == []
    ensures s != "" ==> s == "\nInvoice summary:\n" + JoinLines(SummaryLines(req, rupee)) + "\n"
  {
    var ls := SummaryLines(req, rupee);
    if |ls| > 0 then "\nInvoice summary:\n" + JoinLines(ls) + "\n" else ""
  }

  /** The fixed text after the sections. */
  const Closing: string :=
    "\nYour detailed invoice is attached as a PDF with this email.\n\n"
    + "If you have any questions or need any assistance before or during your stay, please feel free to reply to this email.\n\n"
    + "Thank you for choosing Mi Casa Su Casa.\n\n"
    + "Warm regards,\nMi Casa Su Casa"

  /** The name the greeting uses. */
  function GreetingName(req: MailRequest): (n: string)
    ensures n != ""
    ensures req.customerName != "" ==> n == req.customerName
  {
    if req.customerName != "" then req.customerName else "Guest"
  }

  /** `Dear <name>,`. */
  function Greeting(req: MailRequest): string {
    "Dear " + GreetingName(req) + ","
  }

  /** ` for your stay at <property>` when a property is given. */
  function StayClause(req: MailRequest): (s: string)
    ensures s == "" <==> req.propertyName == ""
  {
    if req.propertyName != "" then " for your stay at " + req.propertyName else ""
  }

  /** The thank-you sentence after the greeting. */
  function Thanks(req: MailRequest): string {
    "\n\nThank you for choosing Mi Casa Su Casa" + StayClause(req) + ".\n\n"
  }

  /** The plain-text body: greeting, thanks, the sections, the closing; the
      total is preceded by `rupee`. */
  function Body(req: MailRequest, rupee: string): string {
    Greeting(req) + Thanks(req) + BookingSection(req) + InvoiceSection(req, rupee) + Closing
  }

  /** The transport options: port 587 unless configured, TLS exactly on
      port 465. */
  function TransportFor(env: SmtpEnv): (t: Transport)
    ensures t.port == env.port.GetOr(587) && (t.secure <==> t.port == 465)
    ensures t.host == env.host && t.user == env.user && t.pass == env.pass
  {
    var port := env.port.GetOr(587);
    Transport(env.host, port, port == 465, env.user, env.pass)
  }

  /** The mail handed to the transport: sender defaulting to the SMTP user,
      attachment name defaulting to `invoice.pdf`, body with the total
      preceded by the three characters the route writes. */
  function MailFor(req: MailRequest, env: SmtpEnv): (m: Mail)
    ensures m.from == (if env.from != "" then env.from else env.user)
    ensures m.to == req.toEmail && m.content == req.pdfBase64
    ensures m.subject == SubjectText(req.invoiceNo) && m.text == Body(req, GarbledRupee)
    ensures m.fileName == (if req.fileName != "" then req.fileName else "invoice.pdf")
  {
    Mail(if env.from != "" then env.from else env.user, req.toEmail, Subject(req.invoiceNo),
         Body(req, GarbledRupee),
         if req.fileName != "" then req.fileName else "invoice.pdf", req.pdfBase64)
  }

  /** What the route builds for a request, before anything is sent: the
      request is checked before the configuration. */
  function Prepare(req: MailRequest, env: SmtpEnv): (r: Outcome)
    ensures r == MissingInput <==> req.toEmail == "" || req.pdfBase64 == ""
    ensures r == NotConfigured <==>
              req.toEmail != "" && req.pdfBase64 != "" && (env.host == "" || env.user == "" || env.pass == "")
    ensures r.Deliver? ==> r.transport == TransportFor(env) && r.mail == MailFor(req, env)
  {
    if req.toEmail == "" || req.pdfBase64 == "" then MissingInput
    else if env.host == "" || env.user == "" || env.pass == "" then NotConfigured
    else Deliver(TransportFor(env), MailFor(req, env))
  }

  /** The HTTP status of the response, given whether sending succeeded. */
  function StatusCode(req: MailRequest, env: SmtpEnv, sent: bool): (code: int)
    ensures code == 400 <==> req.toEmail == "" || req.pdfBase64 == ""
    ensures code == 200 <==> Prepare(req, env).Deliver? && sent
    ensures code in {200, 400, 500}
  {
    match Prepare(req, env)
    case MissingInput => 400
    case NotConfigured => 500
    case Deliver(_, _) => if sent then 200 else 500
  }

  // ---------------------------------------------------------------------
  // Facts about the email

  /** The booking lines read back as exactly the present booking fields, in
      order; a guest count of 0 gives no Guests line. */
  lemma BookingReadsBack(req: MailRequest)
    requires '\n' !in req.propertyName && '\n' !in req.checkinDate && '\n' !in req.checkoutDate
    ensures ParseLines(SplitLines(JoinLines(BookingLines(req)))) == Somes(Present(BookingFields(req)))
  {
    NoNewlineInNumber(req.guests);
    assert '\n' !in GuestsText(req.guests);
    assert PlainName("Property") && PlainName("Check-in") && PlainName("Check-out") && PlainName("Guests");
    LinesReadBack(BookingFields(req));
  }

  /** A guest count of 0 adds no line: the booking lines are those of the
      other three fields. */
  lemma GuestsZeroOmitted(req: MailRequest)
    requires req.guests == 0
    ensures BookingLines(req) == Lines(BookingFields(req)[..3])
  {
    var fs := BookingFields(req);
    assert fs == fs[..3] + [fs[3]];
    LinesAppend(fs[..3], [fs[3]]);
    assert Lines([fs[3]]) == [];
  }

  lemma NoNewlineInNumber(i: int)
    ensures '\n' !in Decimal.IntToString(i)
  {
    var s := Decimal.IntToString(i);
    Decimal.IntToStringRoundTrip(i);
    if s[0] == '-' {
      assert s == [s[0]] + s[1..];
      assert forall k :: 0 <= k < |s[1..]| ==> Decimal.IsDigit(s[1..][k]);
    } else {
      assert forall k :: 0 <= k < |s| ==> Decimal.IsDigit(s[k]);
    }
  }

  lemma SummaryNamesPlain()
    ensures PlainName("Invoice No") && PlainName("Invoice Date") && PlainName("Total Amount")
            && PlainName("Payment Status")
  {
  }

  /** The summary lines read back as exactly the present summary fields, in
      order, the amount preceded by the rupee sign. */
  lemma SummaryReadsBack(req: MailRequest)
    requires '\n' !in req.invoiceNo && '\n' !in req.invoiceDate && '\n' !in req.totalAmount
             && '\n' !in req.paymentStatus
    ensures ParseLines(SplitLines(JoinLines(SummaryLines(req, Rupee)))) == Somes(Present(SummaryFieldsWith(req, Rupee)))
  {
    assert '\n' !in Rupee + req.totalAmount by {
      assert Rupee + req.totalAmount == ['\U{20B9}'] + req.totalAmount;
    }
    SummaryNamesPlain();
    LinesReadBack(SummaryFieldsWith(req, Rupee));
  }

  lemma FiveParts(a: string, b: string, c: string, d: string, e: string)
    ensures var t := a + b + c + d + e;
            t[..|a|] == a && t[|a| + |b|..|a| + |b| + |c|] == c
            && t[|a| + |b| + |c|..|a| + |b| + |c| + |d|] == d && t[|t| - |e|..] == e
  {
  }

  /** The body opens with the greeting, carries the booking section and
      then the invoice section in full, and ends with the signature. */
  lemma BodyLayout(req: MailRequest, rupee: string)
    ensures var text := Body(req, rupee);
            var g, t, b, i := Greeting(req), Thanks(req), BookingSection(req), InvoiceSection(req, rupee);
            text[..|g|] == g
            && text[|g| + |t|..|g| + |t| + |b|] == b
            && text[|g| + |t| + |b|..|g| + |t| + |b| + |i|] == i
            && text[|text| - |Closing|..] == Closing
  {
    FiveParts(Greeting(req), Thanks(req), BookingSection(req), InvoiceSection(req, rupee), Closing);
  }

  /** Without a customer name the greeting is `Dear Guest,`. */
  lemma GuestGreeting(req: MailRequest)
    requires req.customerName == ""
    ensures Greeting(req) == "Dear Guest,"
  {
  }

  // ---------------------------------------------------------------------
  // The garbled rupee sign

  /** The three bytes UTF-8 uses for a character from U+0800 to U+FFFF. */
  function Utf8Bytes3(c: char): (b: seq<int>)
    requires 0x800 <= c as int < 0x10000
    ensures |b| == 3 && forall i :: 0 <= i < 3 ==> 0 <= b[i] < 256
  {
    var n := c as int;
    [0xE0 + n / 4096, 0x80 + (n / 64) % 64, 0x80 + n % 64]
  }

  /** A byte read as Windows-1252; the five unassigned bytes are read as
      the C1 control with the same number. */
  function Cp1252(b: int): (c: char)
    requires 0 <= b < 256
  {
    if b < 0x80 || b >= 0xA0 then b as char
    else match b
      case 0x80 => '\U{20AC}' case 0x82 => '\U{201A}' case 0x83 => '\U{0192}' case 0x84 => '\U{201E}'
      case 0x85 => '\U{2026}' case 0x86 => '\U{2020}' case 0x87 => '\U{2021}' case 0x88 => '\U{02C6}'
      case 0x89 => '\U{2030}' case 0x8A => '\U{0160}' case 0x8B => '\U{2039}' case 0x8C => '\U{0152}'
      case 0x8E => '\U{017D}' case 0x91 => '\U{2018}' case 0x92 => '\U{2019}' case 0x93 => '\U{201C}'
      case 0x94 => '\U{201D}' case 0x95 => '\U{2022}' case 0x96 => '\U{2013}' case 0x97 => '\U{2014}'
      case 0x98 => '\U{02DC}' case 0x99 => '\U{2122}' case 0x9A => '\U{0161}' case 0x9B => '\U{203A}'
      case 0x9C => '\U{0153}' case 0x9E => '\U{017E}' case 0x9F => '\U{0178}'
      case _ => b as char
  }

  /** The route's rupee sign is the UTF-8 encoding of U+20B9 misread as
      Windows-1252. */
  lemma GarbledRupeeIsMisreadUtf8()
    ensures var b := Utf8Bytes3('\U{20B9}');
            [Cp1252(b[0]), Cp1252(b[1]), Cp1252(b[2])] == GarbledRupee
  {
    var b := Utf8Bytes3('\U{20B9}');
    assert b == [0xE2, 0x82, 0xB9];
  }

  lemma {:induction false} LinesAppend(a: seq<Field>, b: seq<Field>)
    ensures Lines(a + b) == Lines(a) + Lines(b)
    decreases |a|
  {
    if a == [] {
      assert a + b == b;
    } else {
      assert (a + b)[0] == a[0] && (a + b)[1..] == a[1..] + b;
      LinesAppend(a[1..], b);
    }
  }

  lemma LinesOne(f: Field)
    ensures Lines([f]) == if f.present then [f.name + ": " + f.value] else []
  {
    assert [f][1..] == [];
  }

  /** The summary when only the total amount is given. */
  lemma TotalOnly(req: MailRequest, rupee: string)
    requires req.invoiceNo == "" && req.invoiceDate == "" && req.paymentStatus == "" && req.totalAmount != ""
    ensures Lines(SummaryFieldsWith(req, rupee)) == ["Total Amount" + ": " + (rupee + req.totalAmount)]
  {
    var fs := SummaryFieldsWith(req, rupee);
    assert fs == [fs[0]] + ([fs[1]] + ([fs[2]] + [fs[3]]));
    LinesAppend([fs[0]], [fs[1]] + ([fs[2]] + [fs[3]]));
    LinesAppend([fs[1]], [fs[2]] + [fs[3]]);
    LinesAppend([fs[2]], [fs[3]]);
    LinesOne(fs[0]);
    LinesOne(fs[1]);
    LinesOne(fs[2]);
    LinesOne(fs[3]);
    assert Lines([fs[0]]) == [] && Lines([fs[1]]) == [] && Lines([fs[3]]) == [];
    assert Lines([fs[2]]) == ["Total Amount" + ": " + (rupee + req.totalAmount)];
  }

  /** As written, a total amount of 5000 is mailed with the three garbled
      characters in front of it and no rupee sign anywhere in the line; the
      corrected line carries U+20B9. */
  lemma GarbledTotalLine()
    ensures var req := MailRequest("a@b.in", "", "", "JVBE", "", "", "", "", 0, "5000", "", "");
            SummaryLines(req, GarbledRupee) == ["Total Amount: " + GarbledRupee + "5000"]
            && '\U{20B9}' !in SummaryLines(req, GarbledRupee)[0]
            && SummaryLines(req, Rupee) == ["Total Amount: " + Rupee + "5000"]
  {
    var req := MailRequest("a@b.in", "", "", "JVBE", "", "", "", "", 0, "5000", "", "");
    TotalOnly(req, GarbledRupee);
    TotalOnly(req, Rupee);
    var line := "Total Amount: " + GarbledRupee + "5000";
    assert "Total Amount" + ": " + (GarbledRupee + "5000") == line;
    assert "Total Amount" + ": " + (Rupee + "5000") == "Total Amount: " + Rupee + "5000";
    assert forall k :: 0 <= k < |line| ==> line[k] != '\U{20B9}';
  }

  /** The summary lines before the total: invoice number and date. */
  function HeadLines(req: MailRequest): seq<string> {
    Lines(SummaryFieldsWith(req, "")[..2])
  }

  /** The summary line after the total: payment status. */
  function TailLines(req: MailRequest): seq<string> {
    Lines(SummaryFieldsWith(req, "")[3..])
  }

  /** The body before the sign that precedes the total; it does not depend
      on the sign. */
  function BeforeTotal(req: MailRequest): string {
    Greeting(req) + Thanks(req) + BookingSection(req) + "\nInvoice summary:\n"
      + JoinLines(HeadLines(req)) + (if HeadLines(req) == [] then "" else "\n") + "Total Amount: "
  }

  /** The body after the sign that precedes the total. */
  function AfterTotal(req: MailRequest): string {
    req.totalAmount + (if TailLines(req) == [] then "" else "\n" + JoinLines(TailLines(req))) + "\n" + Closing
  }

  /** The summary lines are the head lines, the total line if there is a
      total, and the tail line. */
  lemma SummaryAround(req: MailRequest, rupee: string)
    ensures SummaryLines(req, rupee) ==
              HeadLines(req) + (if req.totalAmount == "" then [] else ["Total Amount: " + rupee + req.totalAmount])
              + TailLines(req)
  {
    var fs := SummaryFieldsWith(req, rupee);
    var es := SummaryFieldsWith(req, "");
    assert fs == fs[..2] + [fs[2]] + fs[3..];
    assert fs[..2] == es[..2] && fs[3..] == es[3..];
    LinesAppend(fs[..2] + [fs[2]], fs[3..]);
    LinesAppend(fs[..2], [fs[2]]);
    LinesOne(fs[2]);
    assert fs[2].name + ": " + fs[2].value == "Total Amount: " + rupee + req.totalAmount;
  }

  lemma Regroup(p: string, x: string, h: string, sh: string, ta: string, r: string, a: string, t: string,
                 n: string, c: string)
    ensures p + (x + (h + sh + (ta + r + a) + t) + n) + c == (p + x + h + sh + ta) + r + (a + t + n + c)
  {
  }

  /** With a total, the body is the same text around whatever sign precedes
      the amount; without one, the sign does not occur. So the mail the
      route sends and the one it means differ only in those characters. */
  lemma RupeeOnlyInTotal(req: MailRequest, rupee: string, other: string)
    ensures req.totalAmount != "" ==> Body(req, rupee) == BeforeTotal(req) + rupee + AfterTotal(req)
    ensures req.totalAmount == "" ==> Body(req, rupee) == Body(req, other)
  {
    SummaryAround(req, rupee);
    SummaryAround(req, other);
    if req.totalAmount != "" {
      var head, tail := HeadLines(req), TailLines(req);
      var line := "Total Amount: " + rupee + req.totalAmount;
      JoinAround(head, line, tail);
      var sh := if head == [] then "" else "\n";
      var st := if tail == [] then "" else "\n" + JoinLines(tail);
      var pre := Greeting(req) + Thanks(req) + BookingSection(req);
      assert InvoiceSection(req, rupee) == "\nInvoice summary:\n" + (JoinLines(head) + sh + line + st) + "\n";
      assert Body(req, rupee) == pre + InvoiceSection(req, rupee) + Closing;
      assert BeforeTotal(req) == pre + "\nInvoice summary:\n" + JoinLines(head) + sh + "Total Amount: ";
      Regroup(pre, "\nInvoice summary:\n", JoinLines(head), sh, "Total Amount: ", rupee, req.totalAmount, st,
              "\n", Closing);
    }
  }

  /** Joining lines around one line in the middle. */
  lemma {:induction false} JoinAround(a: seq<string>, m: string, b: seq<string>)
    ensures JoinLines(a + [m] + b) ==
            JoinLines(a) + (if a == [] then "" else "\n") + m + (if b == [] then "" else "\n" + JoinLines(b))
    decreases |a|
  {
    if a == [] {
      assert a + [m] + b == [m] + b && ([m] + b)[1..] == b;
    } else {
      assert a + [m] + b == [a[0]] + (a[1..] + [m] + b);
      assert (a + [m] + b)[1..] == a[1..] + [m] + b;
      JoinAround(a[1..], m, b);
    }
  }
}
