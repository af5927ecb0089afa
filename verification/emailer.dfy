/** The attendance e-mail (emailer.py): the plain-text body, and the MIME message assembled
    header by header before it is handed to SES. */
module Emailer {
  import opened Base
  import opened Text
  import opened Values
  import opened Wording

  /** The subject used when the caller gives none. */
  const WeddingSubject: string := "Nana-Serwaa and Abdul Wahab\U{2019}s Wedding \U{2728}"

  /** The display name of the From address. */
  const SenderName: string := "Nana-Serwaa & Abdul Wahab"

  const Signature: string := "\U{2014} The Nimako & Bandau Families\n"

  /** `seats_line`: decided by comparing the INTEGER value of `seats` with 1; `int(seats)` may raise. */
  function SeatsLine(seats: Scalar): (r: Result<string>)
    ensures r.Err? <==> ToInt(seats).Err?
    ensures r.Err? ==> r.error == ToInt(seats).error
    ensures r.Ok? ==> (r.value == OneSeat <==> ToInt(seats).value == 1)
    ensures r.Ok? && ToInt(seats).value != 1 ==> r.value == ToStr(seats) + PartySeatsSuffix
  {
    match ToInt(seats)
    case Err(e) => Err(e)
    case Ok(n) => Ok(if n == 1 then OneSeat else ToStr(seats) + PartySeatsSuffix)
  }

  const Reserved: string := "Your attendance is confirmed. We\U{2019}ve reserved "
  const UpdatePrompt: string := "If plans change, please update your RSVP here: "

  /** The plain-text body around an already chosen seat phrase. */
  function PlainText(guestName: string, seatsLine: string, websiteUrl: string): (t: string)
    ensures StartsWith(t, "Hi " + guestName + ",\n\n")
    ensures IsInfix(seatsLine, t) && IsInfix(websiteUrl, t)
    ensures EndsWith(t, Signature)
  {
    var greeting := "Hi " + guestName + ",\n\n";
    Layout(greeting, Reserved, seatsLine, ".\n\n", UpdatePrompt, websiteUrl, "\n\n", Signature);
    greeting + Reserved + seatsLine + ".\n\n" + UpdatePrompt + websiteUrl + "\n\n" + Signature
  }

  /** `build_text(guest_name, seats, website_url)`: the plain-text body, or the exception
      `int(seats)` raises. */
  function BuildText(guestName: string, seats: Scalar, websiteUrl: string): (r: Result<string>)
    ensures r.Err? <==> ToInt(seats).Err?
    ensures r.Err? ==> r.error == ToInt(seats).error
  {
    match SeatsLine(seats)
    case Err(e) => Err(e)
    case Ok(line) => Ok(PlainText(guestName, line, websiteUrl))
  }

  /** Where the pieces of the body end up, whatever they hold. */
  lemma Layout(greeting: string, reserved: string, line: string, stop: string, update: string,
               url: string, gap: string, signature: string)
    ensures var t := greeting + reserved + line + stop + update + url + gap + signature;
            && StartsWith(t, greeting)
            && IsInfix(line, t)
            && IsInfix(url, t)
            && EndsWith(t, signature)
  {
    var withReserved := greeting + reserved;
    var withLine := withReserved + line;
    var withStop := withLine + stop;
    var withUpdate := withStop + update;
    var withUrl := withUpdate + url;
    var withGap := withUrl + gap;
    var t := withGap + signature;
    AppendParts(greeting, reserved);
    AppendParts(withReserved, line);
    AppendParts(withUpdate, url);
    AppendParts(withGap, signature);
    // Every intermediate text stays a prefix of the whole.
    StartsWithAppend(withReserved, greeting, line);
    StartsWithAppend(withLine, greeting, stop);
    AppendParts(withLine, stop);
    StartsWithAppend(withStop, greeting, update);
    StartsWithAppend(withStop, withLine, update);
    StartsWithAppend(withUpdate, greeting, url);
    StartsWithAppend(withUpdate, withLine, url);
    StartsWithAppend(withUrl, greeting, gap);
    StartsWithAppend(withUrl, withLine, gap);
    AppendParts(withUrl, gap);
    StartsWithAppend(withGap, greeting, signature);
    StartsWithAppend(withGap, withLine, signature);
    StartsWithAppend(withGap, withUrl, signature);
    InfixAtEnd(line, withLine, t);
    InfixAtEnd(url, withUrl, t);
  }

  /** The body greets the guest by name, states the seat phrase, gives the site address and
      ends with the families' signature. */
  lemma BuildTextShape(guestName: string, seats: Scalar, websiteUrl: string)
    requires ToInt(seats).Ok?
    ensures var r := BuildText(guestName, seats, websiteUrl);
            && r.Ok?
            && StartsWith(r.value, "Hi " + guestName + ",\n\n")
            && IsInfix(SeatsLine(seats).value, r.value)
            && IsInfix(websiteUrl, r.value)
            && EndsWith(r.value, Signature)
  {
  }

  /** One header line of the message. */
  datatype Header = Header(name: string, value: string)

  /** One MIME part: its body, its subtype ("plain" or "html") and its charset. */
  datatype Part = Part(body: string, subtype: string, charset: string)

  /** The header lines `MIMEMultipart(subtype)` starts with, before any assignment. */
  function MimePreamble(subtype: string): seq<Header> {
    [Header("Content-Type", "multipart/" + subtype), Header("MIME-Version", "1.0")]
  }

  /** A `MIMEMultipart` message under construction. Assigning `msg[name] = value` ADDS a header
      line (it does not replace one of the same name), and `attach` appends a part. */
  class MimeMessage {
    const subtype: string
    var headers: seq<Header>
    var parts: seq<Part>

    constructor (subtype: string)
      ensures this.subtype == subtype && headers == MimePreamble(subtype) && parts == []
    {
      this.subtype := subtype;
      headers := MimePreamble(subtype);
      parts := [];
    }

    method Set(name: string, value: string)
      modifies this
      ensures headers == old(headers) + [Header(name, value)]
      ensures parts == old(parts)
    {
      headers := headers + [Header(name, value)];
    }

    method Attach(part: Part)
      modifies this
      ensures parts == old(parts) + [part]
      ensures headers == old(headers)
    {
      parts := parts + [part];
    }
  }

  /** The venue and links the HTML template is rendered with. */
  datatype AttendanceDetails = AttendanceDetails(
    guestName: string, seats: Scalar, venueName: string, venueAddress: string,
    mapsUrl: string, websiteUrl: string, guideUrl: string)

  /** What the module takes from outside: SES_FROM_ADDRESS, `email.utils.formataddr`, and
      `build_html`, which renders the HTML template or raises. */
  datatype Mailer = Mailer(
    fromAddress: string,
    formatAddress: (string, string) -> string,
    renderHtml: AttendanceDetails -> Result<string>)

  /** The clock and the random source: `formatdate(localtime=True)` and `make_msgid(...)`. */
  datatype Stamp = Stamp(date: string, messageId: string)

  /** The arguments of `send_raw_email`: Source, Destinations and the message. */
  datatype RawEmail = RawEmail(source: string, destinations: seq<string>, subtype: string,
                               headers: seq<Header>, parts: seq<Part>)

  /** `if not subject: subject = ...`: a given subject is kept, a missing or empty one replaced,
      so the subject line is never empty. */
  function EffectiveSubject(subject: Option<string>): (s: string)
    ensures s != []
    ensures Filled(subject) ==> s == subject.value
    ensures !Filled(subject) ==> s == WeddingSubject
  {
    if Filled(subject) then subject.value else WeddingSubject
  }

  /** The List-Unsubscribe value: a mailto address and the site's unsubscribe link. */
  function ListUnsubscribe(fromAddress: string, websiteUrl: string, toEmail: string): string {
    "<mailto:" + fromAddress + "?subject=unsubscribe>, <" + UnsubscribeUrl(websiteUrl, toEmail) + ">"
  }

  /** The unsubscribe link: the site address without its trailing slashes, then the path. */
  function UnsubscribeUrl(websiteUrl: string, toEmail: string): string {
    RStripChar(websiteUrl, '/') + "/unsubscribe?email=" + toEmail
  }

  /** The header lines every message starts with. */
  function EnvelopeHeaders(mailer: Mailer, stamp: Stamp, toEmail: string, subject: Option<string>): seq<Header> {
    [ Header("Subject", EffectiveSubject(subject)),
      Header("From", mailer.formatAddress(SenderName, mailer.fromAddress)),
      Header("To", toEmail),
      Header("Date", stamp.date),
      Header("Message-ID", stamp.messageId) ]
  }

  /** The header lines every message ends with. */
  function UnsubscribeHeaders(mailer: Mailer, websiteUrl: string, toEmail: string): seq<Header> {
    [ Header("List-Unsubscribe", ListUnsubscribe(mailer.fromAddress, websiteUrl, toEmail)),
      Header("List-Unsubscribe-Post", "List-Unsubscribe=One-Click") ]
  }

  /** The header lines: the multipart preamble, then the assignments in order. */
  function AttendanceHeaders(mailer: Mailer, stamp: Stamp, toEmail: string, websiteUrl: string,
                             replyTo: Option<string>, subject: Option<string>): seq<Header> {
    MimePreamble("alternative")
    + EnvelopeHeaders(mailer, stamp, toEmail, subject)
    + (if Filled(replyTo) then [Header("Reply-To", replyTo.value)] else [])
    + UnsubscribeHeaders(mailer, websiteUrl, toEmail)
  }

  /** What `send_attendance_email` hands to SES, or the exception raised first. A message is built
      exactly when the template renders and the seat count converts to an integer; a rendering
      error comes first, since `build_html` runs before `build_text`. A message goes to
      `to_email` alone and has two parts, the plain text first and the HTML second. */
  function AttendanceEmail(mailer: Mailer, stamp: Stamp, toEmail: string, details: AttendanceDetails,
                           replyTo: Option<string>, subject: Option<string>): (r: Result<RawEmail>)
    ensures r.Ok? <==> mailer.renderHtml(details).Ok? && ToInt(details.seats).Ok?
    ensures mailer.renderHtml(details).Err? ==> r == Err(mailer.renderHtml(details).error)
    ensures mailer.renderHtml(details).Ok? && ToInt(details.seats).Err? ==> r == Err(ToInt(details.seats).error)
    ensures r.Ok? ==>
              && r.value.destinations == [toEmail]
              && |r.value.parts| == 2
              && r.value.parts[0] == Part(BuildText(details.guestName, details.seats, details.websiteUrl).value,
                                          "plain", "utf-8")
              && r.value.parts[1] == Part(mailer.renderHtml(details).value, "html", "utf-8")
  {
    match mailer.renderHtml(details)
    case Err(e) => Err(e)
    case Ok(html) =>
      match BuildText(details.guestName, details.seats, details.websiteUrl)
      case Err(e) => Err(e)
      case Ok(text) =>
        Ok(RawEmail(mailer.fromAddress, [toEmail], "alternative",
                    AttendanceHeaders(mailer, stamp, toEmail, details.websiteUrl, replyTo, subject),
                    [Part(text, "plain", "utf-8"), Part(html, "html", "utf-8")]))
  }

  /** The five assignments from Subject to Message-ID. */
  method SetEnvelope(msg: MimeMessage, mailer: Mailer, stamp: Stamp, toEmail: string, subject: Option<string>)
    modifies msg
    ensures msg.headers == old(msg.headers) + EnvelopeHeaders(mailer, stamp, toEmail, subject)
    ensures msg.parts == old(msg.parts)
  {
    msg.Set("Subject", EffectiveSubject(subject));
    msg.Set("From", mailer.formatAddress(SenderName, mailer.fromAddress));
    msg.Set("To", toEmail);
    msg.Set("Date", stamp.date);
    msg.Set("Message-ID", stamp.messageId);
  }

  /** The header assignments and the two attachments, on a new message. */
  method AssembleMessage(mailer: Mailer, stamp: Stamp, toEmail: string, websiteUrl: string,
                         replyTo: Option<string>, subject: Option<string>, text: string, html: string)
    returns (msg: MimeMessage)
    ensures fresh(msg)
    ensures msg.subtype == "alternative"
    ensures msg.headers == AttendanceHeaders(mailer, stamp, toEmail, websiteUrl, replyTo, subject)
    ensures msg.parts == [Part(text, "plain", "utf-8"), Part(html, "html", "utf-8")]
  {
    msg := new MimeMessage("alternative");
    SetEnvelope(msg, mailer, stamp, toEmail, subject);
    if Filled(replyTo) {
      msg.Set("Reply-To", replyTo.value);
    }
    msg.Set("List-Unsubscribe", ListUnsubscribe(mailer.fromAddress, websiteUrl, toEmail));
    msg.Set("List-Unsubscribe-Post", "List-Unsubscribe=One-Click");
    msg.Attach(Part(text, "plain", "utf-8"));
    msg.Attach(Part(html, "html", "utf-8"));
  }

  /** `send_attendance_email(...)` up to the SES call: builds the message step by step and
      returns the request that is sent. */
  method SendAttendanceEmail(mailer: Mailer, stamp: Stamp, toEmail: string, details: AttendanceDetails,
                             replyTo: Option<string>, subject: Option<string>) returns (r: Result<RawEmail>)
    ensures r == AttendanceEmail(mailer, stamp, toEmail, details, replyTo, subject)
  {
    var html := mailer.renderHtml(details);
    if html.Err? {
      return Err(html.error);
    }
    var text := BuildText(details.guestName, details.seats, details.websiteUrl);
    if text.Err? {
      return Err(text.error);
    }
    var msg := AssembleMessage(mailer, stamp, toEmail, details.websiteUrl, replyTo, subject, text.value, html.value);
    r := Ok(RawEmail(mailer.fromAddress, [toEmail], msg.subtype, msg.headers, msg.parts));
  }

  /** The value of header `h` if it is called `name`. */
  function ValueIfNamed(h: Header, name: string): seq<string> {
    if h.name == name then [h.value] else []
  }

  /** The values of the header lines called `name`, in order. */
  function HeaderValues(headers: seq<Header>, name: string): seq<string> {
    if headers == [] then [] else ValueIfNamed(headers[0], name) + HeaderValues(headers[1..], name)
  }

  /** The values listed are exactly those of the header lines called `name`. */
  lemma {:induction false} HeaderValuesMembers(headers: seq<Header>, name: string)
    ensures forall v :: v in HeaderValues(headers, name) <==>
                        exists i :: 0 <= i < |headers| && headers[i] == Header(name, v)
  {
    if headers != [] {
      HeaderValuesMembers(headers[1..], name);
      assert forall i :: 1 <= i < |headers| ==> headers[i] == headers[1..][i - 1];
    }
  }

  lemma {:induction false} HeaderValuesConcat(a: seq<Header>, b: seq<Header>, name: string)
    ensures HeaderValues(a + b, name) == HeaderValues(a, name) + HeaderValues(b, name)
  {
    if a == [] {
      assert a + b == b;
    } else {
      assert (a + b)[1..] == a[1..] + b;
      HeaderValuesConcat(a[1..], b, name);
    }
  }

  /** Header lines with other names contribute no values. */
  lemma {:induction false} HeaderValuesAbsent(headers: seq<Header>, name: string)
    requires forall i :: 0 <= i < |headers| ==> headers[i].name != name
    ensures HeaderValues(headers, name) == []
  {
    if headers != [] {
      assert forall i :: 0 <= i < |headers[1..]| ==> headers[1..][i] == headers[i + 1];
      HeaderValuesAbsent(headers[1..], name);
    }
  }

  lemma HeaderValuesOne(h: Header, name: string)
    ensures HeaderValues([h], name) == ValueIfNamed(h, name)
  {
    assert [h][1..] == [];
  }

  lemma HeaderValuesTwo(hs: seq<Header>, name: string)
    requires |hs| == 2
    ensures HeaderValues(hs, name) == ValueIfNamed(hs[0], name) + ValueIfNamed(hs[1], name)
  {
    assert hs[1..] == [hs[1]];
    HeaderValuesOne(hs[1], name);
  }

  lemma HeaderValuesFive(hs: seq<Header>, name: string)
    requires |hs| == 5
    ensures HeaderValues(hs, name)
            == ValueIfNamed(hs[0], name) + ValueIfNamed(hs[1], name) + ValueIfNamed(hs[2], name)
               + ValueIfNamed(hs[3], name) + ValueIfNamed(hs[4], name)
  {
    var t1 := hs[1..];
    var t2 := t1[1..];
    var t3 := t2[1..];
    assert HeaderValues(hs, name) == ValueIfNamed(hs[0], name) + HeaderValues(t1, name);
    assert HeaderValues(t1, name) == ValueIfNamed(hs[1], name) + HeaderValues(t2, name);
    assert HeaderValues(t2, name) == ValueIfNamed(hs[2], name) + HeaderValues(t3, name);
    HeaderValuesTwo(t3, name);
  }

  /** The values of the headers called `name`, piece by piece. */
  lemma HeaderValuesOfAttendance(mailer: Mailer, stamp: Stamp, toEmail: string, websiteUrl: string,
                                 replyTo: Option<string>, subject: Option<string>, name: string)
    ensures HeaderValues(AttendanceHeaders(mailer, stamp, toEmail, websiteUrl, replyTo, subject), name)
            == HeaderValues(MimePreamble("alternative"), name)
               + HeaderValues(EnvelopeHeaders(mailer, stamp, toEmail, subject), name)
               + HeaderValues(if Filled(replyTo) then [Header("Reply-To", replyTo.value)] else [], name)
               + HeaderValues(UnsubscribeHeaders(mailer, websiteUrl, toEmail), name)
  {
    var pre := MimePreamble("alternative");
    var env := EnvelopeHeaders(mailer, stamp, toEmail, subject);
    var reply := if Filled(replyTo) then [Header("Reply-To", replyTo.value)] else [];
    var unsub := UnsubscribeHeaders(mailer, websiteUrl, toEmail);
    HeaderValuesConcat(pre + env + reply, unsub, name);
    HeaderValuesConcat(pre + env, reply, name);
    HeaderValuesConcat(pre, env, name);
  }

  /** The message declares itself multipart/alternative once; every assigned header appears
      once, except Reply-To, which appears exactly when `reply_to` is truthy; the subject falls
      back to the wedding subject when missing or empty. */
  lemma HeadersOfAttendanceEmail(mailer: Mailer, stamp: Stamp, toEmail: string, websiteUrl: string,
                                 replyTo: Option<string>, subject: Option<string>)
    ensures var hs := AttendanceHeaders(mailer, stamp, toEmail, websiteUrl, replyTo, subject);
            && HeaderValues(hs, "Content-Type") == ["multipart/alternative"]
            && HeaderValues(hs, "MIME-Version") == ["1.0"]
            && HeaderValues(hs, "Subject") == [if Filled(subject) then subject.value else WeddingSubject]
            && HeaderValues(hs, "To") == [toEmail]
            && HeaderValues(hs, "Reply-To") == (if Filled(replyTo) then [replyTo.value] else [])
            && HeaderValues(hs, "List-Unsubscribe") == [ListUnsubscribe(mailer.fromAddress, websiteUrl, toEmail)]
  {
    ContentTypeOnce(mailer, stamp, toEmail, websiteUrl, replyTo, subject);
    MimeVersionOnce(mailer, stamp, toEmail, websiteUrl, replyTo, subject);
    SubjectOnce(mailer, stamp, toEmail, websiteUrl, replyTo, subject);
    ToOnce(mailer, stamp, toEmail, websiteUrl, replyTo, subject);
    ReplyToWhenGiven(mailer, stamp, toEmail, websiteUrl, replyTo, subject);
    ListUnsubscribeOnce(mailer, stamp, toEmail, websiteUrl, replyTo, subject);
  }

  lemma ContentTypeOnce(mailer: Mailer, stamp: Stamp, toEmail: string, websiteUrl: string,
                        replyTo: Option<string>, subject: Option<string>)
    ensures HeaderValues(AttendanceHeaders(mailer, stamp, toEmail, websiteUrl, replyTo, subject), "Content-Type")
            == ["multipart/alternative"]
  {
    var name := "Content-Type";
    var pre := MimePreamble("alternative");
    var env := EnvelopeHeaders(mailer, stamp, toEmail, subject);
    var reply := if Filled(replyTo) then [Header("Reply-To", replyTo.value)] else [];
    var unsub := UnsubscribeHeaders(mailer, websiteUrl, toEmail);
    HeaderValuesOfAttendance(mailer, stamp, toEmail, websiteUrl, replyTo, subject, name);
    assert HeaderValues(pre, name) == ["multipart/alternative"] by {
      HeaderValuesTwo(pre, name);
      assert "multipart/" + "alternative" == "multipart/alternative";
    }
    HeaderValuesAbsent(env, name);
    HeaderValuesAbsent(reply, name);
    HeaderValuesAbsent(unsub, name);
  }

  lemma MimeVersionOnce(mailer: Mailer, stamp: Stamp, toEmail: string, websiteUrl: string,
                        replyTo: Option<string>, subject: Option<string>)
    ensures HeaderValues(AttendanceHeaders(mailer, stamp, toEmail, websiteUrl, replyTo, subject), "MIME-Version")
            == ["1.0"]
  {
    PiecesOf(mailer, stamp, toEmail, websiteUrl, replyTo, subject, "MIME-Version");
  }

  lemma SubjectOnce(mailer: Mailer, stamp: Stamp, toEmail: string, websiteUrl: string,
                    replyTo: Option<string>, subject: Option<string>)
    ensures HeaderValues(AttendanceHeaders(mailer, stamp, toEmail, websiteUrl, replyTo, subject), "Subject")
            == [EffectiveSubject(subject)]
  {
    PiecesOf(mailer, stamp, toEmail, websiteUrl, replyTo, subject, "Subject");
  }

  lemma ToOnce(mailer: Mailer, stamp: Stamp, toEmail: string, websiteUrl: string,
               replyTo: Option<string>, subject: Option<string>)
    ensures HeaderValues(AttendanceHeaders(mailer, stamp, toEmail, websiteUrl, replyTo, subject), "To")
            == [toEmail]
  {
    PiecesOf(mailer, stamp, toEmail, websiteUrl, replyTo, subject, "To");
  }

  lemma ReplyToWhenGiven(mailer: Mailer, stamp: Stamp, toEmail: string, websiteUrl: string,
                         replyTo: Option<string>, subject: Option<string>)
    ensures HeaderValues(AttendanceHeaders(mailer, stamp, toEmail, websiteUrl, replyTo, subject), "Reply-To")
            == (if Filled(replyTo) then [replyTo.value] else [])
  {
    PiecesOf(mailer, stamp, toEmail, websiteUrl, replyTo, subject, "Reply-To");
  }

  lemma ListUnsubscribeOnce(mailer: Mailer, stamp: Stamp, toEmail: string, websiteUrl: string,
                            replyTo: Option<string>, subject: Option<string>)
    ensures HeaderValues(AttendanceHeaders(mailer, stamp, toEmail, websiteUrl, replyTo, subject), "List-Unsubscribe")
            == [ListUnsubscribe(mailer.fromAddress, websiteUrl, toEmail)]
  {
    PiecesOf(mailer, stamp, toEmail, websiteUrl, replyTo, subject, "List-Unsubscribe");
  }

  /** The values of the headers called `name`, header by header. */
  lemma PiecesOf(mailer: Mailer, stamp: Stamp, toEmail: string, websiteUrl: string,
                 replyTo: Option<string>, subject: Option<string>, name: string)
    ensures var pre := MimePreamble("alternative");
            var env := EnvelopeHeaders(mailer, stamp, toEmail, subject);
            var unsub := UnsubscribeHeaders(mailer, websiteUrl, toEmail);
            HeaderValues(AttendanceHeaders(mailer, stamp, toEmail, websiteUrl, replyTo, subject), name)
            == ValueIfNamed(pre[0], name) + ValueIfNamed(pre[1], name)
               + (ValueIfNamed(env[0], name) + ValueIfNamed(env[1], name) + ValueIfNamed(env[2], name)
                  + ValueIfNamed(env[3], name) + ValueIfNamed(env[4], name))
               + (if Filled(replyTo) then ValueIfNamed(Header("Reply-To", replyTo.value), name) else [])
               + (ValueIfNamed(unsub[0], name) + ValueIfNamed(unsub[1], name))
  {
    HeaderValuesOfAttendance(mailer, stamp, toEmail, websiteUrl, replyTo, subject, name);
    HeaderValuesTwo(MimePreamble("alternative"), name);
    HeaderValuesFive(EnvelopeHeaders(mailer, stamp, toEmail, subject), name);
    HeaderValuesTwo(UnsubscribeHeaders(mailer, websiteUrl, toEmail), name);
    if Filled(replyTo) {
      HeaderValuesOne(Header("Reply-To", replyTo.value), name);
    }
  }

  /** The unsubscribe link is the site address with every trailing slash removed, followed by
      the unsubscribe path and the recipient; so `https://x/` and `https://x//` give the same link. */
  lemma UnsubscribeUrlStripsSlashes(websiteUrl: string, toEmail: string)
    ensures var base := RStripChar(websiteUrl, '/');
            && UnsubscribeUrl(websiteUrl, toEmail) == base + "/unsubscribe?email=" + toEmail
            && (base == [] || base[|base| - 1] != '/')
            && websiteUrl == base + websiteUrl[|base|..]
            && forall i :: |base| <= i < |websiteUrl| ==> websiteUrl[i] == '/'
  {
  }
}
