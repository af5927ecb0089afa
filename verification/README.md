# Wedding RSVP backend — a Dafny model of its decision logic

The backend takes RSVPs over HTTP, stores them in PostgreSQL, and sends attendance
confirmations by e-mail (Amazon SES) and WhatsApp (Twilio). This project models the logic
that sits in front of each of those external calls:

- **`POST /rsvp`** (`App`):
  - checks the required fields in order;
  - coerces a string `attending` to a boolean;
  - fills in defaults for the optional fields;
  - builds the INSERT.
- **`GET /rsvps`** (`App`): the API-key gate, and the positional mapping of rows to records.
- **The attendance e-mail** (`Emailer`):
  - the plain-text body and its seat phrase;
  - the subject default;
  - the conditional Reply-To;
  - the List-Unsubscribe value;
  - the message, assembled header by header in a `MimeMessage` class.
- **The WhatsApp confirmation** (`Twilioer`):
  - the argument checks and their order;
  - the seat phrase;
  - the template and its variables;
  - the `whatsapp:` destination.
- **Phone normalisation** (`PhoneUtils`): the empty check, the strip, the choice of parse region
  from the first character, and the wrapping of every failure in one error form.

Every external library is a parameter and is left uninterpreted:
- `PhoneLibrary` (`parse`, `is_valid_number`, `format_number`);
- the database call of the INSERT;
- Twilio's `messages.create`;
- `render_template`, `formataddr`, and the clock and random message id (`Stamp`).

The Python semantics the code relies on are written out in `Text` and `Values`:
- `str.strip` with Python's whitespace set;
- the narrower whitespace `int()` skips;
- `rstrip('/')`;
- `lower`;
- `in` between strings;
- truthiness;
- `str()` and `int()` on scalars.

`in` on a request body (objects, arrays and strings) is `App.Membership`.

The two seat phrases (e-mail and WhatsApp) are compared in `SeatPhrases`.

## Model

| member | source | states |
|---|---|---|
| App.Membership | app.py:59 | `field not in data` is defined only for objects, arrays and strings (otherwise TypeError); on an object it is key membership |
| App.CheckFields | app.py:57-60 | the field loop reports the first field missing in the order name, email, attending; it passes exactly when all three are present, and raises exactly when the body supports no `in` |
| App.SubmitOutcome | app.py:57-92 | the response is 201, 400 or 500; a refusal from validation is returned as is; 201 comes exactly when the body is valid, the statement binds all seven values and the store gives an id, and that id is returned |
| App.Execute | app.py:76-82 | the driver refuses a parameter count that differs from the placeholder count, whatever the store would do; otherwise the id is exactly what the store gives for the statement's columns and the parameters |
| App.CoerceAttending | app.py:63-64 | a non-string `attending` is kept unchanged; a string always becomes a boolean |
| App.AttendingStringCoercion | app.py:63-64 | a string `attending` becomes true exactly when it spells "yes" or "true" in any mix of cases, and false otherwise |
| App.PrepareRsvp | app.py:57-70 | a request is accepted exactly when the body is an object holding all three required fields. A refused body gets 400 naming the field the loop stopped at, and 500 otherwise: a body without `in` (such as JSON null), or an array or string that holds all three. An accepted row has name and email as given and the coerced attending. plusOne defaults to 0 and the other three optional fields to "", and supplied values are used unchanged |
| App.SubmitRsvp | app.py:57-87 | the field loop with its early return, the in-place coercion, the defaults and the insert give exactly SubmitOutcome for the INSERT statement passed in. With InsertAsWritten this is the code as written; with InsertCorrected it is the fix from Findings |
| App.MissingFieldRejected | app.py:57-60 | an object lacking a required field gets 400 "Missing required field: f" for the first missing f, whatever the store does |
| App.RejectedNeverStored | app.py:57-73 | a request refused by validation gets 400 or 500, and its response does not depend on the database: the store is never reached |
| App.InsertAsWrittenNeverStores | app.py:76-79 | with the INSERT as written (seven values, six placeholders) no request is ever answered 201; every valid request gets 500 |
| App.ValidRsvpStored | app.py:76-87 | with one placeholder per column, an accepted request hands its seven values to the store under the seven column names; it is answered 201 with the generated id, or 500 if the store fails |
| App.AuthorizedAsWritten | app.py:98-99 | the comparison as written: with an admin key configured, the presented key must equal it; with none configured, exactly the requests that present NO key pass |
| App.Authorized | app.py:98-100 | the listing is allowed only when an admin key is configured and the request presents it; with a key configured this agrees with the comparison as written |
| App.UnsetAdminKeyAdmitsAnyone | app.py:98-100 | with ADMIN_API_KEY unset, a request without X-API-Key passes the comparison as written, and is refused by the corrected check |
| App.MismatchedKeyRefused | app.py:98-100 | a key that differs from the admin key gets 401 under either check, whatever the store holds |
| App.RecordKeysOfRow | app.py:111-121 | a record has exactly the nine keys id … createdAt |
| App.RecordValuesOfRow | app.py:111-121 | a record holds the first eight columns positionally and unchanged; createdAt is null exactly when the timestamp is NULL, and otherwise its ISO text |
| App.Records | app.py:109-122 | one record per row, in query order |
| App.ListingOutcome | app.py:98-131 | 200, 401 or 500. 401 exactly when the key check fails, whatever the query did. 500 exactly when it passes and the query raised. A 200 body lists one record per fetched row, in order |
| App.GetRsvps | app.py:98-127 | the key check passed in, then the append loop, give exactly ListingOutcome: 401, 500 on a failed query, or 200 with the records of all rows in order. With AuthorizedAsWritten this is the code as written; with Authorized, the corrected check from Findings, an unset ADMIN_API_KEY gives 401 |
| Emailer.SeatsLine | emailer.py:30 | `int(seats)` failing makes the phrase fail with the same error; "your seat" exactly when `int(seats) == 1`; otherwise `str(seats)` followed by " seats for you and your party" |
| Emailer.BuildText | emailer.py:29-36 | the body fails exactly when `int(seats)` fails, with its error |
| Emailer.PlainText | emailer.py:31-36 | the body starts with "Hi {guest_name},\n\n", contains the seat phrase and the website URL, and ends with the families' signature |
| Emailer.BuildTextShape | emailer.py:29-36 | a built body starts with "Hi {guest_name},\n\n", contains the seat phrase and the website URL, and ends with the families' signature |
| Emailer.MimeMessage.constructor | emailer.py:57 | a new multipart message has no parts, and its headers are the two lines MIMEMultipart writes itself: Content-Type "multipart/<subtype>" and MIME-Version "1.0" |
| Emailer.MimeMessage.Set | emailer.py:58-70 | assigning a header appends one header line and leaves the parts alone |
| Emailer.MimeMessage.Attach | emailer.py:72-73 | attaching appends one part and leaves the headers alone |
| Emailer.SetEnvelope | emailer.py:58-62 | appends Subject (defaulted), From, To, Date and Message-ID, in that order |
| Emailer.EffectiveSubject | emailer.py:50-51 | a truthy subject is kept, and a missing or empty one becomes the wedding subject, so the subject is never empty |
| Emailer.AssembleMessage | emailer.py:57-73 | a fresh "alternative" message. Its headers are the multipart preamble, the envelope, Reply-To when given, and the two unsubscribe headers, in that order. Its parts are the plain text and then the HTML |
| Emailer.SendAttendanceEmail | emailer.py:50-80 | the message built step by step is exactly the specified request handed to SES. Otherwise it is the first error raised: rendering the HTML, then `build_text` |
| Emailer.HeadersOfAttendanceEmail | emailer.py:50-70 | Content-Type "multipart/alternative", MIME-Version, Subject, To and List-Unsubscribe appear once each; a missing or empty subject becomes the wedding subject; Reply-To appears, once, exactly when `reply_to` is truthy |
| Emailer.HeaderValuesMembers | emailer.py:58-70 | the values listed for a header name are exactly those of the header lines with that name, so the counts above are counts of header lines |
| Emailer.UnsubscribeUrlStripsSlashes | emailer.py:66-69 | the unsubscribe link is the website URL with every trailing "/" removed (and only those), then "/unsubscribe?email=" and the recipient |
| Emailer.AttendanceEmail | emailer.py:50-80 | a message is produced exactly when the template renders and `int(seats)` succeeds. A rendering error comes first, then the `int` error. A message's only destination is `to_email`; it has two parts, plain text first and HTML second |
| Twilioer.SeatText | twilioer.py:27 | "your seat" exactly when `str(seats) == "1"`, otherwise `str(seats)` followed by " seats for you and your party" |
| Twilioer.WhatsAppRequest | twilioer.py:16-36 | checks in order: an empty name or number comes first, then a normalisation error, then missing seats or link when attending. A message is produced exactly when every check passes, so declining needs neither seats nor link. It goes from the configured sender to "whatsapp:" plus the normalised number. Attending uses the attending template with {1: name, 2: seat phrase, 3: link}; declining uses the decline template with {1: name} |
| Twilioer.SendWhatsApp | twilioer.py:16-45 | a refused request raises its own error. An admitted one is handed to `messages.create` and succeeds exactly when Twilio accepts it, returning the message sent and its SID; otherwise Twilio's error is raised |
| Twilioer.SeatTextOfInteger | twilioer.py:27 | for an integer count the text comparison agrees with the count being one |
| Twilioer.RefusalIndependentOfSender | twilioer.py:22-43 | a request refused by the checks gives the same outcome whatever the sender would do: nothing is sent |
| SeatPhrases.PhrasesAgreeOnIntegers | twilioer.py:27 | for an integer count, the WhatsApp phrase equals the e-mail's `seats_line` |
| SeatPhrases.PaddedOneDiverges | twilioer.py:27 | seats "01" is "your seat" in the e-mail but "01 seats for you and your party" on WhatsApp |
| SeatPhrases.TrueDiverges | emailer.py:30 | seats `True` is "your seat" in the e-mail but "True seats for you and your party" on WhatsApp |
| PhoneUtils.CleanPhoneNumber | utils/phone_utils.py:3-37 | empty or missing input raises "Phone number is required", unwrapped. Every other failure is a ValueError starting "Error parsing phone number '<stripped>': ". Success holds exactly when the library parses the stripped number in the chosen region and judges it valid, and the result is its E.164 form |
| PhoneUtils.Interpret | utils/phone_utils.py:21-37 | inside the `try`: success exactly when the parse succeeded and the number is valid, giving its E.164 form. A parse error is re-raised wrapped with the number. Every failure is a ValueError starting with the parsing prefix |
| PhoneUtils.InvalidNumberRejected | utils/phone_utils.py:32-37 | a parsed but invalid number is refused with the wrapped "Invalid phone number: <stripped>" message |
| PhoneUtils.ParseRegion | utils/phone_utils.py:22-30 | the parse region is none for a leading "+", "GH" for a leading "0", and the default region otherwise (including an empty string) |
| PhoneUtils.PaddingDoesNotChangeRegion | utils/phone_utils.py:19-30 | whitespace around the input changes neither the region nor the outcome, because the strip comes first |
| PhoneUtils.DocExamples | utils/phone_utils.py:10-13 | "0555123456" is parsed with GH, "+1 (628) 555-0100" with no region, "6285550100" with the default "US" |
| Text.Strip | utils/phone_utils.py:19 | the result neither begins nor ends with whitespace |
| Text.IntStrip | emailer.py:30 | what `int()` reads neither begins nor ends with the whitespace it skips |
| Text.StripIgnoresPadding | utils/phone_utils.py:19 | whitespace added around a string does not change its strip |
| Text.RStripChar | emailer.py:68 | `rstrip('/')` removes exactly the trailing run of "/" and keeps the rest as a prefix |
| Text.Lower | app.py:64 | `lower()` keeps the length and lowers character by character |
| Text.LowerMatchesIgnoringCase | app.py:64 | `s.lower() == w`, for a lower-case word w, exactly when s spells w ignoring case |
| Text.Decimal | twilioer.py:27 | `str(i)` of an integer is a canonical numeral |
| Text.ParseDecimal | emailer.py:30 | the numeral `int()` reads: one or more ASCII digits, optionally after a single "+" or "-", with the sign applied to the digits' value; only a "-" gives a negative number |
| Text.CanonicalNumeralIsDecimal | twilioer.py:27 | a canonical numeral is the decimal text of the integer it denotes |
| Values.ToInt | emailer.py:30 | `int(v)` fails exactly for None, or for a string that is not a signed decimal numeral once the whitespace `int()` skips is dropped. That whitespace is `str.isspace()` without U+001C to U+001F. Otherwise the result is the numeral's value for a string, the value itself for an integer, and 1/0 for True/False |
| Values.LeadingSeparatorRejected | emailer.py:30 | a string that begins with one of U+001C to U+001F is refused by `int()`, although `strip()` drops that character: `int("\x1c1")` raises ValueError |
| Values.ToStr | twilioer.py:27 | `str(v)`: "None", "True"/"False", the string itself, and for an integer a canonical numeral (no '+', no leading zero, no "-0") that reads back as it |
| Values.StrOfIntDetermined | twilioer.py:27 | the integer clause of ToStr determines `str(n)`: any canonical numeral that reads back as `n` is `str(n)` |
| Values.Truthy | twilioer.py:30 | `not v` holds for None; a boolean or integer is truthy exactly when `int` reads it as non-zero, a string exactly when it is not empty, and a timestamp always |
| Values.IntOfStrOfInt | emailer.py:30 | `int(str(n)) == n` |
| Values.StrOfIntIsOne | twilioer.py:27 | `str(n) == "1"` exactly when `n == 1` |

## Left out

- Flask: routing, CORS, `jsonify`, the health check and `app.run` are not modelled. The model starts from the decoded JSON body. A body that is not JSON makes `get_json` raise inside the `try`, which gives 500; that path is not modelled.
- The database: `get_db_connection`, `initialize_db` and its DDL, the SQL text, `fetchone` and `fetchall`.
  - The insert is a `database` parameter that gives the id, or none when the connection or statement raises.
  - The listing starts from what `fetchall` returned, or none when the query raised.
  - Rows are assumed to have the table's shape: nine columns, the last a timestamp or NULL.
- The `print` of errors in both endpoints, and in the e-mail sender.
- SES:
  - the client, `send_raw_email` and its response, and `msg.as_string()`;
  - `render_template` is the `renderHtml` parameter, which gives the HTML or an error;
  - `formataddr` is `formatAddress`, taken never to raise;
  - the MIME boundary that serialisation adds to Content-Type, and the headers of the two parts;
  - `formatdate` and `make_msgid` give the `Stamp`;
  - an unset SES_FROM_ADDRESS (None) is not modelled: the sender address is a string.
- Twilio:
  - the client is the `create` parameter, which returns the SID or an error;
  - `content_variables` is kept as a map, without `json.dumps`;
  - the environment values are `TwilioConfig`.
- `phonenumbers`: `parse`, `is_valid_number` and `format_number` are uninterpreted. Country metadata is not modelled. `is_valid_number` and `format_number` are taken never to raise.
- logging_setup.py is not part of this model.
- Python details:
  - `lower()` folds ASCII letters only;
  - `int()` on a string does not read underscores or non-ASCII digits;
  - the quoting of `int()`'s error text is `'…'` around the raw string;
  - JSON numbers are integers (no floats);
  - `seats` is a scalar (None, bool, int or string), not a list or an object.
- Emailer.BuildTextShape: states where the greeting, seat phrase, URL and signature occur. The exact text is stated only by `PlainText`'s definition.
- App.Records: the `isoformat` text of a timestamp is a parameter.
- App.ValidRsvpStored: column types are not modelled. The default plusOne is the integer 0, which is bound to the table's BOOLEAN column, and PostgreSQL may refuse that even with the corrected INSERT. The store parameter decides.

## Findings

| source | as written | input that shows it | evidently intended | confidence | as-written member | corrected member |
|---|---|---|---|---|---|---|
| app.py:76-79 | the INSERT names seven columns but has six `%s` placeholders, while seven values are bound | any valid body, e.g. `{"name": "A", "email": "a@b.c", "attending": true}`: the driver refuses seven parameters for six placeholders, and the client gets 500 | seven placeholders, so a valid RSVP is stored and answered 201 | high, not executed | App.InsertAsWrittenNeverStores | App.ValidRsvpStored |
| app.py:98-99 | `api_key != os.getenv('ADMIN_API_KEY')` | ADMIN_API_KEY unset and no X-API-Key header: `None != None` is false, so every RSVP is listed | refuse the listing when no admin key is configured | medium, not executed | App.UnsetAdminKeyAdmitsAnyone | App.Authorized |
