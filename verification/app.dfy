/** The two RSVP endpoints (app.py): validation, coercion and defaults of a submitted RSVP
    before it is stored, and the admin listing's key check and row-to-record mapping. */
module App {
  import opened Base
  import opened Text
  import opened Values

  /** An HTTP response: its status code and its JSON body. */
  datatype Response = Response(status: int, body: Value)

  function ErrorResponse(status: int, message: string): Response {
    Response(status, Dict(map["error" := Str(message)]))
  }

  function Created(id: int): Response {
    Response(201, Dict(map["success" := Bool(true), "id" := Int(id)]))
  }

  const RequiredFields: seq<string> := ["name", "email", "attending"]

  const SubmitFailed: string := "An error occurred processing your RSVP"
  const ListingFailed: string := "An error occurred retrieving RSVPs"
  const Unauthorized: string := "Unauthorized"

  function MissingField(field: string): Response {
    ErrorResponse(400, "Missing required field: " + field)
  }

  // ---------------------------------------------------------------------------------------
  // POST /rsvp
  // ---------------------------------------------------------------------------------------

  /** The request bodies on which Python's `in` is defined. */
  predicate IsContainer(body: Value) {
    body.Dict? || body.List? || body.Str?
  }

  /** Python's `key in body`: a key of an object, an element of an array, a substring of a
      string; on any other value it raises TypeError (`None`). */
  function Membership(body: Value, key: string): (found: Option<bool>)
    ensures found.None? <==> !IsContainer(body)
    ensures body.Dict? ==> found == Some(key in body.entries)
  {
    match body
    case Dict(entries) => Some(key in entries)
    case List(items) => Some(Str(key) in items)
    case Str(s) => Some(IsInfix(key, s))
    case _ => None
  }

  /** How the loop over the required fields ends. */
  datatype FieldCheck = AllPresent | Missing(field: string) | Raised

  /** The loop `for field in fields: if field not in data: return ...`. */
  function CheckFields(body: Value, fields: seq<string>): (c: FieldCheck)
    ensures c == Raised <==> fields != [] && !IsContainer(body)
    ensures c == AllPresent <==> forall k :: 0 <= k < |fields| ==> Membership(body, fields[k]) == Some(true)
    // The field reported is the FIRST one missing, in the order of `fields`.
    ensures forall k :: 0 <= k < |fields| && Membership(body, fields[k]) == Some(false) &&
                        (forall j :: 0 <= j < k ==> Membership(body, fields[j]) == Some(true)) ==>
                          c == Missing(fields[k])
  {
    if fields == [] then AllPresent
    else
      match Membership(body, fields[0])
      case None => Raised
      case Some(found) =>
        if !found then Missing(fields[0])
        else
          var rest := CheckFields(body, fields[1..]);
          assert forall k :: 1 <= k < |fields| ==> fields[k] == fields[1..][k - 1];
          rest
  }

  /** `data['attending']` after the coercion: a string becomes a boolean, anything else is kept. */
  function CoerceAttending(v: Value): (r: Value)
    ensures !v.Str? ==> r == v
    ensures v.Str? ==> r.Bool?
  {
    if v.Str? then Bool(Lower(v.s) == "yes" || Lower(v.s) == "true") else v
  }

  /** The seven values bound to the INSERT, in column order. */
  datatype RsvpRow = RsvpRow(name: Value, email: Value, attending: Value, plusOne: Value,
                             plusOneName: Value, dietaryRestrictions: Value, message: Value)

  function Params(row: RsvpRow): (ps: seq<Value>)
    ensures |ps| == 7
  {
    [row.name, row.email, row.attending, row.plusOne, row.plusOneName, row.dietaryRestrictions, row.message]
  }

  /** Python's `dict.get(key, default)`. */
  function Get(entries: map<string, Value>, key: string, default: Value): Value {
    if key in entries then entries[key] else default
  }

  /** A request either refused before the store is touched, or the row to insert. */
  datatype Prepared = Rejected(response: Response) | Accepted(row: RsvpRow)

  /** Everything `submit_rsvp` does before opening the database connection. */
  function PrepareRsvp(body: Value): (p: Prepared)
    ensures p.Accepted? <==>
              body.Dict? && forall k :: 0 <= k < |RequiredFields| ==> RequiredFields[k] in body.entries
    ensures p.Rejected? ==>
              p.response == ErrorResponse(500, SubmitFailed) ||
              exists k :: 0 <= k < |RequiredFields| && p.response == MissingField(RequiredFields[k])
    // Which refusal: 400 naming the field the loop stopped at, otherwise 500 (the loop raised on
    // a body without `in`, or subscripting an array or string raised).
    ensures p.Rejected? ==>
              p.response == match CheckFields(body, RequiredFields)
                            case Missing(f) => MissingField(f)
                            case _ => ErrorResponse(500, SubmitFailed)
    ensures p.Accepted? ==>
              var data := body.entries;
              && "name" in data && "email" in data && "attending" in data
              && p.row.name == data["name"]
              && p.row.email == data["email"]
              && p.row.attending == CoerceAttending(data["attending"])
              // Optional fields: the supplied value unchanged, otherwise the default.
              && p.row.plusOne == (if "plusOne" in data then data["plusOne"] else Int(0))
              && p.row.plusOneName == (if "plusOneName" in data then data["plusOneName"] else Str(""))
              && p.row.dietaryRestrictions
                   == (if "dietaryRestrictions" in data then data["dietaryRestrictions"] else Str(""))
              && p.row.message == (if "message" in data then data["message"] else Str(""))
  {
    match CheckFields(body, RequiredFields)
    case Raised => Rejected(ErrorResponse(500, SubmitFailed))
    case Missing(field) => Rejected(MissingField(field))
    case AllPresent =>
      // Subscripting an array or a string with a field name raises TypeError.
      if !body.Dict? then Rejected(ErrorResponse(500, SubmitFailed))
      else
        var data := body.entries;
        assert Membership(body, RequiredFields[0]) == Some(true);
        assert Membership(body, RequiredFields[1]) == Some(true);
        assert Membership(body, RequiredFields[2]) == Some(true);
        Accepted(RsvpRow(
          data["name"], data["email"], CoerceAttending(data["attending"]),
          Get(data, "plusOne", Int(0)), Get(data, "plusOneName", Str("")),
          Get(data, "dietaryRestrictions", Str("")), Get(data, "message", Str(""))))
  }

  /** An INSERT statement, described by its column list and its count of `%s` placeholders. */
  datatype InsertStatement = InsertStatement(columns: seq<string>, placeholders: nat)

  const RsvpColumns: seq<string> :=
    ["name", "email", "attending", "plus_one", "plus_one_name", "dietary_restrictions", "message"]

  /** The statement as app.py writes it: seven columns, six placeholders. */
  const InsertAsWritten: InsertStatement := InsertStatement(RsvpColumns, 6)

  /** The statement with one placeholder per column. */
  const InsertCorrected: InsertStatement := InsertStatement(RsvpColumns, 7)

  /** `cur.execute(sql, params)` followed by `cur.fetchone()[0]`. The driver refuses a parameter
      tuple whose length differs from the placeholder count before anything reaches the server;
      otherwise `database` runs the insert and gives the generated id, or `None` when the
      connection or the statement raises. */
  function Execute(statement: InsertStatement, params: seq<Value>,
                   database: (seq<string>, seq<Value>) -> Option<int>): (id: Option<int>)
    // A count mismatch is refused whatever the store would do.
    ensures statement.placeholders != |params| ==> id.None?
    // An id comes only from the store, given the statement's columns and the parameters.
    ensures id.Some? <==> statement.placeholders == |params| && database(statement.columns, params).Some?
    ensures id.Some? ==> id == database(statement.columns, params)
  {
    if statement.placeholders != |params| then None else database(statement.columns, params)
  }

  /** The response of `submit_rsvp` for a decoded body, with the given INSERT statement: a
      refusal from validation, 500 when the insert fails, or 201 with the stored row's id. */
  function SubmitOutcome(body: Value, statement: InsertStatement,
                         database: (seq<string>, seq<Value>) -> Option<int>): (r: Response)
    ensures r.status == 201 || r.status == 400 || r.status == 500
    ensures PrepareRsvp(body).Rejected? ==> r == PrepareRsvp(body).response
    // 201 only when the body is valid, the statement binds all seven values and the store
    // gives an id; that id is returned.
    ensures r.status == 201 <==>
              PrepareRsvp(body).Accepted? && statement.placeholders == 7 &&
              database(statement.columns, Params(PrepareRsvp(body).row)).Some?
    ensures r.status == 201 ==>
              r == Created(database(statement.columns, Params(PrepareRsvp(body).row)).value)
  {
    match PrepareRsvp(body)
    case Rejected(response) => response
    case Accepted(row) =>
      match Execute(statement, Params(row), database)
      case None => ErrorResponse(500, SubmitFailed)
      case Some(id) => Created(id)
  }

  /** `submit_rsvp()`: the required-field loop with its early return, the in-place coercion of
      `data['attending']`, the defaults, and the insert. The statement is a parameter:
      `InsertAsWritten` is the code as written, `InsertCorrected` the fix. */
  method SubmitRsvp(body: Value, statement: InsertStatement,
                    database: (seq<string>, seq<Value>) -> Option<int>) returns (resp: Response)
    ensures resp == SubmitOutcome(body, statement, database)
  {
    var i := 0;
    while i < |RequiredFields|
      invariant 0 <= i <= |RequiredFields|
      invariant CheckFields(body, RequiredFields) == CheckFields(body, RequiredFields[i..])
    {
      var field := RequiredFields[i];
      var found := Membership(body, field);
      if found.None? {
        return ErrorResponse(500, SubmitFailed);
      }
      if !found.value {
        return MissingField(field);
      }
      i := i + 1;
    }
    if !body.Dict? {
      return ErrorResponse(500, SubmitFailed);
    }
    assert CheckFields(body, RequiredFields) == AllPresent;
    var data := body.entries;
    assert Membership(body, RequiredFields[0]) == Some(true);
    assert Membership(body, RequiredFields[1]) == Some(true);
    assert Membership(body, RequiredFields[2]) == Some(true);
    if data["attending"].Str? {
      data := data["attending" := CoerceAttending(data["attending"])];
    }
    var plusOne := Get(data, "plusOne", Int(0));
    var plusOneName := Get(data, "plusOneName", Str(""));
    var dietaryRestrictions := Get(data, "dietaryRestrictions", Str(""));
    var message := Get(data, "message", Str(""));
    var row := RsvpRow(data["name"], data["email"], data["attending"], plusOne, plusOneName,
                       dietaryRestrictions, message);
    var id := Execute(statement, Params(row), database);
    if id.None? {
      return ErrorResponse(500, SubmitFailed);
    }
    resp := Created(id.value);
  }

  /** A string `attending` is true exactly when it spells "yes" or "true" in any mix of cases. */
  lemma AttendingStringCoercion(s: string)
    ensures CoerceAttending(Str(s))
            == Bool(SpellsIgnoringCase(s, "yes") || SpellsIgnoringCase(s, "true"))
  {
    LowerMatchesIgnoringCase(s, "yes");
    LowerMatchesIgnoringCase(s, "true");
  }

  /** An object lacking a required field gets 400 naming the first missing one, in the order
      name, email, attending. */
  lemma MissingFieldRejected(data: map<string, Value>, k: nat, statement: InsertStatement,
                             database: (seq<string>, seq<Value>) -> Option<int>)
    requires k < |RequiredFields| && RequiredFields[k] !in data
    requires forall j :: 0 <= j < k ==> RequiredFields[j] in data
    ensures SubmitOutcome(Dict(data), statement, database) == MissingField(RequiredFields[k])
  {
    assert Membership(Dict(data), RequiredFields[k]) == Some(false);
    assert forall j :: 0 <= j < k ==> Membership(Dict(data), RequiredFields[j]) == Some(true);
  }

  /** A request refused by validation never reaches the store: its response is the same
      whatever the database would have done. */
  lemma RejectedNeverStored(body: Value, statement: InsertStatement,
                            database1: (seq<string>, seq<Value>) -> Option<int>,
                            database2: (seq<string>, seq<Value>) -> Option<int>)
    requires PrepareRsvp(body).Rejected?
    ensures SubmitOutcome(body, statement, database1) == SubmitOutcome(body, statement, database2)
    ensures SubmitOutcome(body, statement, database1).status in {400, 500}
  {
  }

  /** As written, the INSERT binds seven values to six placeholders, so the driver raises on
      every accepted request: no RSVP is ever stored and the client always gets 500. */
  lemma InsertAsWrittenNeverStores(body: Value, database: (seq<string>, seq<Value>) -> Option<int>)
    ensures SubmitOutcome(body, InsertAsWritten, database).status != 201
    ensures PrepareRsvp(body).Accepted? ==>
              SubmitOutcome(body, InsertAsWritten, database) == ErrorResponse(500, SubmitFailed)
  {
  }

  /** With one placeholder per column, an accepted request is stored with its seven values and
      answered 201 with the generated id. */
  lemma ValidRsvpStored(body: Value, database: (seq<string>, seq<Value>) -> Option<int>)
    requires PrepareRsvp(body).Accepted?
    ensures var row := PrepareRsvp(body).row;
            SubmitOutcome(body, InsertCorrected, database)
              == match database(RsvpColumns, Params(row))
                 case Some(id) => Created(id)
                 case None => ErrorResponse(500, SubmitFailed)
  {
  }

  // ---------------------------------------------------------------------------------------
  // GET /rsvps
  // ---------------------------------------------------------------------------------------

  /** As written: `api_key != os.getenv('ADMIN_API_KEY')` refuses. An absent header and an unset
      variable are both `None`, and compare equal. */
  function AuthorizedAsWritten(apiKey: Option<string>, adminKey: Option<string>): (ok: bool)
    // With no admin key configured, exactly the requests WITHOUT a key pass.
    ensures adminKey.None? ==> (ok <==> apiKey.None?)
    ensures adminKey.Some? ==> (ok <==> apiKey == adminKey)
  {
    apiKey == adminKey
  }

  /** The check with the unset admin key closed: a key must be configured and presented. */
  function Authorized(apiKey: Option<string>, adminKey: Option<string>): (ok: bool)
    ensures ok ==> adminKey.Some? && apiKey == adminKey
    ensures adminKey.Some? ==> (ok <==> AuthorizedAsWritten(apiKey, adminKey))
  {
    adminKey.Some? && apiKey == adminKey
  }

  /** With ADMIN_API_KEY unset, a request without X-API-Key passes the check as written. */
  lemma UnsetAdminKeyAdmitsAnyone()
    ensures AuthorizedAsWritten(None, None)
    ensures !Authorized(None, None)
  {
  }

  /** The keys of a listed record, in the order of the SELECT's columns. */
  const RecordKeys: seq<string> :=
    ["id", "name", "email", "attending", "plusOne", "plusOneName", "dietaryRestrictions", "message", "createdAt"]

  /** A row of the SELECT: nine columns, the last a timestamp or NULL. */
  predicate WellTypedRow(row: seq<Value>) {
    |row| == 9 && (row[8].Null? || row[8].DateTime?)
  }

  /** The record built from one row; `isoformat` renders a timestamp. */
  function RowToRecord(row: seq<Value>, isoformat: int -> string): map<string, Value>
    requires WellTypedRow(row)
  {
    map["id" := row[0], "name" := row[1], "email" := row[2], "attending" := row[3],
        "plusOne" := row[4], "plusOneName" := row[5], "dietaryRestrictions" := row[6],
        "message" := row[7],
        "createdAt" := if Truthy(row[8]) then Str(isoformat(row[8].micros)) else Null]
  }

  /** A record has exactly the nine keys. */
  lemma RecordKeysOfRow(row: seq<Value>, isoformat: int -> string)
    requires WellTypedRow(row)
    ensures var r := RowToRecord(row, isoformat);
            && (forall k :: 0 <= k < |RecordKeys| ==> RecordKeys[k] in r)
            && (forall key :: key in r ==> key in RecordKeys)
  {
  }

  /** A record holds the first eight columns unchanged; its `createdAt` is null exactly when
      the timestamp is, and otherwise the timestamp's ISO text. */
  lemma RecordValuesOfRow(row: seq<Value>, isoformat: int -> string)
    requires WellTypedRow(row)
    ensures var r := RowToRecord(row, isoformat);
            && (forall k :: 0 <= k < 8 ==> RecordKeys[k] in r && r[RecordKeys[k]] == row[k])
            && "createdAt" in r
            && (r["createdAt"] == Null <==> row[8].Null?)
            && (row[8].DateTime? ==> r["createdAt"] == Str(isoformat(row[8].micros)))
  {
  }

  /** One listed record, as a JSON object. */
  function Record(row: seq<Value>, isoformat: int -> string): Value
    requires WellTypedRow(row)
  {
    Dict(RowToRecord(row, isoformat))
  }

  /** The list the loop appends to: one record per row, in query order. */
  function Records(rows: seq<seq<Value>>, isoformat: int -> string): (rs: seq<Value>)
    requires forall i :: 0 <= i < |rows| ==> WellTypedRow(rows[i])
    ensures |rs| == |rows|
    ensures forall i :: 0 <= i < |rows| ==> rs[i] == Record(rows[i], isoformat)
  {
    if rows == [] then []
    else
      var earlier := rows[..|rows| - 1];
      assert forall i :: 0 <= i < |earlier| ==> earlier[i] == rows[i];
      Records(earlier, isoformat) + [Record(rows[|rows| - 1], isoformat)]
  }

  /** The response of `get_rsvps`; `fetched` is what `fetchall()` returned, or `None` when the
      connection or the query raised. */
  function ListingOutcome(authorized: bool, fetched: Option<seq<seq<Value>>>, isoformat: int -> string)
    : (r: Response)
    requires fetched.Some? ==> forall i :: 0 <= i < |fetched.value| ==> WellTypedRow(fetched.value[i])
    ensures r.status == 200 || r.status == 401 || r.status == 500
    // The key check comes first: a refused request never sees the query's outcome.
    ensures r.status == 401 <==> !authorized
    ensures r.status == 500 <==> authorized && fetched.None?
    // A listing holds one record per fetched row, in the query's order.
    ensures r.status == 200 ==>
              && fetched.Some? && r.body.List?
              && |r.body.items| == |fetched.value|
              && forall i :: 0 <= i < |fetched.value| ==> r.body.items[i] == Record(fetched.value[i], isoformat)
  {
    if !authorized then ErrorResponse(401, Unauthorized)
    else match fetched
      case None => ErrorResponse(500, ListingFailed)
      case Some(rows) => Response(200, List(Records(rows, isoformat)))
  }

  /** `get_rsvps()`: the key check, then the loop that appends one record per row. The check is
      a parameter: `AuthorizedAsWritten` is the comparison as written, `Authorized` the corrected
      one. */
  method GetRsvps(authorize: (Option<string>, Option<string>) -> bool, apiKey: Option<string>,
                  adminKey: Option<string>, fetched: Option<seq<seq<Value>>>, isoformat: int -> string)
    returns (resp: Response)
    requires fetched.Some? ==> forall i :: 0 <= i < |fetched.value| ==> WellTypedRow(fetched.value[i])
    ensures resp == ListingOutcome(authorize(apiKey, adminKey), fetched, isoformat)
  {
    if !authorize(apiKey, adminKey) {
      return ErrorResponse(401, Unauthorized);
    }
    if fetched.None? {
      return ErrorResponse(500, ListingFailed);
    }
    var rows := fetched.value;
    var rsvps: seq<Value> := [];
    var i := 0;
    while i < |rows|
      invariant 0 <= i <= |rows|
      invariant rsvps == Records(rows[..i], isoformat)
    {
      assert rows[..i + 1][..i] == rows[..i];
      rsvps := rsvps + [Record(rows[i], isoformat)];
      i := i + 1;
    }
    assert rows[..|rows|] == rows;
    resp := Response(200, List(rsvps));
  }

  /** A listing request whose key differs from the admin key is refused with 401 under either
      check, whatever the store holds: no row is read. */
  lemma MismatchedKeyRefused(apiKey: Option<string>, adminKey: Option<string>,
                             fetched: Option<seq<seq<Value>>>, isoformat: int -> string)
    requires apiKey != adminKey
    requires fetched.Some? ==> forall i :: 0 <= i < |fetched.value| ==> WellTypedRow(fetched.value[i])
    ensures ListingOutcome(Authorized(apiKey, adminKey), fetched, isoformat) == ErrorResponse(401, Unauthorized)
    ensures ListingOutcome(AuthorizedAsWritten(apiKey, adminKey), fetched, isoformat)
            == ErrorResponse(401, Unauthorized)
  {
  }
}
