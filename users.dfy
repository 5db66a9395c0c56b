/** The two request handlers of flask_for_backend/app.py over the `users` table:
    submit_form (validate a JSON payload, then insert one row) and fetch_users
    (select every row and reshape each into a JSON object).  The MySQL table is
    the `rows` field of a UserTable object. */
module Users {
  import opened Wrappers
  import opened EmailPattern
  import opened DobFormat

  /** The JSON body of POST /submit-form: each key is absent (or JSON null) or a string. */
  datatype Payload = Payload(
    fullname: Option<string>,
    email: Option<string>,
    code: Option<string>,
    phonenumber: Option<string>,
    dob: Option<string>,
    gender: Option<string>)

  /** One row of `users`, in the INSERT's column order
      (full_name, email, country_code, phone, dob, gender). */
  datatype Row = Row(
    fullName: string,
    email: string,
    countryCode: string,
    phone: string,
    dob: string,
    gender: string)

  /** How a submission ends. */
  datatype Outcome = MissingFields | InvalidEmail | InvalidDob | Inserted | DbError

  /** A calendar date as a `datetime.date` object holds it. */
  type CalendarDate = d: Date | ValidDate(d) witness Date(1, 1, 1)

  /** The JSON values the handlers produce; an object keeps its keys in insertion order. */
  datatype Json =
    | JStr(text: string)
    | JNull
    | JDate(date: CalendarDate)
    | JObject(fields: seq<(string, Json)>)
    | JArray(items: seq<Json>)

  /** An HTTP status with its JSON body. */
  datatype Response = Response(status: int, body: Json)

  function ErrorBody(message: string): Json {
    JObject([("error", JStr(message))])
  }

  /** The 500 response both handlers give when the database layer raises. */
  const DatabaseError := Response(500, ErrorBody("Database error"))

  /** The response submit_form returns for each outcome. */
  function Respond(o: Outcome): (r: Response)
    ensures r.status == 200 <==> o == Inserted
    ensures r.status == 400 <==> o == MissingFields || o == InvalidEmail || o == InvalidDob
    ensures r.status == 500 <==> o == DbError
    ensures o == MissingFields ==> r.body == ErrorBody("Missing required fields")
    ensures o == InvalidEmail ==> r.body == ErrorBody("Invalid email format")
    ensures o == InvalidDob ==> r.body == ErrorBody("Invalid DOB format. Use YYYY-MM-DD")
    ensures o == Inserted ==> r.body == JObject([("message", JStr("Data inserted successfully"))])
    ensures o == DbError ==> r.body == ErrorBody("Database error")
  {
    match o
    case MissingFields => Response(400, ErrorBody("Missing required fields"))
    case InvalidEmail => Response(400, ErrorBody("Invalid email format"))
    case InvalidDob => Response(400, ErrorBody("Invalid DOB format. Use YYYY-MM-DD"))
    case Inserted => Response(200, JObject([("message", JStr("Data inserted successfully"))]))
    case DbError => DatabaseError
  }

  /** Python truthiness of an optional string: None and "" are falsy. */
  predicate Truthy(f: Option<string>) {
    f.Some? && f.value != ""
  }

  /** `all([fullname, email, code, phonenumber, dob, gender])`. */
  predicate AllPresent(p: Payload) {
    Truthy(p.fullname) && Truthy(p.email) && Truthy(p.code) &&
    Truthy(p.phonenumber) && Truthy(p.dob) && Truthy(p.gender)
  }

  /** What every row the application stores satisfies: all six fields non-empty,
      the email and the dob past their checks. */
  predicate WellFormed(r: Row) {
    r.fullName != "" && r.email != "" && r.countryCode != "" && r.phone != "" &&
    r.dob != "" && r.gender != "" && EmailShapeOk(r.email) && DateShapeOk(r.dob)
  }

  /** The validation chain of submit_form: presence, then the email pattern, then
      the date; the first check that fails decides the error, and a payload that
      passes all three becomes the row to insert, its values unchanged. */
  function Validate(p: Payload): (r: Result<Row, Outcome>)
    ensures !AllPresent(p) ==> r == Err(MissingFields)
    ensures AllPresent(p) && !EmailSpec(p.email.value) ==> r == Err(InvalidEmail)
    ensures AllPresent(p) && EmailSpec(p.email.value) && !DateSpec(p.dob.value) ==> r == Err(InvalidDob)
    ensures AllPresent(p) && EmailSpec(p.email.value) && DateSpec(p.dob.value) ==>
      r == Ok(Row(p.fullname.value, p.email.value, p.code.value, p.phonenumber.value, p.dob.value, p.gender.value))
    ensures r.Ok? ==> WellFormed(r.value)
  {
    if !AllPresent(p) then Err(MissingFields)
    else
      EmailShapeOkIff(p.email.value);
      DateShapeOkIff(p.dob.value);
      if !EmailShapeOk(p.email.value) then Err(InvalidEmail)
      else if !DateShapeOk(p.dob.value) then Err(InvalidDob)
      else Ok(Row(p.fullname.value, p.email.value, p.code.value, p.phonenumber.value, p.dob.value, p.gender.value))
  }

  /** The outcome of submit_form, where driverOk says whether the driver's
      execute and commit succeed; the driver is consulted only after validation. */
  function SubmitOutcome(p: Payload, driverOk: bool): (o: Outcome)
    ensures !AllPresent(p) ==> o == MissingFields
    ensures AllPresent(p) && !EmailSpec(p.email.value) ==> o == InvalidEmail
    ensures AllPresent(p) && EmailSpec(p.email.value) && !DateSpec(p.dob.value) ==> o == InvalidDob
    ensures AllPresent(p) && EmailSpec(p.email.value) && DateSpec(p.dob.value) ==>
      o == (if driverOk then Inserted else DbError)
  {
    match Validate(p)
    case Err(o) => o
    case Ok(_) => if driverOk then Inserted else DbError
  }

  /** A missing field wins over a malformed email, and a malformed email over a
      malformed dob: the checks run in that order and stop at the first failure. */
  lemma ChecksShortCircuit(p: Payload, driverOk: bool)
    ensures !AllPresent(p) ==> SubmitOutcome(p, driverOk) == MissingFields
    ensures AllPresent(p) && !EmailShapeOk(p.email.value) ==> SubmitOutcome(p, driverOk) == InvalidEmail
    ensures AllPresent(p) && EmailShapeOk(p.email.value) && !DateShapeOk(p.dob.value) ==>
      SubmitOutcome(p, driverOk) == InvalidDob
  {
    if AllPresent(p) {
      EmailShapeOkIff(p.email.value);
      DateShapeOkIff(p.dob.value);
    }
  }

  /** A submission is inserted exactly when the driver succeeds and the payload
      has all six fields, an email in the pattern's language and a dob that
      spells a valid calendar date. */
  lemma InsertedIff(p: Payload, driverOk: bool)
    ensures SubmitOutcome(p, driverOk) == Inserted <==>
      driverOk && AllPresent(p) && EmailSpec(p.email.value) && DateSpec(p.dob.value)
  {
  }

  /** A value in a tuple MySQLdb returns: text, a `datetime.date`, or None. */
  datatype Value = Text(text: string) | Day(date: CalendarDate) | Null

  /** The Python exceptions the projection loop can raise. */
  datatype PyError = IndexError | AttributeError

  /** The DATE column as the driver returns it: the date an accepted dob spells,
      whose rendering passes the check again and reads as the same date.  Every
      stored dob passed DateShapeOk, so the NULL case is reached only by rows the
      model never stores, and `if row[5]` would skip it. */
  function StoredDate(dob: string): (v: Value)
    ensures DateShapeOk(dob) ==>
      v.Day? && DateShapeOk(FormatDate(v.date)) && ParseDob(FormatDate(v.date)) == ParseDob(dob)
    ensures !DateShapeOk(dob) ==> !IsTruthy(v)
  {
    if DateShapeOk(dob) then FormatParseRoundTrip(ParseDob(dob).value); Day(ParseDob(dob).value) else Null
  }

  /** The tuple `SELECT full_name, email, country_code, phone, dob, gender`
      yields for a row: six values, positions 0 to 5. */
  function Selected(r: Row): (v: seq<Value>)
    ensures |v| == 6
    ensures forall k :: 0 <= k < 6 && k != 4 ==> v[k].Text?
    ensures WellFormed(r) ==> v[4] == Day(ParseDob(r.dob).value)
  {
    [Text(r.fullName), Text(r.email), Text(r.countryCode), Text(r.phone), StoredDate(r.dob), Text(r.gender)]
  }

  /** `row[k]` on a tuple: the value at k, or IndexError past the end. */
  function Item(row: seq<Value>, k: nat): (r: Result<Value, PyError>)
    ensures r.Ok? <==> k < |row|
    ensures r.Ok? ==> r.value == row[k]
    ensures r.Err? ==> r.error == IndexError
  {
    if k < |row| then Ok(row[k]) else Err(IndexError)
  }

  /** Python truthiness of a fetched value. */
  predicate IsTruthy(v: Value) {
    match v
    case Text(t) => t != ""
    case Day(_) => true
    case Null => false
  }

  /** `v.strftime('%Y-%m-%d')`: only a date has the method. */
  function Strftime(v: Value): (r: Result<Json, PyError>)
    ensures r.Ok? <==> v.Day?
    ensures r.Err? ==> r.error == AttributeError
    ensures r.Ok? ==> r.value.JStr? && DateShapeOk(r.value.text) && ParseDob(r.value.text) == Some(v.date)
  {
    match v
    case Day(d) => FormatParseRoundTrip(d); Ok(JStr(FormatDate(d)))
    case _ => Err(AttributeError)
  }

  /** How jsonify carries a fetched value. */
  function ToJson(v: Value): Json {
    match v
    case Text(t) => JStr(t)
    case Day(d) => JDate(d)
    case Null => JNull
  }

  /** The positions the loop body of fetch_users reads, in key order. */
  const AsWritten: seq<nat> := [1, 2, 3, 4, 5, 6]

  /** The positions of the six selected columns. */
  const Intended: seq<nat> := [0, 1, 2, 3, 4, 5]

  /** The dict display of the loop body, evaluated left to right: the values for
      full_name, email, country_code and phone are read at positions at[0..4],
      dob at at[4] (tested for truth, then formatted), gender at at[5]. */
  function ProjectRow(row: seq<Value>, at: seq<nat>): (r: Result<Json, PyError>)
    requires |at| == 6
    ensures at[0] >= |row| ==> r == Err(IndexError)
    ensures (forall k :: 0 <= k < 5 ==> at[k] < |row|) && IsTruthy(row[at[4]]) && !row[at[4]].Day? ==>
      r == Err(AttributeError)
    ensures r.Ok? ==> (r.value.JObject? && |r.value.fields| == 6 &&
      r.value.fields[0].0 == "full_name" && r.value.fields[1].0 == "email" &&
      r.value.fields[2].0 == "country_code" && r.value.fields[3].0 == "phone" &&
      r.value.fields[4].0 == "dob" && r.value.fields[5].0 == "gender")
  {
    var fullName :- Item(row, at[0]);
    var email :- Item(row, at[1]);
    var countryCode :- Item(row, at[2]);
    var phone :- Item(row, at[3]);
    var dobValue :- Item(row, at[4]);
    var dob :- if IsTruthy(dobValue) then Strftime(dobValue) else Ok(JNull);
    var gender :- Item(row, at[5]);
    Ok(JObject([
      ("full_name", ToJson(fullName)),
      ("email", ToJson(email)),
      ("country_code", ToJson(countryCode)),
      ("phone", ToJson(phone)),
      ("dob", dob),
      ("gender", ToJson(gender))]))
  }

  /** The list the loop builds from rs, or the first exception it raises. */
  function ProjectAll(rs: seq<Row>, at: seq<nat>): (r: Result<seq<Json>, PyError>)
    requires |at| == 6
    ensures r.Ok? ==> |r.value| == |rs|
    ensures r.Ok? ==> forall k :: 0 <= k < |rs| ==> ProjectRow(Selected(rs[k]), at) == Ok(r.value[k])
  {
    if rs == [] then Ok([])
    else
      var prefix := rs[..|rs| - 1];
      assert forall k :: 0 <= k < |prefix| ==> prefix[k] == rs[k];
      var front :- ProjectAll(prefix, at);
      var last :- ProjectRow(Selected(rs[|rs| - 1]), at);
      Ok(front + [last])
  }

  /** The loop raises only when some row's projection raises. */
  lemma {:induction false} ProjectAllRaises(rs: seq<Row>, at: seq<nat>)
    requires |at| == 6
    requires ProjectAll(rs, at).Err?
    ensures exists k :: 0 <= k < |rs| && ProjectRow(Selected(rs[k]), at).Err?
  {
    var front := rs[..|rs| - 1];
    if ProjectAll(front, at).Err? {
      ProjectAllRaises(front, at);
      var k :| 0 <= k < |front| && ProjectRow(Selected(front[k]), at).Err?;
      assert front[k] == rs[k];
    } else {
      assert ProjectRow(Selected(rs[|rs| - 1]), at).Err?;
    }
  }

  /** The response fetch_users gives for a table reading positions at. */
  function FetchResponse(rs: seq<Row>, at: seq<nat>): (r: Response)
    requires |at| == 6
    ensures r.status == 200 <==> forall k :: 0 <= k < |rs| ==> ProjectRow(Selected(rs[k]), at).Ok?
    ensures r.status != 200 ==> r == DatabaseError
    ensures r.status == 200 ==> (r.body.JArray? && |r.body.items| == |rs| &&
      forall k :: 0 <= k < |rs| ==> ProjectRow(Selected(rs[k]), at) == Ok(r.body.items[k]))
  {
    match ProjectAll(rs, at)
    case Ok(users) => Response(200, JArray(users))
    case Err(_) => ProjectAllRaises(rs, at); DatabaseError
  }

  /** Once a prefix of the rows raises, the whole loop raises. */
  lemma {:induction false} PrefixErrorPropagates(rs: seq<Row>, at: seq<nat>, k: nat)
    requires |at| == 6 && k <= |rs|
    requires ProjectAll(rs[..k], at).Err?
    ensures ProjectAll(rs, at).Err?
  {
    if k < |rs| {
      var prefix := rs[..|rs| - 1];
      assert prefix[..k] == rs[..k];
      PrefixErrorPropagates(prefix, at, k);
    } else {
      assert rs[..k] == rs;
    }
  }

  /** Reading positions 1 to 6 of a six-value tuple always raises: position 6
      does not exist, and position 5 is reached first only to raise sooner
      when it holds a non-empty string. */
  lemma AsWrittenRowRaises(row: seq<Value>)
    requires |row| == 6
    ensures ProjectRow(row, AsWritten).Err?
  {
  }

  /** The as-written loop returns [] for an empty table and raises for any other. */
  lemma {:induction false} AsWrittenFetch(rs: seq<Row>)
    ensures rs == [] ==> FetchResponse(rs, AsWritten) == Response(200, JArray([]))
    ensures rs != [] ==> FetchResponse(rs, AsWritten) == DatabaseError
  {
    if rs != [] {
      AsWrittenRowRaises(Selected(rs[|rs| - 1]));
    }
  }

  /** The JSON object the corrected loop builds from a stored row: the values as
      submitted, with dob rendered by strftime from the stored date. */
  function UserObject(r: Row): (u: Json)
    requires WellFormed(r)
    ensures u.JObject? && |u.fields| == 6
    ensures u.fields[4].0 == "dob" && u.fields[4].1.JStr? && DateShapeOk(u.fields[4].1.text)
    ensures ParseDob(u.fields[4].1.text) == ParseDob(r.dob)
  {
    FormatParseRoundTrip(ParseDob(r.dob).value);
    JObject([
      ("full_name", JStr(r.fullName)),
      ("email", JStr(r.email)),
      ("country_code", JStr(r.countryCode)),
      ("phone", JStr(r.phone)),
      ("dob", JStr(FormatDate(ParseDob(r.dob).value))),
      ("gender", JStr(r.gender))])
  }

  /** The stored records as the corrected loop lists them, in the order the
      rows come back from the SELECT, taken here to be insertion order. */
  function Listing(rs: seq<Row>): (l: seq<Json>)
    requires forall i :: 0 <= i < |rs| ==> WellFormed(rs[i])
    ensures |l| == |rs|
  {
    if rs == [] then [] else Listing(rs[..|rs| - 1]) + [UserObject(rs[|rs| - 1])]
  }

  /** The k-th listed record is the record of the k-th stored row. */
  lemma {:induction false} ListingItems(rs: seq<Row>, k: nat)
    requires forall i :: 0 <= i < |rs| ==> WellFormed(rs[i])
    requires k < |rs|
    ensures Listing(rs)[k] == UserObject(rs[k])
  {
    if k < |rs| - 1 {
      var front := rs[..|rs| - 1];
      assert front[k] == rs[k];
      ListingItems(front, k);
    }
  }

  /** Reading positions 0 to 5 of a stored row's tuple gives its record. */
  lemma IntendedRow(r: Row)
    requires WellFormed(r)
    ensures ProjectRow(Selected(r), Intended) == Ok(UserObject(r))
  {
    var d := ParseDob(r.dob).value;
    var row := Selected(r);
    assert row == [Text(r.fullName), Text(r.email), Text(r.countryCode), Text(r.phone), Day(d), Text(r.gender)];
    assert Item(row, 4) == Ok(Day(d)) && IsTruthy(Day(d));
    assert Strftime(Day(d)) == Ok(JStr(FormatDate(d)));
    assert Item(row, 5) == Ok(Text(r.gender));
  }

  /** Reading positions 0 to 5, the loop lists every stored row, in the order the rows are read. */
  lemma {:induction false} IntendedFetchLists(rs: seq<Row>)
    requires forall i :: 0 <= i < |rs| ==> WellFormed(rs[i])
    ensures ProjectAll(rs, Intended) == Ok(Listing(rs))
  {
    if rs != [] {
      IntendedFetchLists(rs[..|rs| - 1]);
      IntendedRow(rs[|rs| - 1]);
    }
  }

  /** After a row is appended, the corrected fetch lists the earlier records
      followed by the new one. */
  lemma {:induction false} FetchAfterInsert(rs: seq<Row>, row: Row)
    requires forall i :: 0 <= i < |rs| ==> WellFormed(rs[i])
    requires WellFormed(row)
    ensures FetchResponse(rs + [row], Intended) == Response(200, JArray(Listing(rs) + [UserObject(row)]))
  {
    var all := rs + [row];
    assert all[..|all| - 1] == rs;
    assert all[|all| - 1] == row;
    IntendedFetchLists(all);
  }

  /** The record listed for an accepted submission carries the submitted values;
      its dob reads as the same calendar date as the submitted text, and equals
      that text when it is already in the YYYY-MM-DD form strftime produces. */
  lemma InsertedRecord(p: Payload)
    requires Validate(p).Ok?
    ensures var u := UserObject(Validate(p).value);
      |u.fields| == 6 &&
      u.fields[0] == ("full_name", JStr(p.fullname.value)) &&
      u.fields[1] == ("email", JStr(p.email.value)) &&
      u.fields[2] == ("country_code", JStr(p.code.value)) &&
      u.fields[3] == ("phone", JStr(p.phonenumber.value)) &&
      u.fields[5] == ("gender", JStr(p.gender.value)) &&
      u.fields[4].0 == "dob" && u.fields[4].1.JStr? &&
      ParseDob(u.fields[4].1.text) == ParseDob(p.dob.value) &&
      (DateShapeOk(p.dob.value) && p.dob.value == FormatDate(ParseDob(p.dob.value).value) ==>
        u.fields[4].1.text == p.dob.value)
  {
    var row := Validate(p).value;
    assert row.dob == p.dob.value;
    var d := ParseDob(row.dob).value;
    AcceptedNormalizes(row.dob);
    var u := UserObject(row);
    assert u.fields[4] == ("dob", JStr(FormatDate(d)));
  }

  /** A sample submission (Jane Doe). */
  const JanePayload := Payload(Some("Jane Doe"), Some("jane@example.com"), Some("+1"),
                               Some("5551234"), Some("1990-05-10"), Some("female"))

  const JaneRow := Row("Jane Doe", "jane@example.com", "+1", "5551234", "1990-05-10", "female")

  /** The object the corrected fetch lists for the Jane Doe sample: the submitted values under the table's column names. */
  const JaneRecord := JObject([
    ("full_name", JStr("Jane Doe")), ("email", JStr("jane@example.com")),
    ("country_code", JStr("+1")), ("phone", JStr("5551234")),
    ("dob", JStr("1990-05-10")), ("gender", JStr("female"))])

  /** The Jane Doe sample passes every check and becomes this row. */
  lemma JaneDoeValidates()
    ensures Validate(JanePayload) == Ok(JaneRow)
    ensures SubmitOutcome(JanePayload, true) == Inserted
  {
    PlainAddressAccepted();
    AcceptedExamples();
    assert AllPresent(JanePayload);
    EmailShapeOkIff(JanePayload.email.value);
    DateShapeOkIff(JanePayload.dob.value);
  }

  /** The record listed for the Jane Doe sample's row. */
  lemma JaneDoeRecord()
    ensures WellFormed(JaneRow)
    ensures UserObject(JaneRow) == JaneRecord
  {
    JaneDoeValidates();
    JaneDoeDob();
  }

  /** The Jane Doe sample's dob reads as 10 May 1990 and renders back unchanged. */
  lemma JaneDoeDob()
    ensures ParseDob(JaneRow.dob) == Some(Date(1990, 5, 10))
    ensures FormatDate(Date(1990, 5, 10)) == JaneRow.dob
  {
    assert Year4(1990) == "1990";
    assert Pad2(5) == "05" && Pad2(10) == "10";
    assert FormatDate(Date(1990, 5, 10)) == "1990-05-10";
    FormatParseRoundTrip(Date(1990, 5, 10));
  }

  /** The Jane Doe sample, once inserted as JaneRow, is listed back by the corrected fetch with exactly the submitted values. */
  lemma JaneDoeListed(rs: seq<Row>)
    requires forall i :: 0 <= i < |rs| ==> WellFormed(rs[i])
    ensures FetchResponse(rs + [JaneRow], Intended) ==
      Response(200, JArray(Listing(rs) + [JaneRecord]))
  {
    JaneDoeRecord();
    FetchAfterInsert(rs, JaneRow);
  }

  /** The `users` table the two handlers share. */
  class UserTable {
    var rows: seq<Row>

    /** Only submit_form writes the table, and only rows that passed its checks. */
    ghost predicate Valid()
      reads this
    {
      forall i :: 0 <= i < |rows| ==> WellFormed(rows[i])
    }

    constructor ()
      ensures Valid() && rows == []
    {
      rows := [];
    }

    /** POST /submit-form: validate, then insert one row, with driverOk standing
        for whether the driver's execute and commit succeed.  Exactly one row,
        the payload's six values in column order, is appended on success; on
        every other outcome the table is unchanged. */
    method Submit(p: Payload, driverOk: bool) returns (resp: Response)
      requires Valid()
      modifies this
      ensures Valid()
      ensures resp == Respond(SubmitOutcome(p, driverOk))
      ensures SubmitOutcome(p, driverOk) == Inserted ==> rows == old(rows) + [Validate(p).value]
      ensures SubmitOutcome(p, driverOk) != Inserted ==> rows == old(rows)
    {
      var checked := Validate(p);
      if checked.Err? {
        return Respond(checked.error);
      }
      if !driverOk {
        return DatabaseError;
      }
      rows := rows + [checked.value];
      resp := Respond(Inserted);
    }

    /** The loop of fetch_users, reading the tuple positions at: the users list
        it builds, or the 500 response once a row raises. */
    method FetchRows(at: seq<nat>) returns (resp: Response)
      requires |at| == 6
      ensures resp == FetchResponse(rows, at)
    {
      var users: seq<Json> := [];
      var i := 0;
      while i < |rows|
        invariant 0 <= i <= |rows|
        invariant ProjectAll(rows[..i], at) == Ok(users)
      {
        assert rows[..i + 1][..i] == rows[..i];
        var user := ProjectRow(Selected(rows[i]), at);
        if user.Err? {
          PrefixErrorPropagates(rows, at, i + 1);
          return DatabaseError;
        }
        users := users + [user.value];
        i := i + 1;
      }
      assert rows[..i] == rows;
      resp := Response(200, JArray(users));
    }

    /** GET /fetch-users as written: it reads positions 1 to 6 of six-value
        tuples, so it answers 200 with [] for an empty table and 500 otherwise. */
    method FetchUsers() returns (resp: Response)
      ensures rows == [] ==> resp == Response(200, JArray([]))
      ensures rows != [] ==> resp == DatabaseError
    {
      resp := FetchRows(AsWritten);
      AsWrittenFetch(rows);
    }

    /** GET /fetch-users reading positions 0 to 5: every stored record, in
        insertion order, with dob rendered as YYYY-MM-DD. */
    method FetchUsersCorrected() returns (resp: Response)
      requires Valid()
      ensures resp == Response(200, JArray(Listing(rows)))
    {
      resp := FetchRows(Intended);
      IntendedFetchLists(rows);
    }
  }

  /** fetch_users only reads: two calls in a row give the same response. */
  method FetchIsRepeatable(t: UserTable) returns (first: Response, second: Response)
    ensures first == second
  {
    first := t.FetchUsers();
    second := t.FetchUsers();
  }
}
