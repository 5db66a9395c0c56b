# QuickForm backend: submit-form validation and fetch-users projection

This project models the two request handlers of `flask_for_backend/app.py`, a
Flask service over one MySQL table `users`:

- **POST /submit-form** (`submit_form`) reads six optional fields from the JSON
  body. It then runs three checks in a fixed order and stops at the first one
  that fails: all six present and non-empty, the email matching
  `^\S+@\S+\.\S+$`, and the dob parsing with `datetime.strptime(dob, '%Y-%m-%d')`.
  Only then does it insert one row `(full_name, email, country_code, phone, dob,
  gender)` and answer 200. Each failed check has its own 400 message, and a
  database failure answers 500.
- **GET /fetch-users** (`fetch_users`) selects six columns of every row and is
  meant to build one JSON object per row. As written it reads tuple positions 1
  to 6, so it raises on the first row and answers 500 (see Findings).

Layout:

- `wrappers.dfy` (`Wrappers`): `Option`, and `Result` usable with `:-`. `Result`
  stands for Python exceptions.
- `email.dfy` (`EmailPattern`): the `re.match` email check. `\S` is Python's
  `str.isspace` complement. `$` also matches before one final newline.
  `EmailShapeOk` decides the check without backtracking. `EmailSpec` states the
  pattern's language directly, and the two are proved equal.
- `dob.dfy` (`DobFormat`): the `strptime` check, following CPython's own token
  patterns. The year is exactly four digits. The month is `1[0-2]|0[1-9]|[1-9]`.
  The day is `3[01]|[12]\d|0[1-9]|[1-9]| [1-9]`, and no text may follow it. The
  parsed date must then exist on the Gregorian calendar, with year 1 to 9999.
  The module also holds the `strftime('%Y-%m-%d')` rendering. `DateShapeOk` is
  proved equal to `DateSpec`, the set of spellings of valid dates, and
  rendering then parsing is proved to give back the same date.
- `users.dfy` (`Users`): the payload, the row, the outcomes and their responses,
  and the validation chain `Validate`. It also holds the class `UserTable`,
  whose `rows` field is the table. `Submit` appends exactly one row or none.
  `FetchRows` is the projection loop, with its invariant. `FetchUsers` is the
  handler as written, and `FetchUsersCorrected` reads the intended positions.

The code is looser than it may look, and the model follows the code:

- the email pattern accepts several `@` and `.`, not exactly one of each;
- `strptime` also accepts one-digit months and days, and a space-padded day
  (`2024-1-5`, `2024-01- 5`);
- the SELECT names six columns, with no identifier column at position 0, so the
  loop's reads of positions 1 to 6 are off by one.

## Model

| member | source | states |
|---|---|---|
| EmailPattern.IsSpace | flask_for_backend/app.py:61 | a definition: the characters `str.isspace` accepts, which `\S` excludes |
| EmailPattern.EmailShapeOk | flask_for_backend/app.py:61-62 | the email check: after dropping one final newline, the text has no whitespace, and the first '@' after the first character comes at least two positions before the last '.' before the last character. An accepted email has at least five characters, an '@' and a '.', and does not start with whitespace |
| EmailPattern.EmailShapeOkIff | flask_for_backend/app.py:61-62 | the email check passes exactly for the strings in the language of `^\S+@\S+\.\S+$` under `re.match`: no whitespace (a single final newline aside), an '@' after at least one character, and a later '.' with text between and after |
| EmailPattern.InternalSpaceRejected | flask_for_backend/app.py:61-62 | any whitespace character other than one final newline makes the email fail |
| EmailPattern.MissingSeparatorsRejected | flask_for_backend/app.py:61-62 | an email with no '@' (after the first character) followed by a '.' with text between and after fails |
| EmailPattern.PlainAddressAccepted | flask_for_backend/app.py:61 | `jane@example.com` passes |
| EmailPattern.TrailingNewlineAccepted | flask_for_backend/app.py:61 | `jane@example.com` followed by a newline passes, because `$` matches before a final newline |
| EmailPattern.LeadingAtAccepted | flask_for_backend/app.py:61 | `@a@b.c` passes, because `\S` also matches '@' |
| EmailPattern.NoTopLevelRejected | flask_for_backend/app.py:61-62 | `jane@example.` fails, because nothing follows the '.' |
| EmailPattern.NoAtRejected | flask_for_backend/app.py:61-62 | `not-an-email` fails |
| EmailPattern.InnerSpaceExample | flask_for_backend/app.py:61-62 | `ja ne@example.com` fails |
| EmailPattern.FirstIndex | flask_for_backend/app.py:61 | the result is the first position holding the character, or none when the character is absent |
| EmailPattern.LastIndex | flask_for_backend/app.py:61 | the result is the last position holding the character, or none when the character is absent |
| DobFormat.IsLeap | flask_for_backend/app.py:66 | a definition: the Gregorian leap-year rule `date()` applies |
| DobFormat.DaysInMonth | flask_for_backend/app.py:66 | the length of a month: 28 to 31 days, 29 only for February of a leap year, and 31 exactly for January, March, May, July, August, October and December |
| DobFormat.ValidDate | flask_for_backend/app.py:66 | a definition: the triples `date(year, month, day)` accepts, with year 1 to 9999, so year 0 and `2023-02-29` are refused |
| DobFormat.MatchMonth | flask_for_backend/app.py:66 | the `%m` group (`1[0-2]`, else `0[1-9]`, else `[1-9]`) followed by '-', with the alternatives tried in order and backtracking to the next when no '-' follows; a match is one or two characters, followed by '-', and gives a month from 1 to 12 |
| DobFormat.MatchDay | flask_for_backend/app.py:66 | the `%d` group (`3[01]`, else `[12]\d`, else `0[1-9]`, else `[1-9]`, else a space and `[1-9]`), taking the first alternative that matches and then refusing any text left over; a match is one or two characters and gives a day from 1 to 31 |
| DobFormat.ParseDob | flask_for_backend/app.py:66 | the regex stage of `strptime`: four digits, '-', the month, '-', the day, and nothing else; a parse gives a year from 0 to 9999, a month from 1 to 12 and a day from 1 to 31, from a text of 8 to 10 characters with '-' at position 4 |
| DobFormat.DateShapeOk | flask_for_backend/app.py:65-68 | `strptime` returns instead of raising ValueError: the text parses and the date exists. An accepted text has 8 to 10 characters, starts with a digit, has '-' at position 4 and does not end in a newline |
| DobFormat.FormatDate | flask_for_backend/app.py:37 | `strftime('%Y-%m-%d')`: ten characters, '-' at positions 4 and 7 and a digit everywhere else |
| DobFormat.DateShapeOkIff | flask_for_backend/app.py:65-68 | `strptime(dob, '%Y-%m-%d')` succeeds exactly when dob spells a valid Gregorian date: a four-digit year from 1 to 9999, a month in 1..12 (two digits, or one when below 10), and a day within the month's length (two digits, or one digit, or a space and a digit when below 10) |
| DobFormat.ParseSpelling | flask_for_backend/app.py:66 | every spelling of a valid date parses back to that date |
| DobFormat.ParsedIsSpelling | flask_for_backend/app.py:66 | whatever text parses to a valid date is one of that date's spellings |
| DobFormat.FormatParseRoundTrip | flask_for_backend/app.py:66 | the `%Y-%m-%d` rendering of every valid date passes the check and parses back to the same date |
| DobFormat.AcceptedNormalizes | flask_for_backend/app.py:66 | an accepted dob and its YYYY-MM-DD rendering parse to the same date |
| DobFormat.FebruaryLeapDay | flask_for_backend/app.py:66 | 29 February exists exactly in Gregorian leap years |
| DobFormat.AcceptedExamples | flask_for_backend/app.py:65-68 | `1990-05-10`, `2024-02-29`, `2024-1-5` and `2024-01- 5` pass |
| DobFormat.RejectedExamples | flask_for_backend/app.py:65-68 | `2023-02-29`, `2024-13-40`, `13-01-2024`, `0000-01-01` and a date with a trailing newline fail |
| DobFormat.DigitsAreYear4 | flask_for_backend/app.py:66 | four digits are the `%Y` rendering of the year they spell |
| Users.Respond | flask_for_backend/app.py:57-85 | status 200 exactly for an insert, 400 exactly for the three validation failures, and 500 exactly for a database error; the body is `{"error": "Missing required fields"}`, `{"error": "Invalid email format"}`, `{"error": "Invalid DOB format. Use YYYY-MM-DD"}`, `{"message": "Data inserted successfully"}` or `{"error": "Database error"}` respectively |
| Users.Truthy | flask_for_backend/app.py:57 | a definition: Python truthiness of a field, where None and the empty string are falsy |
| Users.AllPresent | flask_for_backend/app.py:57 | a definition: `all([...])` over the six fields |
| Users.Validate | flask_for_backend/app.py:49-68 | a missing or empty field gives MissingFields. Otherwise an email outside the pattern's language gives InvalidEmail. Otherwise a dob that is not a valid date gives InvalidDob. Otherwise the row is the six submitted values in column order, unchanged. Every accepted row is well formed |
| Users.SubmitOutcome | flask_for_backend/app.py:57-85 | a missing or empty field gives MissingFields. Otherwise an email outside the pattern's language gives InvalidEmail. Otherwise a dob that spells no valid date gives InvalidDob. Only a payload that passes all three reaches the driver: Inserted when it succeeds, DbError when it fails |
| Users.ChecksShortCircuit | flask_for_backend/app.py:57-68 | presence is checked before the email and the email before the dob; e.g. a missing field with a bad email gives MissingFields, and a bad email with a bad dob gives InvalidEmail |
| Users.InsertedIff | flask_for_backend/app.py:57-81 | a submission is inserted exactly when the driver succeeds and all three checks pass |
| Users.UserTable.Submit | flask_for_backend/app.py:47-85 | the response matches the outcome. On Inserted exactly one row is appended: the payload's values in column order, with earlier rows untouched. On every other outcome the table is unchanged. Every stored row stays well formed |
| Users.StoredDate | flask_for_backend/app.py:26-27 | the DATE column of a row whose dob passed the check holds a date whose `%Y-%m-%d` rendering passes the check again and reads as the same date as the submitted text. A dob that fails the check would be NULL, which is falsy, and only rows the model never stores reach it |
| Users.Selected | flask_for_backend/app.py:26-27 | the SELECT yields a six-value tuple per row: text at positions 0 to 3 and 5, and at position 4, for every stored row, the date its dob text spells. It is listed in canonical form, so `2024-1-5` comes back as `2024-01-05` |
| Users.Item | flask_for_backend/app.py:33-38 | `row[k]` gives the value at k when k is within the tuple, and raises IndexError otherwise |
| Users.IsTruthy | flask_for_backend/app.py:37 | a definition: the `if row[5]` test, where the empty string and None are falsy and a date is truthy |
| Users.Strftime | flask_for_backend/app.py:37 | `.strftime('%Y-%m-%d')` succeeds exactly on a date, and raises AttributeError on anything else; its text passes the date check and reads back as that date |
| Users.ProjectRow | flask_for_backend/app.py:32-39 | the dict display, evaluated left to right: a missing position 0 raises IndexError before anything else. With positions 0 to 4 present, a truthy dob value that is not a date raises AttributeError. A built object has the six keys in the source's order |
| Users.ProjectAll | flask_for_backend/app.py:30-39 | the loop over the fetched rows: on success the list has one entry per row, and entry k is the projection of row k |
| Users.ProjectAllRaises | flask_for_backend/app.py:30-45 | the loop raises only when the projection of some row raises |
| Users.FetchResponse | flask_for_backend/app.py:30-45 | 200 exactly when no row's projection raises, with an array whose entry k is the projection of row k; otherwise the 500 `{"error": "Database error"}` |
| Users.UserTable.FetchRows | flask_for_backend/app.py:30-45 | the loop returns 200 with the list of projected rows, or 500 once a row raises, as the projection function defines them |
| Users.PrefixErrorPropagates | flask_for_backend/app.py:30-45 | once a prefix of the rows raises, the whole loop raises |
| Users.AsWrittenRowRaises | flask_for_backend/app.py:32-38 | reading positions 1 to 6 of a six-value tuple always raises |
| Users.AsWrittenFetch | flask_for_backend/app.py:26-45 | with positions 1 to 6, an empty table gives 200 with [] and any other table gives 500 with `{"error": "Database error"}` |
| Users.UserTable.FetchUsers | flask_for_backend/app.py:22-45 | the handler as written answers 200 with [] for an empty table and 500 otherwise |
| Users.UserObject | flask_for_backend/app.py:32-39 | the object the corrected loop builds from a stored row: six fields, the dob field a text that passes the date check and parses to the same date as the stored dob |
| Users.Listing | flask_for_backend/app.py:30-39 | the corrected listing has one record per stored row |
| Users.ListingItems | flask_for_backend/app.py:30-39 | the k-th record of the corrected listing is the record of the k-th stored row |
| Users.IntendedRow | flask_for_backend/app.py:32-38 | reading positions 0 to 5 of a stored row's tuple gives the record of its six values, with dob rendered as YYYY-MM-DD |
| Users.IntendedFetchLists | flask_for_backend/app.py:30-39 | reading positions 0 to 5, the loop lists every stored row, in the order the rows are read |
| Users.UserTable.FetchUsersCorrected | flask_for_backend/app.py:26-41 | the corrected handler answers 200 with one record per stored row, in insertion order (see Left out) |
| Users.FetchAfterInsert | flask_for_backend/app.py:26-41 | after a row is appended, the corrected fetch lists the earlier records followed by the new one, taking rows to come back in insertion order |
| Users.InsertedRecord | flask_for_backend/app.py:70-77 | the record the corrected fetch lists for an accepted submission carries the submitted values under the column names. Its dob parses to the same date as the submitted text, and equals that text when it is already in YYYY-MM-DD form |
| Users.JaneDoeValidates | flask_for_backend/app.py:49-81 | the Jane Doe form passes every check and is inserted as its six values |
| Users.JaneDoeListed | flask_for_backend/app.py:26-41 | once inserted, the Jane Doe row is listed back by the corrected fetch with exactly the submitted values (the handler as written answers 500) |
| Users.FetchIsRepeatable | flask_for_backend/app.py:22-41 | fetch-users changes nothing, so two calls in a row give the same response |

## Findings

| source | as written | input that shows it | evidently intended | confidence | as-written member | corrected member |
|---|---|---|---|---|---|---|
| flask_for_backend/app.py:33-38 | the loop reads `row[1]` to `row[6]` of the six-value tuple from the SELECT at line 26. `row[5]` is gender, so `.strftime` raises, and `row[6]` does not exist | any non-empty table, e.g. after the Jane Doe submission: fetch-users answers 500 | read `row[0]` to `row[5]` and list every record | high; not executed | Users.UserTable.FetchUsers | Users.UserTable.FetchUsersCorrected |

## Left out

- Flask plumbing is left out: app construction, CORS, route registration and `app.run`. None of it holds logic.
- JSON serialization by `jsonify` is left out. That covers key sorting, the text of a date value, and the headers. Responses are modelled as a status and a JSON value.
- The MySQL connection, cursors and `commit` are left out. The table is the `rows` field of `UserTable`.
- A driver failure during the insert is the `driverOk` parameter of `Submit`. After a failure the table is unchanged. A row left pending when `execute` succeeds and `commit` fails is not modelled.
- A failure of the SELECT in `fetch_users` is left out, because the model's read of `rows` cannot fail. The 500 branch is still reached through the projection's exceptions.
- The DATE column is assumed to hold the calendar date that `strptime` reads from the submitted text. The database's own date parsing is not modelled.
- The `print` logging of errors is left out. It is diagnostic output only.
- Request bodies that are not JSON objects are left out. A malformed JSON body makes `request.get_json()` raise at app.py:49, and Flask answers 400 (415 when the Content-Type is not JSON). A JSON body that is not an object (a list, a number, `null`) makes `data.get` raise, which Flask answers with 500.
- Field values that are not strings are left out, and the payload is restricted to string-or-absent fields. A falsy non-string value (`0`, `false`, `[]`, `{}`) fails the presence check and gives the 400 "Missing required fields". A truthy non-string `fullname`, `code`, `phonenumber` or `gender` passes every check and is handed to the driver for the insert. A truthy non-string `email` or `dob` makes `re.match` or `strptime` raise TypeError, which no handler catches, so Flask answers 500.
- `DobFormat.ParseDob`: `\d` in CPython's year and day patterns also matches non-ASCII decimal digits. The model accepts ASCII digits only.
- `DobFormat.FormatDate`: the year is always rendered as four zero-padded digits. Some Python versions delegate to a C library that does not pad years below 1000.
- Users.FetchUsersCorrected: the SELECT has no ORDER BY, so MySQL may return the rows in any order. The model assumes they come back in insertion order.
- Users.IntendedFetchLists: the listing follows the order of `rows`, which stands for the order the SELECT returns, assumed to be insertion order.
- Users.FetchAfterInsert: the new record is listed last only under that insertion-order assumption. The model does not state where the new record would appear in any other order.
- Concurrency and connection sharing across requests are left out. The source has no coordination logic.
