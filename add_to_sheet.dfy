/**
 * The relay endpoint `POST /api/add-to-sheet`: it builds service-account credentials from the
 * environment, turns the posted record into one spreadsheet row, asks the spreadsheet service to
 * append it and answers with the outcome. The service call itself is a parameter.
 */
module AddToSheet {
  import opened Wrappers
  import opened Records

  /** A spreadsheet row; a sheet is the sequence of rows appended so far. */
  type Row = seq<string>

  /** The three environment variables the endpoint reads; an unset one is `None`. */
  datatype Env = Env(clientEmail: Option<string>, privateKey: Option<string>, sheetId: Option<string>)

  /** What the JWT client is built from: email, unescaped private key, scopes. */
  datatype Credentials = Credentials(email: Option<string>, key: string, scopes: seq<string>)

  /** The arguments of the `values.append` call. */
  datatype AppendRequest = AppendRequest(
    spreadsheetId: Option<string>,
    range: string,
    valueInputOption: string,
    values: seq<Row>)

  /** How the append call settles: it resolves, or it rejects with an error whose `message` may be undefined. */
  datatype AppendOutcome = Appended | AppendFailed(message: Option<string>)

  /** The JSON body of the reply; an undefined `error` is dropped when the body is serialised. */
  datatype ReplyBody = ReplyBody(success: bool, error: Option<string>)

  /**
   * The HTTP reply: the handler's own JSON, or the framework's error response when the handler
   * throws before its `try` (a body that is not JSON, or is JSON `null`).
   */
  datatype Reply = JsonReply(status: nat, body: ReplyBody) | UnhandledError

  const SpreadsheetsScope: string := "https://www.googleapis.com/auth/spreadsheets"
  const SheetRange: string := "Sheet1"
  const UserEntered: string := "USER_ENTERED"
  /** The status `NextResponse.json` uses when none is given. */
  const StatusOk: nat := 200
  const StatusServerError: nat := 500

  // ---------------------------------------------------------------------------------------------
  // The private key: `.replace(/\\n/g, '\n')`

  /** True when `s[i]` and `s[i + 1]` are a backslash and an `n`. */
  predicate EscapedNewlineAt(s: string, i: nat) {
    i + 1 < |s| && s[i] == '\\' && s[i + 1] == 'n'
  }

  /** Replaces every backslash-`n` pair by a newline, scanning left to right without overlap. */
  function UnescapeNewlines(s: string): (r: string)
    ensures |r| <= |s| <= 2 * |r|
    decreases |s|
  {
    if s == [] then []
    else if EscapedNewlineAt(s, 0) then "\n" + UnescapeNewlines(s[2..])
    else [s[0]] + UnescapeNewlines(s[1..])
  }

  /** The number of positions where a backslash-`n` pair starts, counted independently of the scan. */
  function EscapedNewlineCount(s: string): nat
    decreases |s|
  {
    if |s| < 2 then 0
    else (if EscapedNewlineAt(s, 0) then 1 else 0) + EscapedNewlineCount(s[1..])
  }

  predicate NoEscapedNewline(s: string) {
    forall i :: 0 <= i < |s| ==> !EscapedNewlineAt(s, i)
  }

  /** How a multi-line key is stored in one environment variable: each newline written as backslash-`n`. */
  function EscapeNewlines(s: string): string
    decreases |s|
  {
    if s == [] then []
    else if s[0] == '\n' then "\\n" + EscapeNewlines(s[1..])
    else [s[0]] + EscapeNewlines(s[1..])
  }

  /** Each replaced pair shortens the string by one; pairs never overlap, so every pair is replaced. */
  lemma {:induction false} UnescapeLength(s: string)
    ensures |UnescapeNewlines(s)| == |s| - EscapedNewlineCount(s)
    decreases |s|
  {
    if s == [] {
    } else if EscapedNewlineAt(s, 0) {
      UnescapeLength(s[2..]);
      // an `n` does not start a pair, so the count resumes two characters on
      assert !EscapedNewlineAt(s[1..], 0);
      assert s[1..][1..] == s[2..];
    } else {
      UnescapeLength(s[1..]);
    }
  }

  /** A string without backslash-`n` pairs is left alone. */
  lemma {:induction false} UnescapeIdentity(s: string)
    requires NoEscapedNewline(s)
    ensures UnescapeNewlines(s) == s
    decreases |s|
  {
    if s != [] {
      assert !EscapedNewlineAt(s, 0);
      assert NoEscapedNewline(s[1..]) by {
        forall i | 0 <= i < |s[1..]| ensures !EscapedNewlineAt(s[1..], i) {
          assert !EscapedNewlineAt(s, i + 1);
        }
      }
      UnescapeIdentity(s[1..]);
    }
  }

  /** The first character of the result: a newline for a leading pair, the first character otherwise. */
  lemma UnescapeHead(s: string)
    requires s != []
    ensures UnescapeNewlines(s) != []
    ensures UnescapeNewlines(s)[0] == if EscapedNewlineAt(s, 0) then '\n' else s[0]
  {
  }

  /** The result never contains a backslash-`n` pair: a kept backslash is never followed by an `n`. */
  lemma {:induction false} UnescapeLeavesNoPair(s: string)
    ensures NoEscapedNewline(UnescapeNewlines(s))
    decreases |s|
  {
    if s == [] {
    } else if EscapedNewlineAt(s, 0) {
      UnescapeLeavesNoPair(s[2..]);
      var r := UnescapeNewlines(s);
      assert r == "\n" + UnescapeNewlines(s[2..]);
      forall i | 0 <= i < |r| ensures !EscapedNewlineAt(r, i) {
        if i > 0 { assert !EscapedNewlineAt(UnescapeNewlines(s[2..]), i - 1); }
      }
    } else {
      UnescapeLeavesNoPair(s[1..]);
      var tail := UnescapeNewlines(s[1..]);
      var r := UnescapeNewlines(s);
      assert r == [s[0]] + tail;
      if s[0] == '\\' && tail != [] {
        UnescapeHead(s[1..]);
        assert tail[0] != 'n';
      }
      forall i | 0 <= i < |r| ensures !EscapedNewlineAt(r, i) {
        if i > 0 { assert !EscapedNewlineAt(tail, i - 1); }
      }
    }
  }

  /** Unescaping twice is unescaping once. */
  lemma UnescapeIdempotent(s: string)
    ensures UnescapeNewlines(UnescapeNewlines(s)) == UnescapeNewlines(s)
  {
    UnescapeLeavesNoPair(s);
    UnescapeIdentity(UnescapeNewlines(s));
  }

  /** A key without a literal backslash-`n` in it survives being escaped into the environment and read back. */
  lemma {:induction false} UnescapeEscape(s: string)
    requires NoEscapedNewline(s)
    ensures UnescapeNewlines(EscapeNewlines(s)) == s
    decreases |s|
  {
    if s != [] {
      assert NoEscapedNewline(s[1..]) by {
        forall i | 0 <= i < |s[1..]| ensures !EscapedNewlineAt(s[1..], i) {
          assert !EscapedNewlineAt(s, i + 1);
        }
      }
      UnescapeEscape(s[1..]);
      var e := EscapeNewlines(s[1..]);
      if s[0] == '\n' {
        assert EscapeNewlines(s) == "\\n" + e;
        assert ("\\n" + e)[2..] == e;
      } else {
        assert EscapeNewlines(s) == [s[0]] + e;
        if s[0] == '\\' && e != [] {
          // the next character is not an `n`, and an escaped newline starts with a backslash
          assert !EscapedNewlineAt(s, 0);
          assert s[1] != 'n';
          assert e[0] == (if s[1] == '\n' then '\\' else s[1]);
        }
        assert ([s[0]] + e)[1..] == e;
      }
    }
  }

  /** The three cases of the replacement: a plain pair, a pair after a backslash, and no pair. */
  lemma UnescapeExamples()
    ensures UnescapeNewlines("a\\nb") == "a\nb"
    ensures UnescapeNewlines("\\\\n") == "\\\n"
    ensures UnescapeNewlines("\\x") == "\\x"
  {
    assert "a\\nb"[1..] == "\\nb" && "\\nb"[2..] == "b";
    assert "\\\\n"[1..] == "\\n";
    assert "\\x"[1..] == "x";
  }

  /** A key stored with its newlines escaped unescapes to the key itself. */
  lemma EscapedKeyRecovered(s: string)
    ensures forall k :: NoEscapedNewline(k) && s == EscapeNewlines(k) ==> UnescapeNewlines(s) == k
  {
    forall k | NoEscapedNewline(k) && s == EscapeNewlines(k) ensures UnescapeNewlines(s) == k {
      UnescapeEscape(k);
    }
  }

  /**
   * `(process.env.GOOGLE_SHEETS_PRIVATE_KEY || '').replace(/\\n/g, '\n')`: a missing key reads as
   * empty; the key handed on holds no escaped newline, and a multi-line key stored with escaped
   * newlines comes back intact.
   */
  function SigningKey(raw: Option<string>): (key: string)
    ensures raw.None? ==> key == ""
    ensures raw.Some? ==> |key| == |raw.value| - EscapedNewlineCount(raw.value)
    ensures raw.Some? && NoEscapedNewline(raw.value) ==> key == raw.value
    ensures NoEscapedNewline(key)
    ensures forall k :: NoEscapedNewline(k) && raw == Some(EscapeNewlines(k)) ==> key == k
  {
    match raw
    case None => ""
    case Some(s) =>
      UnescapeLength(s);
      UnescapeLeavesNoPair(s);
      EscapedKeyRecovered(s);
      if NoEscapedNewline(s) then UnescapeIdentity(s); UnescapeNewlines(s)
      else UnescapeNewlines(s)
  }

  /**
   * The JWT client built from the environment: the configured email, the spreadsheets scope only,
   * and a key with real newlines: a multi-line key stored with escaped newlines reaches the client
   * intact, and an unset one reaches it empty.
   */
  function JwtCredentials(env: Env): (c: Credentials)
    ensures c.email == env.clientEmail && c.scopes == [SpreadsheetsScope]
    ensures c.key == SigningKey(env.privateKey)
    ensures NoEscapedNewline(c.key)
    ensures forall k :: NoEscapedNewline(k) && env.privateKey == Some(EscapeNewlines(k)) ==> c.key == k
    ensures env.privateKey.None? ==> c.key == ""
  {
    Credentials(env.clientEmail, SigningKey(env.privateKey), [SpreadsheetsScope])
  }

  // ---------------------------------------------------------------------------------------------
  // The row and the append request

  /** The row `[username, content, summary, sentiment, timestamp]`: five cells that read back as `rec`. */
  function RowOf(rec: AnalysisRecord): (row: Row)
    ensures |row| == 5
    ensures RecordOfRow(row) == Some(rec)
  {
    [rec.username, rec.content, rec.summary, rec.sentiment, rec.timestamp]
  }

  /** Reads a five-cell row back as a record, in the column order the endpoint writes. */
  function RecordOfRow(row: Row): (r: Option<AnalysisRecord>)
    ensures r.Some? <==> |row| == 5
  {
    if |row| == 5 then Some(AnalysisRecord(row[0], row[1], row[2], row[3], row[4])) else None
  }

  /** The append request: one row holding the five fields in order, on tab `Sheet1`, as user-entered values. */
  function BuildAppendRequest(sheetId: Option<string>, rec: AnalysisRecord): (req: AppendRequest)
    ensures req.spreadsheetId == sheetId
    ensures req.range == "Sheet1" && req.valueInputOption == "USER_ENTERED"
    ensures |req.values| == 1 && |req.values[0]| == 5
    ensures RecordOfRow(req.values[0]) == Some(rec)
  {
    AppendRequest(sheetId, SheetRange, UserEntered, [RowOf(rec)])
  }

  // ---------------------------------------------------------------------------------------------
  // The handler

  /**
   * `POST`: `body` is the parsed request body (`None` when `req.json()` or the destructuring
   * throws, which happens before the `try`), and `append` is the spreadsheet service.
   */
  function Post(env: Env, body: Option<AnalysisRecord>,
                append: (Credentials, AppendRequest) -> AppendOutcome): (reply: Reply)
    ensures body.None? <==> reply.UnhandledError?
    ensures reply.JsonReply? ==> (reply.body.success <==> reply.status == 200)
    ensures reply.JsonReply? ==>
      (reply.body.success <==> append(JwtCredentials(env), BuildAppendRequest(env.sheetId, body.value)).Appended?)
    ensures reply.JsonReply? && reply.body.success ==> reply.body.error == None
    ensures reply.JsonReply? && !reply.body.success ==>
      reply.status == 500 &&
      reply.body.error == append(JwtCredentials(env), BuildAppendRequest(env.sheetId, body.value)).message
  {
    match body
    case None => UnhandledError
    case Some(rec) =>
      match append(JwtCredentials(env), BuildAppendRequest(env.sheetId, rec))
      case Appended => JsonReply(StatusOk, ReplyBody(true, None))
      case AppendFailed(message) => JsonReply(StatusServerError, ReplyBody(false, message))
  }

  /**
   * The rows of the sheet after one request, for a service that adds the request's rows
   * exactly when the append resolves.
   */
  function SheetAfter(sheet: seq<Row>, env: Env, body: Option<AnalysisRecord>,
                      append: (Credentials, AppendRequest) -> AppendOutcome): (after: seq<Row>)
    ensures Post(env, body, append) == JsonReply(200, ReplyBody(true, None)) ==>
      after == sheet + [RowOf(body.value)]
    ensures Post(env, body, append) != JsonReply(200, ReplyBody(true, None)) ==> after == sheet
  {
    match body
    case None => sheet
    case Some(rec) =>
      var req := BuildAppendRequest(env.sheetId, rec);
      if append(JwtCredentials(env), req).Appended? then sheet + req.values else sheet
  }

  /**
   * The endpoint keeps nothing between requests: the same record posted twice, with the service
   * accepting it on each call (`first` and `second` are the service at those two calls), answers
   * success both times and leaves two identical rows.
   */
  lemma NoDeduplication(sheet: seq<Row>, env: Env, rec: AnalysisRecord,
                        first: (Credentials, AppendRequest) -> AppendOutcome,
                        second: (Credentials, AppendRequest) -> AppendOutcome)
    requires first(JwtCredentials(env), BuildAppendRequest(env.sheetId, rec)).Appended?
    requires second(JwtCredentials(env), BuildAppendRequest(env.sheetId, rec)).Appended?
    ensures var once := SheetAfter(sheet, env, Some(rec), first);
      SheetAfter(once, env, Some(rec), second) == sheet + [RowOf(rec), RowOf(rec)]
    ensures Post(env, Some(rec), first) == JsonReply(200, ReplyBody(true, None))
    ensures Post(env, Some(rec), second) == JsonReply(200, ReplyBody(true, None))
  {
    assert sheet + [RowOf(rec)] + [RowOf(rec)] == sheet + [RowOf(rec), RowOf(rec)];
  }
}
