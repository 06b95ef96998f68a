/** service/EmailUtilities.java: address-list splitting, error-message
    truncation, timeout classification and the EMAIL_LOG writes. The
    template-parameter flattening of the same class is in TemplateParams. */
module EmailUtilities {
  import opened JavaLang
  import opened EmailDtos
  import opened EmailLogs

  // ---------------------------------------------------------------------------
  // splitEmails

  /** `EmailResult`: the comma-joined address list and the errors found in it. */
  datatype EmailResult = EmailResult(emails: string, errors: seq<string>)

  /** The error reported for one address that fails the address check. */
  function InvalidEmailError(emailType: string, email: string): string {
    "Invalid email: (" + emailType + ") -> " + email
  }

  /** One error per piece that fails `isEmail`, in the order of the pieces. */
  function InvalidEntries(pieces: seq<string>, emailType: string, isEmail: string -> bool): seq<string> {
    if pieces == [] then []
    else
      var last := pieces[|pieces| - 1];
      InvalidEntries(pieces[..|pieces| - 1], emailType, isEmail)
        + (if isEmail(last) then [] else [InvalidEmailError(emailType, last)])
  }

  /** The errors are exactly the invalid pieces, named: every error names a
      piece that fails the check, every failing piece is named, and there are
      no errors exactly when every piece passes. */
  lemma {:induction false} InvalidEntriesExact(pieces: seq<string>, emailType: string, isEmail: string -> bool)
    ensures var errors := InvalidEntries(pieces, emailType, isEmail);
      && (forall e | e in errors :: exists p | p in pieces :: !isEmail(p) && e == InvalidEmailError(emailType, p))
      && (forall p | p in pieces && !isEmail(p) :: InvalidEmailError(emailType, p) in errors)
      && (errors == [] <==> forall p | p in pieces :: isEmail(p))
      && |errors| <= |pieces|
  {
    if pieces != [] {
      var init := pieces[..|pieces| - 1];
      InvalidEntriesExact(init, emailType, isEmail);
      assert pieces == init + [pieces[|pieces| - 1]];
    }
  }

  /** `splitEmails(emails, emailType)`: splits on ';' (Java semantics: trailing
      empty pieces dropped, nothing trimmed), reports every piece that fails
      the address check and re-joins the pieces with ','. */
  method SplitEmails(emails: string, emailType: string, isEmail: string -> bool) returns (r: EmailResult)
    ensures r.errors == InvalidEntries(Split(emails, ';'), emailType, isEmail)
    ensures r.errors == [] <==> forall p | p in Split(emails, ';') :: isEmail(p)
    ensures r.emails == Join(",", Split(emails, ';'))
    ensures r.emails == ReplaceChar(TrimTrailing(emails, ';'), ';', ',')
  {
    var pieces := Split(emails, ';');
    var errors: seq<string> := [];
    for i := 0 to |pieces|
      invariant errors == InvalidEntries(pieces[..i], emailType, isEmail)
    {
      assert pieces[..i + 1][..i] == pieces[..i];
      if !isEmail(pieces[i]) {
        errors := errors + [InvalidEmailError(emailType, pieces[i])];
      }
    }
    assert pieces[..|pieces|] == pieces;
    InvalidEntriesExact(pieces, emailType, isEmail);
    JoinSplit(emails, ';', ',');
    r := EmailResult(Join(",", pieces), errors);
  }

  // ---------------------------------------------------------------------------
  // truncateErrorMessage

  const MaxErrorLength: nat := 500
  const HeadLength: nat := 300
  const TruncationMarker: string := "... [truncated] ..."
  const CausedBy: string := "Caused by:"

  function Min(a: int, b: int): int {
    if a <= b then a else b
  }

  /** `truncateErrorMessage`: null stays null, a message of at most 500
      characters is kept, a longer one becomes its first 300 characters, the
      marker, and the tail that starts at its last "Caused by:". */
  function TruncateErrorMessage(message: Option<string>): (r: Option<string>)
    ensures r.None? <==> message.None?
    ensures message.Some? && |message.value| <= MaxErrorLength ==> r == message
    ensures message.Some? && |message.value| > MaxErrorLength ==>
      && HeadLength + |TruncationMarker| <= |r.value| <= HeadLength + |TruncationMarker| + 200
      && r.value[..HeadLength] == message.value[..HeadLength]
      && r.value[HeadLength..HeadLength + |TruncationMarker|] == TruncationMarker
  {
    match message
    case None => None
    case Some(m) =>
      if |m| <= MaxErrorLength then message
      else
        var idx := LastIndexOf(m, CausedBy);
        var rootCause := if idx != -1 && idx < |m| - 100 then m[idx..Min(idx + 200, |m|)] else "";
        Some(m[..HeadLength] + TruncationMarker + rootCause)
  }

  /** The part kept after the marker of a truncated message: empty unless the
      last "Caused by:" starts more than 100 characters before the end; then it
      is the 101 to 200 characters starting there. */
  lemma TruncatedTail(m: string)
    requires |m| > MaxErrorLength
    ensures var tail := TruncateErrorMessage(Some(m)).value[HeadLength + |TruncationMarker|..];
      && (tail == "" <==> forall i | 0 <= i < |m| - 100 && OccursAt(m, CausedBy, i) ::
                            exists j | i < j <= |m| - |CausedBy| :: OccursAt(m, CausedBy, j))
      && (tail != "" ==>
            && 100 < |tail| <= 200
            && tail[..|CausedBy|] == CausedBy
            && exists i | 0 <= i < |m| - 100 ::
                 && OccursAt(m, CausedBy, i)
                 && (forall j | i < j <= |m| - |CausedBy| :: !OccursAt(m, CausedBy, j))
                 && tail == m[i..Min(i + 200, |m|)])
  {
    var idx := LastIndexOf(m, CausedBy);
    var r := TruncateErrorMessage(Some(m)).value;
    var tail := r[HeadLength + |TruncationMarker|..];
    if idx != -1 && idx < |m| - 100 {
      assert tail == m[idx..Min(idx + 200, |m|)];
      assert tail[..|CausedBy|] == m[idx..idx + |CausedBy|];
    } else {
      assert tail == "";
      forall i | 0 <= i < |m| - 100 && OccursAt(m, CausedBy, i)
        ensures exists j | i < j <= |m| - |CausedBy| :: OccursAt(m, CausedBy, j)
      {
        assert idx != -1;
        assert OccursAt(m, CausedBy, idx) && i < idx;
      }
    }
  }

  // ---------------------------------------------------------------------------
  // checkTimeout

  /** A message whose lower-cased text contains one of the timeout or
      connectivity signatures. */
  predicate SignalsTimeout(message: Option<string>) {
    message.Some? &&
      var lower := ToLowerCase(message.value);
      || Contains(lower, "timeout")
      || Contains(lower, "timed out")
      || Contains(lower, "connection refused")
      || Contains(lower, "no route to host")
  }

  /** A cause that marks the failure as a timeout: a timeout exception class or
      a timeout signature in its message. */
  predicate IsTimeoutCause(t: Throwable) {
    t.kind == SocketTimeout || t.kind == ConnectTimeout || SignalsTimeout(t.message)
  }

  /** The classification checkTimeout computes: some cause strictly below the
      thrown exception is a timeout cause, or the thrown exception's own message
      carries a signature. The thrown exception's own class is never looked at. */
  predicate IsTimeout(e: Exception) {
    (exists i | 0 <= i < |e.causes| :: IsTimeoutCause(e.causes[i])) || SignalsTimeout(e.top.message)
  }

  /** `checkTimeout(e)`: walks the cause chain, then looks at e's own message. */
  method CheckTimeout(e: Exception) returns (timeout: bool)
    ensures timeout <==> IsTimeout(e)
  {
    var i := 0;
    while i < |e.causes|
      invariant 0 <= i <= |e.causes|
      invariant forall k | 0 <= k < i :: !IsTimeoutCause(e.causes[k])
    {
      var cause := e.causes[i];
      if cause.kind == SocketTimeout || cause.kind == ConnectTimeout || SignalsTimeout(cause.message) {
        return true;
      }
      i := i + 1;
    }
    timeout := SignalsTimeout(e.top.message);
  }

  // ---------------------------------------------------------------------------
  // EMAIL_LOG writes

  /** What a log write takes from its surroundings: the request as serialised
      by Jackson, the trace id found in the MDC, and `LocalDateTime.now()`. */
  datatype LogContext = LogContext(json: string, traceId: Option<string>, now: int)

  /** The failure saveErrorLog records. */
  datatype ErrorReport = ErrorReport(status: EmailStatus, httpCode: string, errorCode: string, message: Option<string>)

  /** The row insertLog creates. */
  function PendingLog(dto: EmailRequest, emailId: Option<string>, retries: int, ctx: LogContext): EmailLog {
    EmptyLog.(emailId := emailId, emailType := dto.emailType, numberOfRetries := Some(retries),
              status := Some(PENDING), templateId := dto.templateName, jsonInput := Some(ctx.json),
              requestId := ctx.traceId, createdDate := Some(ctx.now), lastUpdatedDate := Some(ctx.now))
  }

  /** The fields saveSuccessLog sets on the row it found. */
  function SuccessUpdate(row: EmailLog, dto: EmailRequest, retries: int, ctx: LogContext): EmailLog {
    row.(status := Some(SUCCESS), emailType := dto.emailType, templateId := dto.templateName,
         numberOfRetries := Some(retries), jsonInput := Some(ctx.json), requestId := ctx.traceId,
         lastSend := Some(ctx.now), lastUpdatedDate := Some(ctx.now))
  }

  /** The fields setupErrorLog sets. */
  function ErrorUpdate(row: EmailLog, dto: EmailRequest, retries: int, report: ErrorReport, ctx: LogContext): EmailLog {
    row.(status := Some(report.status), emailType := dto.emailType, templateId := dto.templateName,
         numberOfRetries := Some(retries), httpCode := Some(report.httpCode), errorCode := Some(report.errorCode),
         errorMessage := TruncateErrorMessage(report.message), jsonInput := Some(ctx.json),
         requestId := ctx.traceId, lastSend := Some(ctx.now), lastUpdatedDate := Some(ctx.now))
  }

  /** The row saveErrorLog creates when no row carries the id. */
  function CreatedErrorLog(dto: EmailRequest, emailId: Option<string>, retries: int, report: ErrorReport, ctx: LogContext): EmailLog {
    ErrorUpdate(EmptyLog.(emailId := emailId, status := Some(report.status), createdDate := Some(ctx.now)),
                dto, retries, report, ctx)
  }

  /** The table after saveSuccessLog. */
  function SuccessLogged(rows: seq<EmailLog>, dto: EmailRequest, emailId: Option<string>, retries: int, ctx: LogContext): seq<EmailLog> {
    match Newest(rows, emailId)
    case None => rows
    case Some(i) => rows[i := SuccessUpdate(rows[i], dto, retries, ctx)]
  }

  /** The table after saveErrorLog. */
  function ErrorLogged(rows: seq<EmailLog>, dto: EmailRequest, emailId: Option<string>, retries: int,
                       report: ErrorReport, ctx: LogContext): seq<EmailLog> {
    match Newest(rows, emailId)
    case None => rows + [CreatedErrorLog(dto, emailId, retries, report, ctx)]
    case Some(i) => rows[i := ErrorUpdate(rows[i], dto, retries, report, ctx)]
  }

  /** `insertLog`: a new PENDING row. */
  method InsertLog(repo: EmailLogRepository, dto: EmailRequest, emailId: Option<string>, retries: int, ctx: LogContext)
    modifies repo
    ensures repo.rows == old(repo.rows) + [PendingLog(dto, emailId, retries, ctx)]
  {
    repo.Insert(PendingLog(dto, emailId, retries, ctx));
  }

  /** `saveSuccessLog`: marks the newest row of the id SUCCESS; when there is
      none, `getFirst` throws, the handler only logs, and nothing is written. */
  method SaveSuccessLog(repo: EmailLogRepository, dto: EmailRequest, emailId: Option<string>, retries: int, ctx: LogContext)
    modifies repo
    ensures repo.rows == SuccessLogged(old(repo.rows), dto, emailId, retries, ctx)
  {
    var first := repo.FindNewest(emailId);
    if first.None? {
      return;
    }
    var row := repo.rows[first.value];
    repo.Update(first.value, SuccessUpdate(row, dto, retries, ctx));
  }

  /** `setupErrorLog`: fills in the failure and saves `row`, as a new row when
      `at` is None, over row `at` otherwise. */
  method SetupErrorLog(repo: EmailLogRepository, dto: EmailRequest, retries: int, report: ErrorReport,
                       row: EmailLog, at: Option<nat>, ctx: LogContext)
    requires at.Some? ==> at.value < |repo.rows|
    modifies repo
    ensures at.None? ==> repo.rows == old(repo.rows) + [ErrorUpdate(row, dto, retries, report, ctx)]
    ensures at.Some? ==> repo.rows == old(repo.rows)[at.value := ErrorUpdate(row, dto, retries, report, ctx)]
  {
    var updated := ErrorUpdate(row, dto, retries, report, ctx);
    if at.None? {
      repo.Insert(updated);
    } else {
      repo.Update(at.value, updated);
    }
  }

  /** `saveErrorLog`: records the failure on the newest row of the id, or on a
      new row when there is none. */
  method SaveErrorLog(repo: EmailLogRepository, dto: EmailRequest, emailId: Option<string>, retries: int,
                      report: ErrorReport, ctx: LogContext)
    modifies repo
    ensures repo.rows == ErrorLogged(old(repo.rows), dto, emailId, retries, report, ctx)
  {
    var first := repo.FindNewest(emailId);
    if first.None? {
      var row := EmptyLog.(emailId := emailId, status := Some(report.status), createdDate := Some(ctx.now));
      SetupErrorLog(repo, dto, retries, report, row, None, ctx);
    } else {
      SetupErrorLog(repo, dto, retries, report, repo.rows[first.value], first, ctx);
    }
  }

  /** After saveErrorLog the failure is what a later lookup of the id finds:
      exactly one row is created when none carried the id, otherwise only the
      newest row changes and no row is added. */
  lemma ErrorLoggedVisible(rows: seq<EmailLog>, dto: EmailRequest, emailId: Option<string>, retries: int,
                           report: ErrorReport, ctx: LogContext)
    requires emailId.Some?
    ensures var r := ErrorLogged(rows, dto, emailId, retries, report, ctx);
      var before := Newest(rows, emailId);
      && |r| == |rows| + (if before.None? then 1 else 0)
      && (forall j | 0 <= j < |rows| && before != Some(j) :: r[j] == rows[j])
      && Newest(r, emailId).Some?
      && (before.Some? ==> Newest(r, emailId) == before)
      && var row := r[Newest(r, emailId).value];
      && row.emailId == emailId
      && row.status == Some(report.status)
      && row.httpCode == Some(report.httpCode)
      && row.errorCode == Some(report.errorCode)
      && row.errorMessage == TruncateErrorMessage(report.message)
      && row.numberOfRetries == Some(retries)
  {
    var r := ErrorLogged(rows, dto, emailId, retries, report, ctx);
    match Newest(rows, emailId)
    case None =>
      assert r[..|rows|] == rows;
    case Some(i) =>
      NewestStable(rows, i, ErrorUpdate(rows[i], dto, retries, report, ctx), emailId);
  }

  /** After saveSuccessLog the newest row of the id, if there is one, reads
      SUCCESS with the given retry count; with no row nothing is written. */
  lemma SuccessLoggedVisible(rows: seq<EmailLog>, dto: EmailRequest, emailId: Option<string>, retries: int, ctx: LogContext)
    ensures var r := SuccessLogged(rows, dto, emailId, retries, ctx);
      && |r| == |rows|
      && Newest(r, emailId) == Newest(rows, emailId)
      && (Newest(rows, emailId).None? ==> r == rows)
      && (Newest(rows, emailId).Some? ==>
            var i := Newest(rows, emailId).value;
            && r[i].status == Some(SUCCESS)
            && r[i].numberOfRetries == Some(retries)
            && r[i].lastSend == Some(ctx.now)
            && r[i].httpCode == rows[i].httpCode
            && forall j | 0 <= j < |rows| && j != i :: r[j] == rows[j])
  {
    if Newest(rows, emailId).Some? {
      var i := Newest(rows, emailId).value;
      NewestStable(rows, i, SuccessUpdate(rows[i], dto, retries, ctx), emailId);
    }
  }

  /** Replaying saveSuccessLog with the same arguments changes nothing more. */
  lemma SuccessLoggedIdempotent(rows: seq<EmailLog>, dto: EmailRequest, emailId: Option<string>, retries: int, ctx: LogContext)
    ensures var once := SuccessLogged(rows, dto, emailId, retries, ctx);
      SuccessLogged(once, dto, emailId, retries, ctx) == once
  {
    SuccessLoggedVisible(rows, dto, emailId, retries, ctx);
  }

  /** Two saveErrorLog calls for the same id in a row, each reading the clock
      itself, leave the table as the second call alone would, except that a
      row the first call had to create keeps the first call's createdDate. */
  lemma ErrorLogOverwritten(rows: seq<EmailLog>, dto: EmailRequest, emailId: Option<string>, retries: int,
                            first: ErrorReport, second: ErrorReport, ctx1: LogContext, ctx2: LogContext)
    requires emailId.Some?
    ensures var twice := ErrorLogged(ErrorLogged(rows, dto, emailId, retries, first, ctx1), dto, emailId, retries, second, ctx2);
      var once := ErrorLogged(rows, dto, emailId, retries, second, ctx2);
      && |twice| == |once|
      && if Newest(rows, emailId).None? then
           && |once| == |rows| + 1
           && twice == once[|rows| := once[|rows|].(createdDate := Some(ctx1.now))]
         else twice == once
  {
    var mid := ErrorLogged(rows, dto, emailId, retries, first, ctx1);
    ErrorLoggedVisible(rows, dto, emailId, retries, first, ctx1);
    match Newest(rows, emailId)
    case None =>
      assert Newest(mid, emailId) == Some(|rows|);
    case Some(i) =>
      assert Newest(mid, emailId) == Some(i);
  }
}
