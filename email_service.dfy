/** service/EmailService.java: request validation, template choice and the
    sendEmail orchestration over the claim procedures, the mail transport and
    the EMAIL_LOG writes. */
module EmailService {
  import opened JavaLang
  import opened EmailDtos
  import opened EmailLogs
  import opened EmailUtilities

  // ---------------------------------------------------------------------------
  // validateEmails

  /** The errors one receiver, CC or BCC value yields: a list containing ';'
      is checked piece by piece, any other value whole. */
  function AddressErrors(value: string, emailType: string, fieldName: string, isEmail: string -> bool): seq<string> {
    if ';' in value then InvalidEntries(Split(value, ';'), emailType, isEmail)
    else if isEmail(value) then []
    else ["Invalid " + fieldName + " email: " + value]
  }

  /** The value written back into the request: a ';'-separated list becomes
      splitEmails' comma-separated form, any other value is kept. */
  function Canonical(value: string): string {
    if ';' in value then ReplaceChar(TrimTrailing(value, ';'), ';', ',') else value
  }

  /** A nullable address field after validation. */
  function Rewrite(field: Option<string>): Option<string> {
    if NullOrEmpty(field) then field else Some(Canonical(field.value))
  }

  /** The errors validateEmails collects and the request it leaves behind. */
  datatype Validation = Validation(errors: seq<string>, request: EmailRequest)

  /** The sender check. */
  function SenderErrors(sender: Option<string>, isEmail: string -> bool): seq<string> {
    if NullOrEmpty(sender) then ["Sender email is required"]
    else if !isEmail(sender.value) then ["Invalid sender email: " + sender.value]
    else []
  }

  /** The receiver check: the receiver is required. */
  function ReceiverErrors(receiver: Option<string>, isEmail: string -> bool): seq<string> {
    if NullOrEmpty(receiver) then ["Receiver email is required"]
    else AddressErrors(receiver.value, "RECEIVER", "receiver", isEmail)
  }

  /** The CC or BCC check: an absent list is not an error. */
  function OptionalErrors(field: Option<string>, emailType: string, fieldName: string, isEmail: string -> bool): seq<string> {
    if NullOrEmpty(field) then [] else AddressErrors(field.value, emailType, fieldName, isEmail)
  }

  /** validateEmails: subject, sender, receiver, CC and BCC are checked in this
      order and every violation is kept. */
  function Validate(req: EmailRequest, isEmail: string -> bool): Validation {
    var subjectErrors := if NullOrEmpty(req.subject) then ["Email subject is required"] else [];
    Validation(subjectErrors + SenderErrors(req.sender, isEmail) + ReceiverErrors(req.receiver, isEmail)
                 + OptionalErrors(req.cc, "CC", "CC", isEmail) + OptionalErrors(req.bcc, "BCC", "BCC", isEmail),
               req.(receiver := Rewrite(req.receiver), cc := Rewrite(req.cc), bcc := Rewrite(req.bcc)))
  }

  /** Every ';'-separated piece of an address field is an address (for a value
      without ';' the one piece is the value itself). */
  predicate AddressesValid(value: string, isEmail: string -> bool) {
    forall p | p in Split(value, ';') :: isEmail(p)
  }

  /** A request the mail may be sent for: subject, sender and receiver present,
      every address valid, CC and BCC absent or valid. */
  predicate Acceptable(req: EmailRequest, isEmail: string -> bool) {
    && !NullOrEmpty(req.subject)
    && !NullOrEmpty(req.sender) && isEmail(req.sender.value)
    && !NullOrEmpty(req.receiver) && AddressesValid(req.receiver.value, isEmail)
    && (NullOrEmpty(req.cc) || AddressesValid(req.cc.value, isEmail))
    && (NullOrEmpty(req.bcc) || AddressesValid(req.bcc.value, isEmail))
  }

  /** One field's errors are empty exactly when its addresses are valid. */
  lemma AddressErrorsEmpty(value: string, emailType: string, fieldName: string, isEmail: string -> bool)
    ensures AddressErrors(value, emailType, fieldName, isEmail) == [] <==> AddressesValid(value, isEmail)
  {
    if ';' in value {
      InvalidEntriesExact(Split(value, ';'), emailType, isEmail);
    } else {
      assert Split(value, ';') == [value];
    }
  }

  /** validateEmails reports no error exactly for an acceptable request. */
  lemma ValidateAcceptsIff(req: EmailRequest, isEmail: string -> bool)
    ensures Validate(req, isEmail).errors == [] <==> Acceptable(req, isEmail)
  {
    if !NullOrEmpty(req.receiver) {
      AddressErrorsEmpty(req.receiver.value, "RECEIVER", "receiver", isEmail);
    }
    if !NullOrEmpty(req.cc) {
      AddressErrorsEmpty(req.cc.value, "CC", "CC", isEmail);
    }
    if !NullOrEmpty(req.bcc) {
      AddressErrorsEmpty(req.bcc.value, "BCC", "BCC", isEmail);
    }
  }

  /** Validation touches only the receiver, CC and BCC fields, leaves no ';' in
      them, and changes a field only when it held a ';'. */
  lemma ValidateRewrites(req: EmailRequest, isEmail: string -> bool)
    ensures var r := Validate(req, isEmail).request;
      && r.(receiver := req.receiver, cc := req.cc, bcc := req.bcc) == req
      && (r.receiver.Some? ==> ';' !in r.receiver.value)
      && (r.cc.Some? && req.cc.value != "" ==> ';' !in r.cc.value)
      && (r.bcc.Some? && req.bcc.value != "" ==> ';' !in r.bcc.value)
      && (req.receiver.Some? && ';' !in req.receiver.value ==> r.receiver == req.receiver)
      && (req.cc.Some? && ';' !in req.cc.value ==> r.cc == req.cc)
      && (req.bcc.Some? && ';' !in req.bcc.value ==> r.bcc == req.bcc)
  {
  }

  /** A receiver made only of separators passes validation with no error and
      is rewritten to the empty string. */
  lemma SeparatorOnlyReceiverPasses(req: EmailRequest, isEmail: string -> bool)
    requires req.receiver == Some(";;")
    ensures AddressErrors(req.receiver.value, "RECEIVER", "receiver", isEmail) == []
    ensures Validate(req, isEmail).request.receiver == Some("")
  {
    assert Split(";;", ';') == [] by {
      assert SplitAll(";;", ';') == ["", "", ""] by {
        assert ";;"[..1] == ";";
        assert SplitAll(";", ';') == ["", ""] by {
          assert ";"[..0] == "";
        }
      }
    }
    assert TrimTrailing(";;", ';') == "" by {
      assert ";;"[..1] == ";" && ";"[..0] == "";
    }
  }

  /** validateEmails' check of one receiver, CC or BCC value that is present. */
  method CheckAddresses(value: string, emailType: string, fieldName: string, isEmail: string -> bool)
    returns (errors: seq<string>, rewritten: string)
    ensures errors == AddressErrors(value, emailType, fieldName, isEmail)
    ensures rewritten == Canonical(value)
  {
    if ';' in value {
      var result := SplitEmails(value, emailType, isEmail);
      errors, rewritten := result.errors, result.emails;
    } else if !isEmail(value) {
      errors, rewritten := ["Invalid " + fieldName + " email: " + value], value;
    } else {
      errors, rewritten := [], value;
    }
  }

  /** The CC and BCC branches of validateEmails: the field's errors and the
      value `setCc` / `setBcc` leave in it. */
  method CheckOptional(field: Option<string>, emailType: string, fieldName: string, isEmail: string -> bool)
    returns (errors: seq<string>, rewritten: Option<string>)
    ensures errors == OptionalErrors(field, emailType, fieldName, isEmail)
    ensures rewritten == Rewrite(field)
  {
    errors, rewritten := [], field;
    if !NullOrEmpty(field) {
      var found, value := CheckAddresses(field.value, emailType, fieldName, isEmail);
      errors, rewritten := found, Some(value);
    }
  }

  /** `validateEmails(emailDTO)`: collects the errors and rewrites the address
      lists of the DTO in place. */
  method ValidateEmails(dto: EmailDto, isEmail: string -> bool) returns (errors: seq<string>)
    modifies dto
    ensures errors == Validate(old(dto.Value()), isEmail).errors
    ensures dto.Value() == Validate(old(dto.Value()), isEmail).request
  {
    errors := [];
    if NullOrEmpty(dto.subject) {
      errors := errors + ["Email subject is required"];
    }
    if NullOrEmpty(dto.sender) {
      errors := errors + ["Sender email is required"];
    } else if !isEmail(dto.sender.value) {
      errors := errors + ["Invalid sender email: " + dto.sender.value];
    }
    assert errors == (if NullOrEmpty(dto.subject) then ["Email subject is required"] else []) + SenderErrors(dto.sender, isEmail);
    if NullOrEmpty(dto.receiver) {
      errors := errors + ["Receiver email is required"];
    } else {
      var found, rewritten := CheckAddresses(dto.receiver.value, "RECEIVER", "receiver", isEmail);
      dto.receiver := Some(rewritten);
      errors := errors + found;
    }
    var ccErrors, cc := CheckOptional(dto.cc, "CC", "CC", isEmail);
    dto.cc := cc;
    errors := errors + ccErrors;
    var bccErrors, bcc := CheckOptional(dto.bcc, "BCC", "BCC", isEmail);
    dto.bcc := bcc;
    errors := errors + bccErrors;
  }

  // ---------------------------------------------------------------------------
  // getEmailTemplate

  /** getDefaultEmailTemplate(). */
  const DefaultTemplate: string :=
    "<!DOCTYPE html>\n" +
    "<html>\n" +
    "<head>\n" +
    "    <meta charset=\"UTF-8\">\n" +
    "    <title>Email Template</title>\n" +
    "    <style>\n" +
    "        body { font-family: Arial, sans-serif; line-height: 1.6; }\n" +
    "        .container { max-width: 600px; margin: 0 auto; padding: 20px; }\n" +
    "        .header { background-color: #4285f4; color: white; padding: 10px; text-align: center; }\n" +
    "        .content { padding: 20px; background-color: #f9f9f9; }\n" +
    "        .footer { text-align: center; font-size: 12px; color: #999; padding: 10px; }\n" +
    "    </style>\n" +
    "</head>\n" +
    "<body>\n" +
    "    <div class=\"container\">\n" +
    "        <div class=\"header\">\n" +
    "            <h1>[[${subject}]]</h1>\n" +
    "        </div>\n" +
    "        <div class=\"content\">\n" +
    "            <p>Hello [[${name}]],</p>\n" +
    "            <p>[[${message}]]</p>\n" +
    "            <p>Thank you for your attention.</p>\n" +
    "        </div>\n" +
    "        <div class=\"footer\">\n" +
    "            <p>This is an automated email. Please do not reply.</p>\n" +
    "            <p>Â© [[${currentYear}]] Nivleking Application</p>\n" +
    "        </div>\n" +
    "    </div>\n" +
    "</body>\n" +
    "</html>"

  lemma DefaultTemplateNonEmpty()
    ensures DefaultTemplate != ""
  {
  }

  /** Where getEmailTemplate takes the template from: the built-in default,
      or the EMAIL_TEMPLATE row's text. */
  datatype TemplateSource = DefaultSource | Stored(html: string)

  /** getEmailTemplate's choice: the stored template is used only for a
      non-empty name whose row exists and holds a non-empty text. */
  function ChooseTemplate(templateName: Option<string>, templates: map<string, Option<string>>): (r: TemplateSource)
    ensures r.Stored? <==>
      !NullOrEmpty(templateName) && templateName.value in templates && !NullOrEmpty(templates[templateName.value])
    ensures r.Stored? ==> r.html != "" && Some(r.html) == templates[templateName.value]
  {
    if NullOrEmpty(templateName) then DefaultSource
    else if templateName.value in templates && !NullOrEmpty(templates[templateName.value]) then
      Stored(templates[templateName.value].value)
    else DefaultSource
  }

  /** The text of a template source. */
  function Html(source: TemplateSource): string {
    match source
    case DefaultSource => DefaultTemplate
    case Stored(html) => html
  }

  /** `getEmailTemplate(templateName)` over EMAIL_TEMPLATE, given as template
      id -> (nullable) template text. */
  function GetEmailTemplate(templateName: Option<string>, templates: map<string, Option<string>>): (r: string)
    ensures r != ""
    ensures (!NullOrEmpty(templateName) && templateName.value in templates && !NullOrEmpty(templates[templateName.value]))
            ==> r == templates[templateName.value].value
    ensures !(!NullOrEmpty(templateName) && templateName.value in templates && !NullOrEmpty(templates[templateName.value]))
            ==> r == DefaultTemplate
  {
    DefaultTemplateNonEmpty();
    Html(ChooseTemplate(templateName, templates))
  }

  // ---------------------------------------------------------------------------
  // sendEmail

  /** What the claim procedure answered: an id to proceed with, null (skip),
      or an exception; the table the procedure leaves is given with the answer.
      A failing call may still have written rows (the procedure is not
      transactional with the caller), so a failure carries a table too. */
  datatype ClaimReply = Claimed(table: seq<EmailLog>) | Skipped(table: seq<EmailLog>) | ProcedureFailed(table: seq<EmailLog>)

  /** The procedure sendEmail called, with its arguments. */
  datatype ClaimCall =
    | InsertCall(now: int, emailType: Option<string>, emailId: Option<string>)
    | DelayCall(now: int, emailType: Option<string>, emailId: Option<string>, delayMillis: Option<int>, maxRetry: int)

  /** The message handed to the transport: the request and the template it
      is rendered from, whose text is `Html(template)`. */
  datatype Delivery = Delivery(request: EmailRequest, template: TemplateSource)

  /** How sendEmail ends: a returned message or a thrown exception. */
  datatype SendOutcome = Returned(message: string) | Raised(error: Exception)

  /** The collaborators sendEmail consults, fixed for one call:
      checkIfEmailNeedsDelay / getDelayByEmailType for the request's type, the
      UUID it would generate, the address regex, EMAIL_TEMPLATE, Jackson, the
      trace id in the MDC, and the clock as read by the log write of the try
      block (`logTime`) and by the outer handler's one (`handlerTime`). */
  datatype Environment = Environment(
    needsDelay: bool,
    delayMillis: Option<int>,
    freshId: string,
    isEmail: string -> bool,
    templates: map<string, Option<string>>,
    toJson: EmailRequest -> string,
    traceId: Option<string>,
    logTime: int,
    handlerTime: int)

  /** The retry count sendEmail passes everywhere (BigDecimal.ZERO). */
  const Retries: int := 0

  /** A log write's surroundings when the DTO holds `req`. */
  function LogCtx(env: Environment, req: EmailRequest): LogContext {
    LogContext(env.toJson(req), env.traceId, env.logTime)
  }

  /** The outer handler's log write, which reads the clock anew. */
  function HandlerCtx(env: Environment, req: EmailRequest): LogContext {
    LogContext(env.toJson(req), env.traceId, env.handlerTime)
  }

  /** The status the outer handler records. */
  function StatusOf(e: Exception): EmailStatus {
    if IsTimeout(e) then TIMEOUT else FAILED
  }

  /** The outer handler's saveErrorLog. */
  function HandlerLogged(rows: seq<EmailLog>, req: EmailRequest, env: Environment, e: Exception): seq<EmailLog> {
    ErrorLogged(rows, req, req.emailId, Retries, ErrorReport(StatusOf(e), "500", "EMAIL_SEND_ERROR", e.top.message), HandlerCtx(env, req))
  }

  /** The id sendEmail works with: the request's own, or a generated one. */
  function EffectiveId(req: EmailRequest, env: Environment): Option<string> {
    if NullOrEmpty(req.emailId) then Some(env.freshId) else req.emailId
  }

  /** How a stage of sendEmail leaves things: its outcome, the DTO, the
      EMAIL_LOG table and the message handed to the transport, if any. */
  datatype Stage = Stage(outcome: SendOutcome, request: EmailRequest, rows: seq<EmailLog>, delivery: Option<Delivery>)

  /** The messages a stage hands to the transport. */
  function Sent(delivery: Option<Delivery>): seq<Delivery> {
    if delivery.Some? then [delivery.value] else []
  }

  /** sendEmail after the procedure returned an id, from validation to the end,
      for a DTO holding `req` and a table holding `table`. */
  function AfterClaim(req: EmailRequest, table: seq<EmailLog>, env: Environment, transport: Option<Exception>): Stage {
    var v := Validate(req, env.isEmail);
    var checked := v.request;
    if v.errors != [] then
      var message := Join(", ", v.errors);
      var e := Raise(IllegalArgument, message);
      var logged := ErrorLogged(table, checked, checked.emailId, Retries,
                                ErrorReport(FAILED, "400", "VALIDATION_ERROR", Some(message)), LogCtx(env, checked));
      Stage(Raised(e), checked, HandlerLogged(logged, checked, env, e), None)
    else
      match transport
      case Some(e) => Stage(Raised(e), checked, HandlerLogged(table, checked, env, e), None)
      case None =>
        Stage(Returned("Email sent successfully to " + Show(checked.receiver)), checked,
              SuccessLogged(table, checked, checked.emailId, Retries, LogCtx(env, checked)),
              Some(Delivery(checked, ChooseTemplate(checked.templateName, env.templates))))
  }

  /** The result of one sendEmail call. */
  datatype Run = Run(outcome: SendOutcome, request: EmailRequest, rows: seq<EmailLog>, call: ClaimCall, delivery: Option<Delivery>)

  /** sendEmail for a DTO holding `req0`. Every path starts by calling the
      claim procedure, so the table the reply carries is the one the rest of
      the call works on. */
  function SendSpec(req0: EmailRequest, now: int, env: Environment,
                    claim: ClaimReply, transport: Option<Exception>): Run {
    var id := EffectiveId(req0, env);
    var req := req0.(emailId := id);
    var call := if env.needsDelay then DelayCall(now, req.emailType, id, env.delayMillis, Retries)
                else InsertCall(now, req.emailType, id);
    var stage :=
      match claim
      case Skipped(table) =>
        var message :=
          if env.needsDelay then "Email delay is still active for " + Show(req.emailType) + "! Email will not be sent: " + Show(id)
          else "Email already successfully sent to " + Show(req.receiver);
        Stage(Returned(message), req, table, None)
      case ProcedureFailed(table) =>
        var e := Raise(PlainException,
                       (if env.needsDelay then "Email delay check failed! Email id: " else "Insert log error! Email id: ") + Show(id));
        Stage(Raised(e), req, HandlerLogged(table, req, env, e), None)
      case Claimed(table) => AfterClaim(req, table, env, transport);
    Run(stage.outcome, stage.request, stage.rows, call, stage.delivery)
  }

  /** The service, with the log table it writes and, for the model, the
      procedure calls it made and the messages it handed to the transport. */
  class EmailSender {
    var repo: EmailLogRepository
    var claims: seq<ClaimCall>
    var deliveries: seq<Delivery>

    constructor (repo: EmailLogRepository)
      ensures this.repo == repo && claims == [] && deliveries == []
    {
      this.repo := repo;
      claims := [];
      deliveries := [];
    }

    /** The outer `catch` of sendEmail: checkTimeout picks the status and
        saveErrorLog records the exception's message. */
    method RecordFailure(dto: EmailDto, env: Environment, e: Exception)
      modifies repo
      ensures repo.rows == HandlerLogged(old(repo.rows), dto.Value(), env, e)
    {
      var timeout := CheckTimeout(e);
      var status := if timeout then TIMEOUT else FAILED;
      SaveErrorLog(repo, dto.Value(), dto.emailId, Retries,
                   ErrorReport(status, "500", "EMAIL_SEND_ERROR", e.top.message), HandlerCtx(env, dto.Value()));
    }

    /** The validation-failure branch: the "400" record, then the outer
        handler's record of the IllegalArgumentException. */
    method Reject(dto: EmailDto, env: Environment, errors: seq<string>) returns (e: Exception)
      modifies repo
      ensures e == Raise(IllegalArgument, Join(", ", errors))
      ensures repo.rows == HandlerLogged(
                ErrorLogged(old(repo.rows), dto.Value(), dto.emailId, Retries,
                            ErrorReport(FAILED, "400", "VALIDATION_ERROR", Some(Join(", ", errors))), LogCtx(env, dto.Value())),
                dto.Value(), env, e)
    {
      var errorMsg := Join(", ", errors);
      SaveErrorLog(repo, dto.Value(), dto.emailId, Retries,
                   ErrorReport(FAILED, "400", "VALIDATION_ERROR", Some(errorMsg)), LogCtx(env, dto.Value()));
      e := Raise(IllegalArgument, errorMsg);
      RecordFailure(dto, env, e);
    }

    /** The success branch: the message goes to the transport and
        saveSuccessLog records it. */
    method Deliver(dto: EmailDto, env: Environment, template: TemplateSource)
      modifies this`deliveries, repo
      ensures deliveries == old(deliveries) + [Delivery(dto.Value(), template)]
      ensures repo.rows == SuccessLogged(old(repo.rows), dto.Value(), dto.emailId, Retries, LogCtx(env, dto.Value()))
    {
      deliveries := deliveries + [Delivery(dto.Value(), template)];
      SaveSuccessLog(repo, dto.Value(), dto.emailId, Retries, LogCtx(env, dto.Value()));
    }

    /** sendEmail from validation to the end; `transport` is the failure, if
        any, of everything from the session set-up to `Transport.send`. */
    method SendClaimed(dto: EmailDto, env: Environment, transport: Option<Exception>) returns (outcome: SendOutcome)
      modifies this`deliveries, repo, dto
      ensures var stage := AfterClaim(old(dto.Value()), old(repo.rows), env, transport);
        && outcome == stage.outcome
        && dto.Value() == stage.request
        && repo.rows == stage.rows
        && deliveries == old(deliveries) + Sent(stage.delivery)
    {
      var errors := ValidateEmails(dto, env.isEmail);
      if errors != [] {
        var e := Reject(dto, env, errors);
        return Raised(e);
      }
      var template := ChooseTemplate(dto.templateName, env.templates);
      if transport.Some? {
        RecordFailure(dto, env, transport.value);
        return Raised(transport.value);
      }
      Deliver(dto, env, template);
      outcome := Returned("Email sent successfully to " + Show(dto.receiver));
    }

    /** `sendEmail(emailDTO, files)`: `claim` is the answer of the procedure
        the delay flag selects, with the table it leaves. */
    method SendEmail(dto: EmailDto, now: int, env: Environment, claim: ClaimReply, transport: Option<Exception>)
      returns (outcome: SendOutcome)
      modifies this`claims, this`deliveries, repo, dto
      ensures var run := SendSpec(old(dto.Value()), now, env, claim, transport);
        && outcome == run.outcome
        && dto.Value() == run.request
        && repo.rows == run.rows
        && claims == old(claims) + [run.call]
        && deliveries == old(deliveries) + Sent(run.delivery)
    {
      var emailId := dto.emailId;
      if NullOrEmpty(emailId) {
        emailId := Some(env.freshId);
        dto.emailId := emailId;
      }
      var message: string;
      if !env.needsDelay {
        claims := claims + [InsertCall(now, dto.emailType, emailId)];
        message := "Insert log error! Email id: " + Show(emailId);
      } else {
        claims := claims + [DelayCall(now, dto.emailType, emailId, env.delayMillis, Retries)];
        message := "Email delay check failed! Email id: " + Show(emailId);
      }
      match claim {
        case Skipped(table) =>
          repo.RunProcedure(table);
          if !env.needsDelay {
            outcome := Returned("Email already successfully sent to " + Show(dto.receiver));
          } else {
            outcome := Returned("Email delay is still active for " + Show(dto.emailType) + "! Email will not be sent: " + Show(dto.emailId));
          }
        case ProcedureFailed(table) =>
          repo.RunProcedure(table);
          var e := Raise(PlainException, message);
          RecordFailure(dto, env, e);
          outcome := Raised(e);
        case Claimed(table) =>
          repo.RunProcedure(table);
          outcome := SendClaimed(dto, env, transport);
      }
    }
  }

  // ---------------------------------------------------------------------------
  // Properties of sendEmail

  /** A missing or empty id is replaced by the generated one before the claim;
      a given id is kept. The claim procedure is chosen by the delay flag and
      always receives retry count 0. */
  lemma SendAssignsId(req0: EmailRequest, now: int, env: Environment,
                      claim: ClaimReply, transport: Option<Exception>)
    ensures var run := SendSpec(req0, now, env, claim, transport);
      && run.request.emailId == run.call.emailId
      && (NullOrEmpty(req0.emailId) ==> run.request.emailId == Some(env.freshId))
      && (!NullOrEmpty(req0.emailId) ==> run.request.emailId == req0.emailId)
      && (env.needsDelay <==> run.call.DelayCall?)
      && (run.call.DelayCall? ==> run.call.maxRetry == 0)
  {
  }

  /** When the procedure answers null nothing else happens: no validation, no
      rewrite of the addresses, no transport, no log write. */
  lemma SkipShortCircuits(req0: EmailRequest, now: int, env: Environment,
                          table: seq<EmailLog>, transport: Option<Exception>)
    ensures var run := SendSpec(req0, now, env, Skipped(table), transport);
      && run.delivery.None?
      && run.rows == table
      && run.request == req0.(emailId := EffectiveId(req0, env))
      && run.outcome.Returned?
      && (!env.needsDelay ==> run.outcome.message == "Email already successfully sent to " + Show(req0.receiver))
      && (env.needsDelay ==> run.outcome.message == "Email delay is still active for " + Show(req0.emailType)
                                                    + "! Email will not be sent: " + Show(EffectiveId(req0, env)))
  {
  }

  /** A failing procedure surfaces as a plain exception without a cause, and
      the outer handler records it on the id's newest row with "500" and
      EMAIL_SEND_ERROR; nothing is sent. */
  lemma ClaimFailureRecorded(req0: EmailRequest, now: int, env: Environment,
                             table: seq<EmailLog>, transport: Option<Exception>)
    ensures var run := SendSpec(req0, now, env, ProcedureFailed(table), transport);
      var id := EffectiveId(req0, env);
      && run.delivery.None?
      && run.outcome.Raised?
      && run.outcome.error.top.kind == PlainException
      && run.outcome.error.causes == []
      && run.outcome.error.top.message
         == Some((if env.needsDelay then "Email delay check failed! Email id: " else "Insert log error! Email id: ") + Show(id))
      && (Newest(table, id).Some? ==> |run.rows| == |table| && Newest(run.rows, id) == Newest(table, id))
      && (Newest(table, id).None? ==> |run.rows| == |table| + 1)
      && Newest(run.rows, id).Some?
      && var row := run.rows[Newest(run.rows, id).value];
      && row.status == Some(if IsTimeout(run.outcome.error) then TIMEOUT else FAILED)
      && row.httpCode == Some("500")
      && row.errorCode == Some("EMAIL_SEND_ERROR")
      && row.errorMessage == TruncateErrorMessage(run.outcome.error.top.message)
      && row.numberOfRetries == Some(0)
  {
    var run := SendSpec(req0, now, env, ProcedureFailed(table), transport);
    var id := EffectiveId(req0, env);
    var req := req0.(emailId := id);
    ErrorLoggedVisible(table, req, id, Retries,
                       ErrorReport(StatusOf(run.outcome.error), "500", "EMAIL_SEND_ERROR", run.outcome.error.top.message),
                       HandlerCtx(env, req));
  }

  /** A validation failure raises IllegalArgumentException with the errors
      joined by ", ", never reaches the transport, and the outer handler's
      record replaces the "400" VALIDATION_ERROR one: the table is what the
      handler's write alone would leave, except that a row the "400" write
      had to create keeps that write's createdDate. */
  lemma ValidationFailureRecorded(req0: EmailRequest, now: int, env: Environment,
                                  table: seq<EmailLog>, transport: Option<Exception>)
    requires !Acceptable(req0.(emailId := EffectiveId(req0, env)), env.isEmail)
    ensures var req := req0.(emailId := EffectiveId(req0, env));
      var v := Validate(req, env.isEmail);
      var run := SendSpec(req0, now, env, Claimed(table), transport);
      var e := Raise(IllegalArgument, Join(", ", v.errors));
      && run.delivery.None?
      && run.outcome == Raised(e)
      && run.request == v.request
      && (var once := HandlerLogged(table, v.request, env, e);
          if Newest(table, req.emailId).None? then
            && |once| == |table| + 1
            && run.rows == once[|table| := once[|table|].(createdDate := Some(env.logTime))]
          else run.rows == once)
      && Newest(run.rows, req.emailId).Some?
      && var row := run.rows[Newest(run.rows, req.emailId).value];
      && row.httpCode == Some("500")
      && row.errorCode == Some("EMAIL_SEND_ERROR")
      && row.errorMessage == TruncateErrorMessage(Some(Join(", ", v.errors)))
  {
    var req := req0.(emailId := EffectiveId(req0, env));
    var v := Validate(req, env.isEmail);
    ValidateAcceptsIff(req, env.isEmail);
    var checked := v.request;
    var message := Join(", ", v.errors);
    var e := Raise(IllegalArgument, message);
    assert checked.emailId == req.emailId;
    ErrorLogOverwritten(table, checked, checked.emailId, Retries,
                        ErrorReport(FAILED, "400", "VALIDATION_ERROR", Some(message)),
                        ErrorReport(StatusOf(e), "500", "EMAIL_SEND_ERROR", Some(message)),
                        LogCtx(env, checked), HandlerCtx(env, checked));
    ErrorLoggedVisible(table, checked, checked.emailId, Retries,
                       ErrorReport(StatusOf(e), "500", "EMAIL_SEND_ERROR", Some(message)), HandlerCtx(env, checked));
  }

  /** The transport is reached exactly once, and only for a claimed, acceptable
      request; then the id's newest row, if any, reads SUCCESS and the caller
      is told the (rewritten) receiver. */
  lemma DeliveredOnlyWhenAcceptable(req0: EmailRequest, now: int, env: Environment,
                                    claim: ClaimReply, transport: Option<Exception>)
    ensures var run := SendSpec(req0, now, env, claim, transport);
      var req := req0.(emailId := EffectiveId(req0, env));
      && (run.delivery.Some? <==> claim.Claimed? && Acceptable(req, env.isEmail) && transport.None?)
      && (run.delivery.Some? ==>
            && run.delivery.value.request == run.request
            && run.outcome == Returned("Email sent successfully to " + Show(run.request.receiver))
            && (Newest(claim.table, req.emailId).Some? ==>
                  run.rows[Newest(claim.table, req.emailId).value].status == Some(SUCCESS)))
  {
    var req := req0.(emailId := EffectiveId(req0, env));
    ValidateAcceptsIff(req, env.isEmail);
    if claim.Claimed? {
      var checked := Validate(req, env.isEmail).request;
      assert checked.emailId == req.emailId;
      SuccessLoggedVisible(claim.table, checked, checked.emailId, Retries, LogCtx(env, checked));
    }
  }

  /** A transport failure is rethrown as is and recorded with the status
      checkTimeout gives it. */
  lemma TransportFailureRecorded(req0: EmailRequest, now: int, env: Environment,
                                 table: seq<EmailLog>, e: Exception)
    requires Acceptable(req0.(emailId := EffectiveId(req0, env)), env.isEmail)
    ensures var run := SendSpec(req0, now, env, Claimed(table), Some(e));
      var id := EffectiveId(req0, env);
      && run.outcome == Raised(e)
      && run.delivery.None?
      && Newest(run.rows, id).Some?
      && var row := run.rows[Newest(run.rows, id).value];
      && row.status == Some(if IsTimeout(e) then TIMEOUT else FAILED)
      && row.httpCode == Some("500")
      && row.errorMessage == TruncateErrorMessage(e.top.message)
  {
    var req := req0.(emailId := EffectiveId(req0, env));
    ValidateAcceptsIff(req, env.isEmail);
    var checked := Validate(req, env.isEmail).request;
    assert checked.emailId == req.emailId;
    ErrorLoggedVisible(table, checked, checked.emailId, Retries,
                       ErrorReport(StatusOf(e), "500", "EMAIL_SEND_ERROR", e.top.message), HandlerCtx(env, checked));
  }
}
