# Email dispatch core of reusable-utilities, in Dafny

This project models the email-sending path of the Spring Boot service
`reusable-utilities` and proves properties of the model. It covers:

- **EmailService.sendEmail.** It assigns an id. It claims the send through the `EMAIL_INSERT` or `EMAIL_DELAY` stored procedure. It validates the addresses, hands the message to the transport and records the outcome in `EMAIL_LOG`.
- **EmailUtilities.** Address-list splitting, error-message truncation, timeout classification, the log writes and the flattening of template parameters.
- **ConfigMapperService.** The parser for delay configurations such as `{'A,B':'5000';'C':'100'}`.
- **UtilitiesConfiguration.** Loads `CONFIG_SERVER` rows into the refreshable holder and derives the host, port and delay-map beans.
- **PdfJsonUtilities.** Turns an org.json tree into ordered maps and lists.

One module per source file:

| module | file | form |
|---|---|---|
| `JavaLang` | java_lang.dfy | The java.lang behaviour the core relies on: `split` (trailing empty pieces dropped), `String.join`, `contains`, `lastIndexOf`, `toLowerCase`, and exceptions with a cause chain. |
| `EmailDtos` | email_dto.dfy | The request value and the mutable `EmailDto` class. |
| `EmailLogs` | email_log.dfy | The `EMAIL_LOG` row, `EmailStatus`, and the repository as a class over a `seq` of rows. |
| `EmailUtilities` | email_utilities.dfy | Methods with loops (`SplitEmails`, `CheckTimeout`) and repository writes, each proved against a specification function. |
| `TemplateParams` | template_params.dfy | `processParams`/`processList` as methods over a `TemplateContext` class, proved against `BindEntries`/`BindItems`. |
| `ConfigMapper` | config_mapper.dfy | The nested-loop parser, proved against `ConfigMap`. |
| `UtilitiesConfiguration` | utilities_configuration.dfy | `ConfigServerHolder` class, `loadConfig`, the beans. |
| `PdfJson` | pdf_json.dfy | `processMap`/`processList` as mutually recursive methods, proved against `Convert`. |
| `EmailService` | email_service.dfy | `validateEmails`, `getEmailTemplate`, and `sendEmail` as a method of `EmailSender` proved against `SendSpec`. |

Collaborators outside the code become parameters:

- The address regex is `isEmail`.
- The delay decision and the delay length are `needsDelay` and `delayMillis`.
- The generated UUID is `freshId`.
- The clock is `now`; one timestamp is used per log write. The try block's write and the outer handler's write read it separately (`logTime`, `handlerTime`).
- The trace id from the MDC is `traceId`.
- Jackson's JSON snapshot of the DTO is `toJson`.
- The stored procedures are a `ClaimReply` oracle. It answers proceed, skip (null) or failure, each together with the table the procedure leaves behind. A failing call carries a table too, since the procedure may have committed rows before the call failed; the outer handler's error write then works on that table.
- Everything from the mail session to `Transport.send` is an `Option<Exception>` oracle.

Further modelling choices:

- `findAllByEmailId(id).getFirst()` is `Newest`: the row of that id with the latest `createdDate`. A NULL date counts as newest, and ties go to the earliest stored row.
- The order of a `MapParam`'s entries stands for the order its `entrySet()` yields them.
- The order of the `CONFIG_SERVER` rows is the order `findAll()` returns them in. It decides which row wins for a repeated key.
- The order of the `EMAIL_LOG` rows only breaks ties between equal `createdDate`s in `Newest`.
- A Java `null` is `None`.
- The delivered message records which template was chosen (`TemplateSource`). Its text is `Html` of that choice.

## Model

| member | source | states |
|---|---|---|
| EmailUtilities.SplitEmails | src/main/java/com/nivleking/springboot/service/EmailUtilities.java:50-62 | The errors are one "Invalid email: (TYPE) -> piece" per failing `;`-piece, in order. There are no errors iff every piece is an address. The emails are the pieces joined by `,`, which is the input with its trailing `;`s dropped and every other `;` turned into `,`. |
| EmailUtilities.InvalidEntriesExact | src/main/java/com/nivleking/springboot/service/EmailUtilities.java:50-62 | Every error names a failing piece, and every failing piece is named. The error list is empty iff all pieces pass, and it is no longer than the piece list. |
| JavaLang.JoinSplit | src/main/java/com/nivleking/springboot/service/EmailUtilities.java:50-62 | Joining the pieces of `split(c)` with `d` equals the input with its trailing `c`s removed and every `c` replaced by `d`. |
| JavaLang.JoinSplitAll | src/main/java/com/nivleking/springboot/service/EmailUtilities.java:50-62 | Joining all pieces (empty ones included) with `d` replaces every `c` by `d`. |
| JavaLang.DropTrailingSplitAll | src/main/java/com/nivleking/springboot/service/EmailUtilities.java:50-62 | Dropping trailing empty pieces equals splitting the input without its trailing separators. |
| EmailUtilities.TruncateErrorMessage | src/main/java/com/nivleking/springboot/service/EmailUtilities.java:229-252 | Null stays null, and a message of at most 500 characters is returned unchanged. A longer one starts with its first 300 characters, followed by the 19-character marker, and is 319 to 519 characters long. |
| EmailUtilities.TruncatedTail | src/main/java/com/nivleking/springboot/service/EmailUtilities.java:240-251 | The tail after the marker is empty iff no "Caused by:" starts before length-100 without a later one. Otherwise it has 101 to 200 characters, starts with "Caused by:", and is the text from the last occurrence to min(idx+200, length). |
| EmailUtilities.CheckTimeout | src/main/java/com/nivleking/springboot/service/EmailUtilities.java:254-282 | Returns true iff one of these holds: a cause strictly below the exception is a SocketTimeout or ConnectTimeout, or its lower-cased message holds one of the four signatures; or the exception's own message holds one. The exception's own class is never looked at. |
| EmailUtilities.InsertLog | src/main/java/com/nivleking/springboot/service/EmailUtilities.java:140-160 | Exactly one PENDING row is appended, carrying the id, type, template, retries, JSON snapshot and trace id, created and updated now. The existing rows are unchanged. |
| EmailUtilities.SaveSuccessLog | src/main/java/com/nivleking/springboot/service/EmailUtilities.java:162-182 | The table becomes `SuccessLogged` of the old table. |
| EmailUtilities.SuccessLoggedVisible | src/main/java/com/nivleking/springboot/service/EmailUtilities.java:162-182 | With a row for the id, only the newest one changes: it reads SUCCESS with the given retries and `lastSend` = now. Without one, nothing is written. No row is ever added. |
| EmailUtilities.SuccessLoggedIdempotent | src/main/java/com/nivleking/springboot/service/EmailUtilities.java:162-182 | Saving the same success twice leaves the table as saving it once. |
| EmailUtilities.SetupErrorLog | src/main/java/com/nivleking/springboot/service/EmailUtilities.java:203-224 | A new row is appended, or the given row is updated in place, with status, codes, truncated message and retries. |
| EmailUtilities.SaveErrorLog | src/main/java/com/nivleking/springboot/service/EmailUtilities.java:184-201 | The table becomes `ErrorLogged` of the old table. The method never fails. |
| EmailUtilities.ErrorLoggedVisible | src/main/java/com/nivleking/springboot/service/EmailUtilities.java:184-224 | With no row for the id, exactly one row is added. Otherwise only the newest row changes and none is added. Afterwards the id's newest row carries the id, status, HTTP and error codes, truncated message and retries. |
| EmailUtilities.ErrorLogOverwritten | src/main/java/com/nivleking/springboot/service/EmailUtilities.java:184-224 | Two error logs for the same id, each reading the clock itself, leave the table as the second one alone would. The one exception: a row the first call had to create keeps the first call's `createdDate`. |
| EmailLogs.Newest | src/main/java/com/nivleking/springboot/repository/EmailLogRepository.java:16-17 | Returns None iff no row carries the id. Otherwise it is a row of that id with no strictly newer `createdDate` among them, and the first such row. |
| EmailLogs.NewestStable | src/main/java/com/nivleking/springboot/repository/EmailLogRepository.java:16-17 | Rewriting a row without changing its id or `createdDate` does not change which row is newest for any id. |
| EmailLogs.EmailLogRepository.RunProcedure | src/main/java/com/nivleking/springboot/repository/EmailLogRepository.java:19-33 | After a claim procedure the table is the one the procedure left. |
| TemplateParams.TemplateContext.SetVariable | src/main/java/com/nivleking/springboot/service/EmailUtilities.java:64-104 | One variable is bound, and the others are unchanged. |
| TemplateParams.BindDetails | src/main/java/com/nivleking/springboot/service/EmailUtilities.java:92-96 | Every child of a map is bound under its own name as is, in order. |
| TemplateParams.ProcessParams | src/main/java/com/nivleking/springboot/service/EmailUtilities.java:85-104 | The context and the failure flag are those of `BindEntries` on the old context. |
| TemplateParams.ProcessList | src/main/java/com/nivleking/springboot/service/EmailUtilities.java:64-83 | The context and the failure flag are those of `BindItems` from index 0 on the old context. |
| TemplateParams.ValueOkIffNoNull | src/main/java/com/nivleking/springboot/service/EmailUtilities.java:64-104 | Binding one value finishes iff no null leaf lies below it (`toString` on null throws). |
| TemplateParams.EntriesOkIffNoNull | src/main/java/com/nivleking/springboot/service/EmailUtilities.java:85-104 | `processParams` finishes iff no entry holds a null leaf. |
| TemplateParams.ItemsOkIffNoNull | src/main/java/com/nivleking/springboot/service/EmailUtilities.java:64-83 | `processList` finishes iff no item holds a null leaf. |
| TemplateParams.RawFrame | src/main/java/com/nivleking/springboot/service/EmailUtilities.java:92-96 | Binding a map's children as is touches only their names. |
| TemplateParams.ValueFrame | src/main/java/com/nivleking/springboot/service/EmailUtilities.java:64-104 | Binding one value touches only the names it can bind. |
| TemplateParams.EntriesFrame | src/main/java/com/nivleking/springboot/service/EmailUtilities.java:85-104 | `processParams` touches only the names its entries can bind. |
| TemplateParams.ItemsFrame | src/main/java/com/nivleking/springboot/service/EmailUtilities.java:64-83 | `processList` touches only the names its items can bind. |
| TemplateParams.EntriesAppend | src/main/java/com/nivleking/springboot/service/EmailUtilities.java:85-104 | Binding `a + b` binds `a`, then, if that finished, `b` over the result. |
| TemplateParams.LaterScalarWins | src/main/java/com/nivleking/springboot/service/EmailUtilities.java:85-104 | A later scalar entry overwrites its key's earlier binding. |
| TemplateParams.ItemKeyDistinct | src/main/java/com/nivleking/springboot/service/EmailUtilities.java:64-83 | The names `key[i]` differ from each other and from `key`. |
| TemplateParams.ScalarItemNames | src/main/java/com/nivleking/springboot/service/EmailUtilities.java:64-83 | A list of scalars binds only names `key[j]` for its positions. |
| TemplateParams.ScalarItemsBound | src/main/java/com/nivleking/springboot/service/EmailUtilities.java:64-83 | A list of scalars binds item `i` as text under `key[i]`. |
| TemplateParams.ScalarListEntryBound | src/main/java/com/nivleking/springboot/service/EmailUtilities.java:85-104 | A list entry binds the list itself under its key, and each scalar item under `key[i]`. |
| TemplateParams.ItemKeyInjective | src/main/java/com/nivleking/springboot/service/EmailUtilities.java:66 | `key[i]` names determine their list name and index: `p[i]` equals `q[j]` iff `p == q` and `i == j`. |
| TemplateParams.NestedItemNamesAvoid | src/main/java/com/nivleking/springboot/service/EmailUtilities.java:64-83 | Items that are scalars or lists of scalars, flattened from index `n` on, never bind the list's own name, an earlier item's `key[m]`, or a name `key[m][j]` below it. |
| TemplateParams.NestedItemsBound | src/main/java/com/nivleking/springboot/service/EmailUtilities.java:64-83 | Such items always finish. Item `i` is bound under `key[i]` as text or as the nested list, and item `j` of a nested list under `key[i][j]` as text. |
| TemplateParams.NestedListEntryBound | src/main/java/com/nivleking/springboot/service/EmailUtilities.java:96-99 | A list entry whose items are scalars or lists of scalars binds the list under `key`. Item `i` goes under `key[i]` as text or as the nested list, and item `j` of nested list `i` goes under `key[i][j]` as text. |
| TemplateParams.MapEntryHoisted | src/main/java/com/nivleking/springboot/service/EmailUtilities.java:90-95 | A map entry without nulls always finishes. It binds each child, of any kind, under its own unprefixed name: a scalar as its text, a list or map as itself. A child keeps that binding unless something flattened after it binds the name again (`Hoisted`). The entry's own key stays as it was unless the map's contents bind it. |
| TemplateParams.HoistedChild | src/main/java/com/nivleking/springboot/service/EmailUtilities.java:85-104 | Flattening a map's children after the raw binding leaves each hoisted child bound to its text or to itself. |
| TemplateParams.RawLast | src/main/java/com/nivleking/springboot/service/EmailUtilities.java:92-94 | After the raw-binding loop, a name holds the last child carrying it. |
| TemplateParams.RawKeep | src/main/java/com/nivleking/springboot/service/EmailUtilities.java:92-94 | The raw-binding loop leaves a name that no child carries unchanged. |
| TemplateParams.ScalarEntryNames | src/main/java/com/nivleking/springboot/service/EmailUtilities.java:85-104 | Scalar entries bind exactly their keys. |
| TemplateParams.FirstScalarKept | src/main/java/com/nivleking/springboot/service/EmailUtilities.java:85-104 | A binding survives later entries that do not carry its key. |
| TemplateParams.ScalarEntriesBound | src/main/java/com/nivleking/springboot/service/EmailUtilities.java:85-104 | Scalar entries always finish, and each key ends with the text of its last entry. |
| ConfigMapper.StripBraces | src/main/java/com/nivleking/springboot/service/ConfigMapperService.java:16 | No `{`, `}` or `'` is left, the result is no longer than the input, and a clean input is kept as is. |
| ConfigMapper.StripOne | src/main/java/com/nivleking/springboot/service/ConfigMapperService.java:16 | One character is dropped iff it is `{`, `}` or `'`, and kept otherwise. |
| ConfigMapper.StripSnoc | src/main/java/com/nivleking/springboot/service/ConfigMapperService.java:16 | Stripping `s + [c]` strips `s` and then keeps `c` unless it is a brace or quote. |
| ConfigMapper.StripAppend | src/main/java/com/nivleking/springboot/service/ConfigMapperService.java:16 | Stripping `a + b` is stripping `a` followed by stripping `b`. With StripOne, every other character is kept, in order. |
| ConfigMapper.StripCounts | src/main/java/com/nivleking/springboot/service/ConfigMapperService.java:16 | Every character other than a brace or quote occurs as often in the result as in the input. Every character of the result comes from the input. |
| ConfigMapper.ConfigServerMapValueReader | src/main/java/com/nivleking/springboot/service/ConfigMapperService.java:12-38 | The result is `ConfigMap(input)`, which is the empty map for null. |
| ConfigMapper.PutNames | src/main/java/com/nivleking/springboot/service/ConfigMapperService.java:29-31 | The inner loop leaves the map `PutAll` gives: every name of the group put with the group's value, in order. |
| ConfigMapper.PutAllUpdates | src/main/java/com/nivleking/springboot/service/ConfigMapperService.java:29-31 | Every name of a group gets the group's value, and every other key keeps its old value. |
| ConfigMapper.LastGroupWins | src/main/java/com/nivleking/springboot/service/ConfigMapperService.java:17-31 | A name ends with the value of the last group naming it, which is the text between that group's first and second `:`, or null. |
| ConfigMapper.UnnamedKept | src/main/java/com/nivleking/springboot/service/ConfigMapperService.java:17-31 | A name no group mentions keeps its binding. |
| ConfigMapper.TailNoneAborts | src/main/java/com/nivleking/springboot/service/ConfigMapperService.java:19-21 | The rest of a sequence of groups that do not abort does not abort either. |
| ConfigMapper.GroupWithoutValue | src/main/java/com/nivleking/springboot/service/ConfigMapperService.java:20-27 | A group with no `:`, or whose only `:` is its last character, maps its names to null and does not stop the parse. |
| ConfigMapper.AbortKeepsPrefix | src/main/java/com/nivleking/springboot/service/ConfigMapperService.java:19-35 | A group made only of `:` characters throws on `keyValue[0]`. The result is then the map built by the groups before it. |
| ConfigMapper.ParseGroupsAvoid | src/main/java/com/nivleking/springboot/service/ConfigMapperService.java:16-31 | Names avoid braces, quotes and the three separators. Values avoid braces, quotes, `;` and `:`. |
| ConfigMapper.ConfigMapClean | src/main/java/com/nivleking/springboot/service/ConfigMapperService.java:12-38 | The same holds for every input. |
| JavaLang.SplitAllWithout | src/main/java/com/nivleking/springboot/service/ConfigMapperService.java:20 | A string without the separator splits into one piece, itself. |
| UtilitiesConfiguration.ConfigServerHolder.SetConfigs | src/main/java/com/nivleking/springboot/config/UtilitiesConfiguration.java:39-41 | The map is replaced wholesale. |
| UtilitiesConfiguration.LoadConfig | src/main/java/com/nivleking/springboot/config/UtilitiesConfiguration.java:47-57 | The holder's map becomes `RowsToMap(rows)`, whatever it held before. |
| UtilitiesConfiguration.RowsToMapLastWins | src/main/java/com/nivleking/springboot/config/UtilitiesConfiguration.java:49-55 | The keys are exactly the rows' `properties`, null included. Each key holds the value of the last row carrying it. |
| UtilitiesConfiguration.EmailHost | src/main/java/com/nivleking/springboot/config/UtilitiesConfiguration.java:60-64 | The bean wraps the holder's current EMAIL_HOST value, or null when the key is missing. |
| UtilitiesConfiguration.EmailPort | src/main/java/com/nivleking/springboot/config/UtilitiesConfiguration.java:66-70 | The bean wraps the holder's current EMAIL_PORT value, or null when the key is missing. |
| UtilitiesConfiguration.LastRowValue | src/main/java/com/nivleking/springboot/config/UtilitiesConfiguration.java:49-56 | After a load, looking a key up in the holder gives the value of the last row carrying it, and null when no row carries it. |
| UtilitiesConfiguration.LoadedBeanValue | src/main/java/com/nivleking/springboot/config/UtilitiesConfiguration.java:47-70 | For a holder filled by loadConfig, `EmailHost(holder)` and `EmailPort(holder)` wrap the value of the last row whose `properties` is their key, or null when no row carries it. |
| UtilitiesConfiguration.EmailDelayMap | src/main/java/com/nivleking/springboot/config/UtilitiesConfiguration.java:72-90 | The result is empty when EMAIL_DELAY is missing, null or empty. Otherwise it is the reader's map of that entry. |
| UtilitiesConfiguration.DelayMapClean | src/main/java/com/nivleking/springboot/config/UtilitiesConfiguration.java:72-90 | Every delay-map name and value avoids braces, quotes and separators. |
| PdfJson.ProcessList | src/main/java/com/nivleking/springboot/service/PdfJsonUtilities.java:66-81 | The list is `ConvertList` of the array: same length, element i converted from item i. |
| PdfJson.ProcessValue | src/main/java/com/nivleking/springboot/service/PdfJsonUtilities.java:54-60 | A nested array or object is converted, and anything else is kept as is. |
| PdfJson.ConvertList | src/main/java/com/nivleking/springboot/service/PdfJsonUtilities.java:66-81 | The result has the array's length, and element i is the conversion of item i. |
| PdfJson.ProcessMap | src/main/java/com/nivleking/springboot/service/PdfJsonUtilities.java:45-64 | The map is `ConvertMembers` of the object: one LinkedHashMap `put` per key, in `keys()` order. |
| PdfJson.JsonToMap | src/main/java/com/nivleking/springboot/service/PdfJsonUtilities.java:25-43 | Null gives the empty map. Otherwise it gives `processMap`'s result. |
| PdfJson.Put | src/main/java/com/nivleking/springboot/service/PdfJsonUtilities.java:61 | A new key is appended at the end. |
| PdfJson.ConvertMembersInOrder | src/main/java/com/nivleking/springboot/service/PdfJsonUtilities.java:45-64 | The result's keys are the object's keys in order, and the value at i is member i's value converted. |
| PdfJson.ConvertFlat | src/main/java/com/nivleking/springboot/service/PdfJsonUtilities.java:45-81 | No JSONObject or JSONArray is left at any depth. |
| PdfJson.ConvertMembersFlat | src/main/java/com/nivleking/springboot/service/PdfJsonUtilities.java:45-64 | The same holds for every value of a converted object. |
| PdfJson.ConvertBack | src/main/java/com/nivleking/springboot/service/PdfJsonUtilities.java:45-81 | Turning the result back into JSON gives the input tree, so nothing is lost or reordered. |
| EmailService.CheckAddresses | src/main/java/com/nivleking/springboot/service/EmailService.java:250-262 | The errors are those of one address value, and the value written back is its canonical form. |
| EmailService.CheckOptional | src/main/java/com/nivleking/springboot/service/EmailService.java:265-298 | An absent or empty CC/BCC gives no error and stays as it was. Otherwise the value is checked like the receiver. |
| EmailService.ValidateEmails | src/main/java/com/nivleking/springboot/service/EmailService.java:229-301 | The errors and the rewritten DTO are those of `Validate`: subject, sender, receiver, CC, BCC, in that order, with every violation kept. |
| EmailService.AddressErrorsEmpty | src/main/java/com/nivleking/springboot/service/EmailService.java:250-262 | One field gives no error iff every `;`-piece of it, or the whole value when it has no `;`, is an address. |
| EmailService.ValidateAcceptsIff | src/main/java/com/nivleking/springboot/service/EmailService.java:229-301 | There are no errors iff subject, sender and receiver are present, all their addresses pass, and CC/BCC are absent or pass. |
| EmailService.ValidateRewrites | src/main/java/com/nivleking/springboot/service/EmailService.java:250-298 | Only receiver, CC and BCC change. No `;` is left in them, and a value without `;` is kept. |
| EmailService.SeparatorOnlyReceiverPasses | src/main/java/com/nivleking/springboot/service/EmailService.java:250-258 | The receiver ";;" yields no error and is rewritten to the empty string. |
| EmailService.ChooseTemplate | src/main/java/com/nivleking/springboot/service/EmailService.java:303-321 | The stored template is chosen iff the name is non-empty, its row exists and its text is non-empty; the chosen text is that row's. Otherwise the default is chosen. |
| EmailService.GetEmailTemplate | src/main/java/com/nivleking/springboot/service/EmailService.java:303-354 | The result is never empty. It is the stored text when the name is non-empty and the row exists with a non-empty text, and the built-in default in every other case. |
| EmailService.EmailSender.RecordFailure | src/main/java/com/nivleking/springboot/service/EmailService.java:218-223 | The outer handler logs the exception with checkTimeout's status, "500" and EMAIL_SEND_ERROR, at its own clock reading. |
| EmailService.EmailSender.Reject | src/main/java/com/nivleking/springboot/service/EmailService.java:128-134 | The raised exception is an IllegalArgumentException whose message is the errors joined by ", ". The table gets the "400" VALIDATION_ERROR record, then the outer handler's record of that exception. |
| EmailService.EmailSender.Deliver | src/main/java/com/nivleking/springboot/service/EmailService.java:213-214 | Exactly one message, the current request with its template, is handed to the transport. The table is then `SuccessLogged`. |
| EmailService.EmailSender.SendClaimed | src/main/java/com/nivleking/springboot/service/EmailService.java:126-217 | From validation on, the outcome, DTO, table and transport hand-off are those of `AfterClaim`. |
| EmailService.EmailSender.SendEmail | src/main/java/com/nivleking/springboot/service/EmailService.java:62-224 | The outcome, the DTO, the table, the procedure called and the message handed to the transport are those of `SendSpec`. |
| EmailService.SendAssignsId | src/main/java/com/nivleking/springboot/service/EmailService.java:72-76 | A null or empty id is replaced by the generated one before the claim, and a given one is kept. The delay flag picks the procedure, and it receives retries 0. |
| EmailService.SkipShortCircuits | src/main/java/com/nivleking/springboot/service/EmailService.java:79-119 | A null from the procedure returns "Email already successfully sent to <receiver>" without delay, or "Email delay is still active for <type>! Email will not be sent: <id>" with it. Nothing is validated, rewritten, sent or logged beyond the procedure's own table. |
| EmailService.ClaimFailureRecorded | src/main/java/com/nivleking/springboot/service/EmailService.java:94-123 | A failing procedure raises a plain exception without a cause. Its message is "Insert log error! Email id: <id>" or, with delay, "Email delay check failed! Email id: <id>". If the failed procedure left a row for the id, that row is updated in place and no row is added; otherwise one row is added. The id's newest row then carries "500", EMAIL_SEND_ERROR, checkTimeout's status, retries 0 and the truncated message. Nothing is sent. |
| EmailService.ValidationFailureRecorded | src/main/java/com/nivleking/springboot/service/EmailService.java:128-134 | An unacceptable request raises IllegalArgumentException with the errors joined by ", ". Nothing is sent. The outer "500" record replaces the "400" VALIDATION_ERROR one on the id's newest row. The table is what the handler's write alone would leave, except that a row the "400" write created keeps that write's `createdDate`. |
| EmailService.DeliveredOnlyWhenAcceptable | src/main/java/com/nivleking/springboot/service/EmailService.java:126-217 | The transport is reached iff the claim proceeded, the request is acceptable and sending does not fail. Then the message carries the rewritten request, the reply names the rewritten receiver, and the id's newest row, if any, reads SUCCESS. |
| EmailService.TransportFailureRecorded | src/main/java/com/nivleking/springboot/service/EmailService.java:218-223 | A transport failure is rethrown as is and recorded with checkTimeout's status. |

## Left out

- Sending itself is an oracle: JavaMail sessions, MIME building, priority parsing, attachments and `Transport.send` (network I/O). So is Thymeleaf's `processTemplate`, whose failure the same oracle stands for. Template parameters are therefore not wired into `SendEmail`; `processParams`/`processList` are modelled on their own.
- The bodies of the `EMAIL_INSERT`/`EMAIL_DELAY` stored procedures are not in the repository. The model only takes the procedure's answer and the table it leaves. The id the procedure returns is not used afterwards by the code, so only its null-ness is modelled.
- `checkIfEmailNeedsDelay`/`getDelayByEmailType` are commented out in the code. They are parameters of the call.
- The address regex (`RegexValidator`) is not shown; it is a predicate parameter.
- The enum constant values of `ConfigServerMap` are not part of this model. The keys are taken to be "EMAIL_HOST", "EMAIL_PORT" and "EMAIL_DELAY".
- Jackson serialisation of the DTO is an uninterpreted function `toJson`. Its failure, which insertLog, saveSuccessLog and saveErrorLog would each catch and only log, is not modelled.
- EmailUtilities.InsertLog: the repository never fails in the model. The code catches every exception (EmailUtilities.java:141-159), so a failing `save` leaves the table unchanged and nothing propagates. That path is not modelled.
- EmailUtilities.SaveSuccessLog: the same catch-all (EmailUtilities.java:162-181) swallows a failing `findAllByEmailId` or `save`, leaving the table unchanged. That path is not modelled, so SuccessLoggedVisible holds only for a repository whose calls succeed.
- EmailUtilities.SaveErrorLog: the same catch-all (EmailUtilities.java:184-201) swallows a failing `findAllByEmailId` or `save`, leaving the table unchanged. That path is not modelled, so ErrorLoggedVisible holds only for a repository whose calls succeed.
- UUID generation, the clock and the MDC trace id are parameters.
- EmailUtilities.SaveErrorLog: a row it creates takes `createdDate` and `lastSend`/`lastUpdatedDate` from one clock reading. The code reads the clock twice (EmailUtilities.java:192 and 218).
- `toLowerCase` lowers ASCII letters only.
- EmailUtilities.TruncateErrorMessage: a Dafny `char` is a Unicode scalar value, so lengths and indices count code points. Java's `length()`, `substring` and `lastIndexOf` count UTF-16 code units (EmailUtilities.java:236-246). On a message with supplementary characters (300 copies of U+1F600, say) Java sees length 600 and truncates, while the model sees 300 and keeps it whole. Java may also cut a surrogate pair at index 300 or at `lastCausedByIndex + 200`. The 500/300/100/200 bounds hold as stated for messages made of characters in the Basic Multilingual Plane.
- PdfJson.JsonToMap: `Json` has no Java `null` array element (an array after `put((Object) null)`). On such an element `jsonArray.get(i)` throws `JSONException` (PdfJsonUtilities.java:68), which `jsonToMap` logs and rethrows (PdfJsonUtilities.java:34-40). That error path is not modelled.
- Thymeleaf `generateHtml` and iText `generatePdfFromHtml` are library wrappers and are not modelled.
- `getDefaultProps` writes JVM-global system properties and is not modelled.
- Not modelled: controllers, exception handlers, response wrappers, the request-tracing filter, Spring bean wiring and `@RefreshScope` reference swaps, concurrency between callers, and `generate.py`.
- `insertLog` is modelled, but `sendEmail` does not call it; the procedures create the rows.
