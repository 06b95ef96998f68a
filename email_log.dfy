/** The EMAIL_LOG table (model/EmailLog.java) and the part of its repository
    (repository/EmailLogRepository.java) that the dispatch core uses. */
module EmailLogs {
  import opened JavaLang

  /** The status values written to EMAIL_LOG.STATUS. */
  datatype EmailStatus = PENDING | SUCCESS | FAILED | TIMEOUT

  /** One EMAIL_LOG row. Timestamps are instants on an integer clock. The
      sequence-generated ID column is not a field: a row's identity is its
      position in the table. */
  datatype EmailLog = EmailLog(
    emailId: Option<string>,
    emailType: Option<string>,
    status: Option<EmailStatus>,
    templateId: Option<string>,
    numberOfRetries: Option<int>,
    jsonInput: Option<string>,
    lastSend: Option<int>,
    createdDate: Option<int>,
    lastUpdatedDate: Option<int>,
    emailDelay: Option<int>,
    requestId: Option<string>,
    httpCode: Option<string>,
    errorCode: Option<string>,
    errorMessage: Option<string>)

  /** `new EmailLog()`: every column null. */
  const EmptyLog: EmailLog :=
    EmailLog(None, None, None, None, None, None, None, None, None, None, None, None, None, None)

  /** `WHERE a.emailId = :emailId`; a null parameter matches no row. */
  predicate Matches(row: EmailLog, emailId: Option<string>) {
    emailId.Some? && row.emailId == emailId
  }

  /** `a` comes no later than `b` under `ORDER BY CREATED_DATE DESC`, where a
      null date sorts first (the Oracle and PostgreSQL default for DESC). */
  predicate NewerOrSame(a: Option<int>, b: Option<int>) {
    a.None? || (b.Some? && a.value >= b.value)
  }

  /** The position of `findAllByEmailId(emailId).getFirst()`: the matching row
      with the newest creation date, the earliest stored one among equals;
      None when no row matches. */
  function Newest(rows: seq<EmailLog>, emailId: Option<string>): (r: Option<nat>)
    ensures r.None? <==> forall j | 0 <= j < |rows| :: !Matches(rows[j], emailId)
    ensures r.Some? ==> r.value < |rows| && Matches(rows[r.value], emailId)
    ensures r.Some? ==> forall j | 0 <= j < |rows| && Matches(rows[j], emailId) ::
                          NewerOrSame(rows[r.value].createdDate, rows[j].createdDate)
    ensures r.Some? ==> forall j | 0 <= j < r.value && Matches(rows[j], emailId) ::
                          !NewerOrSame(rows[j].createdDate, rows[r.value].createdDate)
  {
    if rows == [] then None
    else
      var n := |rows| - 1;
      var p := Newest(rows[..n], emailId);
      if Matches(rows[n], emailId)
         && (p.None? || !NewerOrSame(rows[p.value].createdDate, rows[n].createdDate))
      then Some(n)
      else p
  }

  /** Rewriting a row without touching its EMAIL_ID or CREATED_DATE does not
      change which row a later `findAllByEmailId(...).getFirst()` returns. */
  lemma {:induction false} NewestStable(rows: seq<EmailLog>, i: nat, row: EmailLog, emailId: Option<string>)
    requires i < |rows|
    requires row.emailId == rows[i].emailId && row.createdDate == rows[i].createdDate
    ensures Newest(rows[i := row], emailId) == Newest(rows, emailId)
  {
    var updated := rows[i := row];
    var n := |rows| - 1;
    if i < n {
      assert updated[..n] == rows[..n][i := row];
      NewestStable(rows[..n], i, row, emailId);
      var p := Newest(rows[..n], emailId);
      assert updated[n] == rows[n];
      if p.Some? {
        assert updated[p.value].createdDate == rows[p.value].createdDate;
      }
    } else {
      assert updated[..i] == rows[..i];
    }
  }

  /** The EMAIL_LOG table as the repository sees it. */
  class EmailLogRepository {
    var rows: seq<EmailLog>

    constructor ()
      ensures rows == []
    {
      rows := [];
    }

    /** `findAllByEmailId(emailId).getFirst()`; None where `getFirst` throws. */
    function FindNewest(emailId: Option<string>): Option<nat>
      reads this
    {
      Newest(rows, emailId)
    }

    /** `save` of an entity that has no ID yet: a new row. */
    method Insert(row: EmailLog)
      modifies this
      ensures rows == old(rows) + [row]
    {
      rows := rows + [row];
    }

    /** A call of EMAIL_INSERT or EMAIL_DELAY: their bodies are stored
        procedures outside this model, so the table they leave is given. */
    method RunProcedure(table: seq<EmailLog>)
      modifies this
      ensures rows == table
    {
      rows := table;
    }

    /** `save` of an entity loaded from row `i`: that row is overwritten. */
    method Update(i: nat, row: EmailLog)
      requires i < |rows|
      modifies this
      ensures rows == old(rows)[i := row]
    {
      rows := rows[i := row];
    }
  }
}
