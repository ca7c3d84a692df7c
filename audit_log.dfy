/** The security audit log viewer: the search and action-type filter, the
    badge colour of an action, the error-message classifier, and the fetch
    with its admin gate. */
module AuditLog {
  import opened Common
  import opened Strings
  import opened Lists
  import opened JsonValues

  /** A row of `security_audit_log`; `userId` is nullable in the schema. */
  datatype AuditLogEntry = AuditLogEntry(
    id: string,
    userId: Option<string>,
    action: string,
    resourceType: string,
    resourceId: Option<string>,
    details: Json,
    createdAt: Option<string>)

  /** The search predicate exactly as written: `user_id.toLowerCase()` is
      reached when neither `action` nor `resource_type` matches, and a null
      `user_id` then throws (`None`). */
  function MatchesSearchAsWritten(log: AuditLogEntry, term: string): (r: Option<bool>)
    ensures r.None? <==> log.userId.None? && !Contains(Lower(log.action), Lower(term)) &&
                         !Contains(Lower(log.resourceType), Lower(term))
    ensures r.Some? ==> (r.value <==> Contains(Lower(log.action), Lower(term)) ||
                                      Contains(Lower(log.resourceType), Lower(term)) ||
                                      (log.userId.Some? && Contains(Lower(log.userId.value), Lower(term))))
  {
    var t := Lower(term);
    if Contains(Lower(log.action), t) then Some(true)
    else if Contains(Lower(log.resourceType), t) then Some(true)
    else match log.userId
         case None => None
         case Some(u) => Some(Contains(Lower(u), t))
  }

  /** A row without a user id, searched for a term that is in neither its
      action nor its resource type, makes the filter throw. */
  lemma NullUserIdBreaksSearch()
    ensures MatchesSearchAsWritten(
              AuditLogEntry("1", None, "LOGIN", "auth", None, JNull, None), "session") == None
  {
    LongerNotContained(Lower("LOGIN"), Lower("session"));
    LongerNotContained(Lower("auth"), Lower("session"));
  }

  /** Case-insensitive search over action, resource type and user id; a
      null user id simply does not match. */
  predicate MatchesSearch(log: AuditLogEntry, term: string) {
    var t := Lower(term);
    Contains(Lower(log.action), t)
    || Contains(Lower(log.resourceType), t)
    || (log.userId.Some? && Contains(Lower(log.userId.value), t))
  }

  /** Wherever the source does not throw, it decides as `MatchesSearch`
      does; it throws exactly on a null user id that would have to be
      searched. */
  lemma SearchAgreesWhereDefined(log: AuditLogEntry, term: string)
    ensures MatchesSearchAsWritten(log, term).Some? ==>
            MatchesSearchAsWritten(log, term) == Some(MatchesSearch(log, term))
    ensures MatchesSearchAsWritten(log, term).None? <==>
            log.userId.None? && !MatchesSearch(log, term)
  {
  }

  /** The action-type filter: `all`, or the action contains the upper-cased
      filter value. */
  predicate MatchesAction(log: AuditLogEntry, actionFilter: string) {
    actionFilter == "all" || Contains(log.action, Upper(actionFilter))
  }

  predicate Kept(log: AuditLogEntry, term: string, actionFilter: string) {
    MatchesSearch(log, term) && MatchesAction(log, actionFilter)
  }

  /** `filteredLogs`: the entries that match both the search and the filter. */
  function FilteredLogs(logs: seq<AuditLogEntry>, term: string, actionFilter: string): (r: seq<AuditLogEntry>)
    ensures forall i :: 0 <= i < |r| ==> r[i] in logs && Kept(r[i], term, actionFilter)
    ensures forall i :: 0 <= i < |logs| && Kept(logs[i], term, actionFilter) ==> logs[i] in r
  {
    Filter(l => Kept(l, term, actionFilter), logs)
  }

  /** The filtered list keeps the original (newest first) order. */
  lemma FilteredLogsKeepOrder(logs: seq<AuditLogEntry>, term: string, actionFilter: string)
    ensures IsSubsequence(FilteredLogs(logs, term, actionFilter), logs)
  {
    FilterIsSubsequence(l => Kept(l, term, actionFilter), logs);
  }

  /** Applying the same search and filter to the filtered list changes
      nothing. */
  lemma FilteredLogsIdempotent(logs: seq<AuditLogEntry>, term: string, actionFilter: string)
    ensures FilteredLogs(FilteredLogs(logs, term, actionFilter), term, actionFilter)
            == FilteredLogs(logs, term, actionFilter)
  {
    FilterIdempotent(l => Kept(l, term, actionFilter), logs);
  }

  /** The initial view state (empty search, `all`) shows every entry. */
  lemma NoFilterShowsEverything(logs: seq<AuditLogEntry>)
    ensures FilteredLogs(logs, "", "all") == logs
  {
    forall i | 0 <= i < |logs|
      ensures Kept(logs[i], "", "all")
    {
      ContainsEmpty(Lower(logs[i].action));
    }
    FilterKeepsAll(l => Kept(l, "", "all"), logs);
  }

  datatype BadgeColor = Green | Red | Yellow | Blue

  /** `getActionBadgeColor`, checked in priority order: SUCCESS, then
      ERROR/FAILED/UNAUTHORIZED/DENIED, then ATTEMPT, else the default. */
  function ActionBadgeColor(action: string): (c: BadgeColor)
    ensures c == Green <==> Contains(action, "SUCCESS")
    ensures c == Red <==> !Contains(action, "SUCCESS") &&
                          (Contains(action, "ERROR") || Contains(action, "FAILED") ||
                           Contains(action, "UNAUTHORIZED") || Contains(action, "DENIED"))
    ensures c == Yellow <==> !Contains(action, "SUCCESS") &&
                             !(Contains(action, "ERROR") || Contains(action, "FAILED") ||
                               Contains(action, "UNAUTHORIZED") || Contains(action, "DENIED")) &&
                             Contains(action, "ATTEMPT")
  {
    if Contains(action, "SUCCESS") then Green
    else if Contains(action, "ERROR") || Contains(action, "FAILED") then Red
    else if Contains(action, "UNAUTHORIZED") || Contains(action, "DENIED") then Red
    else if Contains(action, "ATTEMPT") then Yellow
    else Blue
  }

  /** The CSS classes of each badge colour; no two colours share them. */
  function BadgeClass(c: BadgeColor): (cls: string)
    ensures c == Green <==> cls == "bg-green-100 text-green-800"
    ensures c == Red <==> cls == "bg-red-100 text-red-800"
    ensures c == Yellow <==> cls == "bg-yellow-100 text-yellow-800"
    ensures c == Blue <==> cls == "bg-blue-100 text-blue-800"
  {
    match c
    case Green => "bg-green-100 text-green-800"
    case Red => "bg-red-100 text-red-800"
    case Yellow => "bg-yellow-100 text-yellow-800"
    case Blue => "bg-blue-100 text-blue-800"
  }

  const AdminRequiredMessage := "Access denied. Admin role required."
  const GenericErrorMessage := "Failed to load security audit logs."
  const PermissionErrorMessage := "Access denied. You may not have the required admin permissions."
  const MissingTableErrorMessage := "Security audit log table not found. Database migration may be incomplete."

  /** The user-facing message for a caught error: "Access denied" first,
      then a missing relation, otherwise the generic message. */
  function ErrorMessageFor(message: Option<string>): (m: string)
    ensures m in {PermissionErrorMessage, MissingTableErrorMessage, GenericErrorMessage}
    ensures m == PermissionErrorMessage <==> message.Some? && Contains(message.value, "Access denied")
    ensures m == MissingTableErrorMessage <==>
              message.Some? && !Contains(message.value, "Access denied") &&
              Contains(message.value, "relation") && Contains(message.value, "does not exist")
  {
    if message.Some? && Contains(message.value, "Access denied") then PermissionErrorMessage
    else if message.Some? && Contains(message.value, "relation") && Contains(message.value, "does not exist")
    then MissingTableErrorMessage
    else GenericErrorMessage
  }

  /** The admin gate's own error is reported with the permissions message. */
  lemma AdminGateReportsPermissions()
    ensures ErrorMessageFor(Some(AdminRequiredMessage)) == PermissionErrorMessage
  {
    assert IsPrefix("Access denied", AdminRequiredMessage);
  }

  /** A fetched row as stored: a falsy `details` (null, false, 0, "")
      becomes `{}`; every other field is kept. */
  function StoredRows(rows: seq<AuditLogEntry>): (r: seq<AuditLogEntry>)
    ensures |r| == |rows|
    ensures forall i :: 0 <= i < |r| ==> Truthy(r[i].details)
    ensures forall i :: 0 <= i < |r| ==> r[i].(details := rows[i].details) == rows[i]
    ensures forall i :: 0 <= i < |r| && Truthy(rows[i].details) ==> r[i] == rows[i]
  {
    seq(|rows|, i requires 0 <= i < |rows| =>
      rows[i].(details := if Truthy(rows[i].details) then rows[i].details else JObject(map[])))
  }

  class AuditLogView {
    var auditLogs: seq<AuditLogEntry>
    var loading: bool
    var searchTerm: string
    var actionFilter: string
    var error: Option<string>
    var toasts: seq<string>

    constructor ()
      ensures auditLogs == [] && loading && error == None && toasts == []
      ensures searchTerm == "" && actionFilter == "all"
    {
      auditLogs, loading, error, toasts := [], true, None, [];
      searchTerm, actionFilter := "", "all";
    }

    /** What the table shows: the loaded entries that match the search and
        the action filter, in their loaded order. */
    function Visible(): (r: seq<AuditLogEntry>)
      reads this
      ensures forall i :: 0 <= i < |r| ==> r[i] in auditLogs && Kept(r[i], searchTerm, actionFilter)
      ensures forall i :: 0 <= i < |auditLogs| && Kept(auditLogs[i], searchTerm, actionFilter) ==> auditLogs[i] in r
      ensures IsSubsequence(r, auditLogs)
    {
      FilteredLogsKeepOrder(auditLogs, searchTerm, actionFilter);
      FilteredLogs(auditLogs, searchTerm, actionFilter)
    }

    /** `fetchAuditLogs` with the backend's answer as a parameter. A
        non-admin fails at the gate and no query is issued (`queried`); a
        failed query keeps the previous rows; every error is also toasted;
        loading always ends. */
    method FetchAuditLogs(role: Option<AppRole>, response: QueryResult<Option<seq<AuditLogEntry>>>)
      returns (queried: bool)
      modifies this
      ensures queried <==> role == Some(Admin)
      ensures !loading
      ensures searchTerm == old(searchTerm) && actionFilter == old(actionFilter)
      ensures !queried ==> auditLogs == old(auditLogs) && error == Some(PermissionErrorMessage)
      ensures queried && response.QueryOk? ==>
                auditLogs == StoredRows(response.data.GetOr([])) && error == None
      ensures queried && response.QueryError? ==>
                auditLogs == old(auditLogs) && error == Some(ErrorMessageFor(Some(response.message)))
      ensures toasts == old(toasts) + (if error.Some? then [error.value] else [])
    {
      loading := true;
      error := None;
      queried := false;
      var thrown: Option<string> := None;
      if role != Some(Admin) {
        thrown := Some(AdminRequiredMessage);
        AdminGateReportsPermissions();
      } else {
        queried := true;
        match response
        case QueryError(message) =>
          thrown := Some(message);
        case QueryOk(data) =>
          auditLogs := StoredRows(data.GetOr([]));
      }
      if thrown.Some? {
        var message := ErrorMessageFor(thrown);
        error := Some(message);
        toasts := toasts + [message];
      }
      loading := false;
    }
  }
}
