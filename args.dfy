/**
 * The shapes of the Python arguments both data stores accept in
 * `increment_issues(issue_ids, user_id=None)`.
 */
module Args {
  import opened Wrappers

  /** `issue_ids` is either a Python list of ids or some other object (None, a tuple, a string, ...). */
  datatype IssueIdsArg = IdList(items: seq<string>) | NotAList

  /**
   * The guard `not issue_ids or not isinstance(issue_ids, list)` fails exactly
   * for a non-empty list.
   */
  predicate ValidIssueIds(arg: IssueIdsArg)
  {
    arg.IdList? && arg.items != []
  }

  /** Python truthiness of an optional string (a user id, a credential): neither None nor the empty string. */
  predicate TruthyText(text: Option<string>)
  {
    text.Some? && text.value != ""
  }
}
