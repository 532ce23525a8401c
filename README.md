# Flint civic-engagement backend: the issue counter and the Supabase row post-processing

This project models, in Dafny, the two backend components that hold logic of
their own:

- `IssueDataStore` (`backend/data_store.py`), an in-memory engagement counter.
  It keeps a map from issue id to the number of users who picked the issue,
  the set of user ids already counted, and a running user total. It is modelled
  as the class `IssueStore.IssueDataStore`, whose methods change its fields in
  place. Their effect is tied to the pure transition function
  `IssueStore.Increment` on a `StoreState` value. The lemmas are stated about
  that function and about `Replay`, which runs any history of
  `increment_issues` calls with no reset in between (`reset_to_demo_data`
  clears the user set, after which a user may be counted again).
- The deterministic post-processing of `SupabaseDataStore`
  (`backend/supabase_client.py`), in module `SupabaseStore`. It covers filling
  in missing relation lists, the id-to-count table, the maximum-count total,
  the `{a,b,c}` array-literal filter, the empty-list short-circuits, the merge
  and de-duplication of candidates, the "some increment hit" result, the
  fallback values, and the credential check of the factory.
  The Supabase SDK is not modelled. A query's outcome is a parameter: a
  `Rows.QueryResult`, which is either the rows or `QueryFailed` for a raised
  exception. Where the method computes the filter, the query is a function
  from the filter value to its outcome, so that "no query is made" reads as
  "the result does not depend on that function".

Supporting modules: `Wrappers` (Option, Result), `Args` (the Python argument
shapes `issue_ids` and optional strings, with Python truthiness), `Rows` (rows
as maps from column name to a JSON-like value) and `Selection` (in-order
selection of the flagged elements of a sequence). `Selection` is the shape
of two loops in the client: the candidate de-duplication and the collection
of ids whose increment succeeded.

Two facts about the Supabase client that the model keeps as they are in the code:

- The Supabase `increment_issues` accepts a `user_id` and never uses it, so it has no duplicate-user check.
- The `get_*_by_issues` methods return the bare row list.

## Model

| member | source | states |
|---|---|---|
| `IssueStore.DemoTableFacts` | backend/data_store.py:64-80 | the demo table has exactly the twelve listed ids, each once, so the demo user total `len(table) * 100` is 1200 |
| `IssueStore.IssueDataStore.constructor` | backend/data_store.py:30-48 | a new store holds the demo table, the demo total and no counted users |
| `IssueStore.IssueDataStore.LoadDemoData` | backend/data_store.py:50-82 | replaces the table and the total with the demo values (total 1200); the counted-user set is left as it was |
| `IssueStore.BumpAllCounts` | backend/data_store.py:130-133 | the increment loop raises each known id by its number of occurrences in `issue_ids`; unknown ids are never added, the key set is unchanged |
| `IssueStore.Increment` | backend/data_store.py:122-141 | accepted exactly for a non-empty list and a user that is not a truthy id already counted; a rejection changes nothing; on acceptance the counts are the old ones plus occurrences, the total rises by exactly 1, and a truthy user is recorded (a None or empty user never is, so it is never refused) |
| `IssueStore.IssueDataStore.IncrementIssues` | backend/data_store.py:100-141 | the returned flag and the new fields are those of `Increment` on the old fields; the key order is unchanged |
| `IssueStore.ReplayMonotone` | backend/data_store.py:130-138 | along any history of `increment_issues` calls with no reset in between, the key set is fixed, no count decreases, the total never decreases and no counted user is forgotten |
| `IssueStore.NoUserCountedTwice` | backend/data_store.py:126-137 | in any history of `increment_issues` calls with no reset in between, two accepted calls never carry the same truthy user id |
| `IssueStore.ReplayTotalUsers` | backend/data_store.py:136-138 | after any history of `increment_issues` calls with no reset in between, the total is the starting total plus the number of accepted calls |
| `IssueStore.IssueDataStore.ResetToDemoData` | backend/data_store.py:143-164 | whatever the earlier history, the state afterwards equals the freshly constructed one (so reset is idempotent) |
| `IssueStore.IssueDataStore.GetFrequencies` | backend/data_store.py:84-98 | returns the current table |
| `IssueStore.IssueDataStore.GetTotalUsers` | backend/data_store.py:166-173 | returns the `total_users` field |
| `IssueStore.IssueDataStore.GetIssueNames` | backend/data_store.py:175-182 | returns every key of the table exactly once and nothing else, in dictionary insertion order |
| `SupabaseStore.NormalizeIssue` | backend/supabase_client.py:94-98 | a missing or None `related_offices` / `related_measures` becomes `[]`; every other field, and every present non-None value, is unchanged |
| `SupabaseStore.NormalizeIssueIdempotent` | backend/supabase_client.py:122-126 | normalising an already normalised row changes nothing |
| `SupabaseStore.GetAllIssues` | backend/supabase_client.py:89-105 | every returned row normalised, same length and order; `[]` when the query raises |
| `SupabaseStore.GetIssueById` | backend/supabase_client.py:117-133 | the first row, normalised, when rows came back; None when there are none or the query raises |
| `SupabaseStore.GetIssueByIdKeepsId` | backend/supabase_client.py:118-127 | when the database honours the id filter, the issue returned has the requested id |
| `SupabaseStore.FrequencyTableKeys` | backend/supabase_client.py:147-149 | the table's keys are exactly the ids of the rows |
| `SupabaseStore.FrequencyTableValues` | backend/supabase_client.py:147-149 | each id maps to the count of the last row with that id: a later duplicate overwrites an earlier one |
| `SupabaseStore.GetFrequencies` | backend/supabase_client.py:144-155 | the id-to-count table of the rows; `{}` when the query raises or a row lacks `id` or `count` |
| `Selection.KeepSelects` | backend/supabase_client.py:177-188 | the selected list is the input at the flagged positions, in order (for the increment: the in-order list of ids whose RPC hit) |
| `Selection.KeptIndicesExact` | backend/supabase_client.py:185-186 | the selected positions are exactly the flagged ones, strictly increasing |
| `Selection.KeepNonEmpty` | backend/supabase_client.py:185-191 | the selection is non-empty exactly when some flag is set |
| `SupabaseStore.IncrementIssues` | backend/supabase_client.py:168-195 | False with nothing recorded for an empty or non-list argument; False when an RPC raises; otherwise the recorded ids are the in-order hits and the result is True exactly when at least one RPC returned truthy data |
| `SupabaseStore.MaxOf` | backend/supabase_client.py:218-219 | the result is one of the counts and no count exceeds it |
| `SupabaseStore.GetTotalUsers` | backend/supabase_client.py:207-225 | the maximum row count (not the sum): attained by some row, at least every count; 0 when no rows came back, the query raises or a count is missing |
| `SupabaseStore.OverlapFilter` | backend/supabase_client.py:303 | the filter value is a brace-delimited literal |
| `SupabaseStore.OverlapFilterRoundTrip` | backend/supabase_client.py:303 | for a non-empty list of comma-free ids, stripping the braces and splitting on commas gives back exactly the list (the join is injective on such lists; PostgreSQL's own array parsing, with its trimming, NULL and quoting rules, is not modelled) |
| `SupabaseStore.OverlapFilterCommaAmbiguity` | backend/supabase_client.py:303 | ids are not quoted: `["a,b"]` and `["a","b"]` produce the same literal, so no reader of the literal can tell them apart |
| `SupabaseStore.GetOfficesByIssues` | backend/supabase_client.py:295-311 | `[]` for an empty id list whatever the query would return; otherwise the rows of the overlap query on the literal, `[]` when it raises |
| `SupabaseStore.GetBallotMeasuresByIssues` | backend/supabase_client.py:323-338 | the same lookup as for offices, on the ballot-measures table: `[]` for an empty id list, otherwise the overlap query's rows, `[]` when it raises |
| `SupabaseStore.GetCandidatesByOffices` | backend/supabase_client.py:399-417 | `[]` for an empty office list whatever the query would return; otherwise the rows of the `office_id in` query, `[]` when it raises |
| `SupabaseStore.DedupById` | backend/supabase_client.py:372-380 | the `seen_ids` loop produces exactly the first-occurrence selection `Dedup` |
| `SupabaseStore.DedupDistinctIds` | backend/supabase_client.py:374-380 | no candidate id occurs twice in the result |
| `SupabaseStore.DedupFirstOccurrences` | backend/supabase_client.py:374-380 | each kept row is the first row with its id, and kept rows keep the relative order of their first occurrences |
| `SupabaseStore.DedupCoversIds` | backend/supabase_client.py:373-380 | every id of either source appears in the result, and no other |
| `Selection.KeepAppend` | backend/supabase_client.py:373-380 | selecting from a concatenation selects from each part in turn |
| `SupabaseStore.DedupDirectFirst` | backend/supabase_client.py:373 | the de-duplicated direct matches form a prefix of the merged result: direct matches come first |
| `SupabaseStore.CandidatePool` | backend/supabase_client.py:350-373 | `[]` for an empty list; None (caught exception) when the direct query raises; the direct rows always head the pool; with no matching office, or a failed office lookup (caught inside `get_offices_by_issues`), the pool is the direct rows alone; None when an office row has no `id` or when the by-office query raises for a non-empty office list |
| `SupabaseStore.CandidatesByIssuesMerge` | backend/supabase_client.py:356-380 | when the direct and by-office queries both answer and some office matched, the pool is the direct rows followed by the office-derived rows, and its de-duplication carries exactly the ids of both answers, each once, with the de-duplicated direct matches first and only office-derived rows with ids no direct match has after them |
| `SupabaseStore.DedupTailFromSecond` | backend/supabase_client.py:373-380 | after the de-duplicated first list, the merged result holds only rows of the second list whose ids the first list does not have |
| `Rows.IdsOfAppend` | backend/supabase_client.py:373 | the ids of two concatenated row lists are the union of the ids of each |
| `SupabaseStore.NoOfficeQueryWithoutOffices` | backend/supabase_client.py:365-370 | when no office matched, the by-office query has no influence on the result |
| `SupabaseStore.GetCandidatesByIssues` | backend/supabase_client.py:340-387 | `[]` for an empty list; otherwise the pool de-duplicated by id with first occurrences kept; `[]` when the direct or the by-office query raises or a row lacks an id; a failed office lookup leaves the de-duplicated direct matches |
| `SupabaseStore.GetReadinessStats` | backend/supabase_client.py:569-580 | the first row of the RPC result when it returned rows; otherwise `yes`, `no` and `still-thinking`, all 0 |
| `SupabaseStore.CreateSupabaseDataStore` | backend/supabase_client.py:598-607 | ValueError exactly when the URL or the key is still None or empty after the environment fallback; otherwise non-empty credentials, an explicit argument taking precedence over the environment |

## Left out

- The Supabase SDK itself is not modelled: `create_client`, the query builders, `.rpc()`, `.execute()` and the connection test. Their results are parameters, and an exception is `QueryFailed` / `RpcFailed`.
- `store_user_completion`, `store_email_signup`, `get_user_completions`, `get_email_signups`, `get_all_offices`, `get_all_ballot_measures`, `get_all_candidates` and the Supabase `reset_to_demo_data` are left out. Each is a pass-through insert, select or print with no logic of its own.
- `export_data` is left out because it embeds the current time. `import_data` and `get_top_issues` are stubs that return None.
- All `print` logging is left out.
- Python aliasing is left out. `get_frequencies` returns the live dictionary, so `reset_to_demo_data` clearing it is visible through an earlier reference. The model returns the map as a value.
- Rows are mutated in place by `get_all_issues`; the model builds the new row list as a value and does not capture that the caller's `result.data` rows are the same objects.
- `Rows.Json` has no object and no floating-point variant, so a JSON-object reply or column and a float `count` cannot be written down. No modelled promise depends on them: an object's truthiness is that of a list of the same emptiness, and a non-integer count is covered by the `GetTotalUsers` line below.
- Row values are a small JSON-like datatype compared by value. Python's hashing that identifies `True` with `1`, and the TypeError for a list used as a dictionary key, are not modelled. The `id` column is text, so neither arises.
- `SupabaseStore.GetTotalUsers`: a `count` that is not an integer is modelled as the exception path (result 0). Python's `max` would return such a value when it is comparable (for example a single None row).
- `SupabaseStore.IncrementIssues`: `replies` gives the RPC outcome for each id by position; what `updated_issues` holds after an RPC raises is left unconstrained, since the function then returns False and the list is discarded.
- `SupabaseStore.GetReadinessStats`: the RPC result is taken to be a list of rows, the shape a set-returning `get_readiness_stats` function gives. If the database function returned a single JSON object instead, `result.data[0]` would raise and the code would return the zero counts; that case is not modelled.
- `SupabaseStore.CreateSupabaseDataStore`: only the credential check is modelled; creating the client and testing the connection are SDK calls.
- The session flow controller, per-issue grouping, retry and timeout logic, and browser-history handling live in the TypeScript frontend, which is not part of this model.
- `database/migrate.py`, `backend/app.py`, `backend/config.py` and `backend/run_dev.py` are left out. They hold CLI, HTTP routing, configuration constants and server start-up, and model none of the logic above.
