# LocalCyberLLMTesterApp core, modelled in Dafny

LocalCyberLLMTesterApp is a Streamlit workbench for trying cybersecurity prompts against a
local language model served by Ollama or LM Studio. This project models the three pieces
of it that carry behaviour, and proves properties of that model.

- **The backend client** (`utils/ollama_client.py`), in `ollama_client.dfy`, module
  `OllamaClient`. It covers:
  - the request each attempt of `generate_response` POSTs, for Ollama's `/api/generate`
    and for the OpenAI-style `/v1/chat/completions` served by LM Studio;
  - the bounded retry loop, as a method with a loop. Attempt `k` meets `outcomes[k]`, a
    reply or an exception supplied by the caller. Every `time.sleep` is recorded as an
    entry of a list of delays;
  - normalisation of both response shapes into one result record;
  - the line filter of `stream_response`, as a loop over the lines already split;
  - the model-list lookups.

  The client object is a class whose base URL `set_base_url` updates.
- **The conversation store** (`utils/database_manager.py`), in `database_manager.dfy`,
  module `ConversationStore`, with the table queries in `tables.dfy`, module `Tables`.
  - The SQLite database is a class `Store`. It holds the `conversations` rows as a
    sequence, the `sessions` rows as a map keyed by session id, and the AUTOINCREMENT
    counter.
  - Each method of the manager is a method of `Store` that does to these what its SQL
    statements do.
  - `CURRENT_TIMESTAMP` and `datetime('now')` become an integer clock in seconds passed by
    the caller. `datetime.now()`, used for the default session id, becomes a calendar time
    passed the same way.
- **The prompt templates** (`utils/prompt_templates.py`), in `prompt_templates.dfy`, module
  `PromptTemplates`. These are pure:
  - the 15-entry test-prompt table with its fallback;
  - the app's tab table, which looks test prompts up by use case;
  - the interpolated custom system prompt.

  The templates object holds no state, so its operations are plain functions.

Two more files support the above:

- `common.dfy` (module `Common`) holds Option/Result, Python's `str(int)`, strftime-style
  zero padding, and substring search.
- `json.dfy` (module `Json`) holds parsed JSON values and the Python operations the client
  applies to them: `dict.get`, `[0]`, `len`, `+` and truthiness. Each returns `Err` with
  the exception text where Python raises.

## Model

| member | source | states |
|---|---|---|
| Common.NatToString | LocalCyberLLMTesterApp/utils/ollama_client.py:168 | `str(n)` of a status or attempt number is a non-empty digit string, with no leading zero, that reads back as `n` |
| Json.Get | LocalCyberLLMTesterApp/utils/ollama_client.py:149-158 | `.get(key, default)` succeeds exactly on a dict; a present key gives its value, an absent one the default; anything else gives the AttributeError text |
| Json.First | LocalCyberLLMTesterApp/utils/ollama_client.py:155 | `[0]` succeeds exactly on a non-empty list or string and gives its first element (first character); an empty list or string gives the IndexError text, a dict KeyError(0), anything else the TypeError text |
| Json.Add | LocalCyberLLMTesterApp/utils/ollama_client.py:153 | `+` adds two integers (bool counts as int) and succeeds only for int+int, str+str or list+list |
| OllamaClient.Client.constructor | LocalCyberLLMTesterApp/utils/ollama_client.py:17-20 | a new client targets `http://localhost:11434` with a 300 s timeout |
| OllamaClient.Client.SetBaseUrl | LocalCyberLLMTesterApp/utils/ollama_client.py:22-24 | the base URL becomes `http://{host}:{port}`; the timeout is unchanged |
| OllamaClient.FullPromptShape | LocalCyberLLMTesterApp/utils/ollama_client.py:97-100 | the Ollama prompt is the bare prompt exactly when the system prompt is None or empty; otherwise it is `"System: " + sp + "\n\nUser: " + prompt`, field by field |
| OllamaClient.ChatMessagesShape | LocalCyberLLMTesterApp/utils/ollama_client.py:119-123 | two messages (system, then user) with a non-empty system prompt, otherwise one; the last is always the user's prompt |
| OllamaClient.BuildPost | LocalCyberLLMTesterApp/utils/ollama_client.py:93-134 | only provider "Ollama" gives the `/api/generate` payload (full prompt, fixed sampling options, `num_ctx` 8192); any other provider gives the chat payload at `/v1/chat/completions` |
| OllamaClient.ExtractOllama | LocalCyberLLMTesterApp/utils/ollama_client.py:147-153 | reading an Ollama body succeeds only on a dict; `OllamaNormalisation` gives the values |
| OllamaClient.ExtractLmStudio | LocalCyberLLMTesterApp/utils/ollama_client.py:154-158 | reading a chat body succeeds only on a dict; `LmStudioNormalisation` gives the values |
| OllamaClient.Extract | LocalCyberLLMTesterApp/utils/ollama_client.py:146-147 | a 200 body that is not JSON fails with the decoder's message |
| OllamaClient.OllamaNormalisation | LocalCyberLLMTesterApp/utils/ollama_client.py:146-166 | text is `response` (default "No response generated"); tokens is `eval_count + prompt_eval_count`; the two counters each default to 0 |
| OllamaClient.OllamaExample | LocalCyberLLMTesterApp/utils/ollama_client.py:149-153 | `{"response":"hi","eval_count":2,"prompt_eval_count":1}` normalises to text "hi" with 3/2/1 tokens |
| OllamaClient.LmStudioNormalisation | LocalCyberLLMTesterApp/utils/ollama_client.py:154-166 | text is the first choice's message content; tokens, eval_count and prompt_tokens are `usage.total_tokens`, `completion_tokens` and `prompt_tokens`, each defaulting to 0 |
| OllamaClient.LmStudioEmptyChoicesFails | LocalCyberLLMTesterApp/utils/ollama_client.py:155 | an empty `choices` list raises IndexError |
| OllamaClient.Backoff | LocalCyberLLMTesterApp/utils/ollama_client.py:170-214 | the delay is 2 s after a bad status or an unexpected error, 3 s after a timeout and 5 s after a connection error |
| OllamaClient.RunAttempt | LocalCyberLLMTesterApp/utils/ollama_client.py:139-220 | an attempt succeeds exactly on a 200 whose body extracts. Otherwise it is classed as bad status, timeout, connection error or unexpected, by its outcome |
| OllamaClient.BackedOffAgain | LocalCyberLLMTesterApp/utils/ollama_client.py:170-214 | a further failed attempt, not the last, extends the sleep record by its class's delay |
| OllamaClient.Conclude | LocalCyberLLMTesterApp/utils/ollama_client.py:161-220 | a failed final attempt returns text starting "Error: " with all three counters 0; a success returns the extracted record |
| OllamaClient.UnparsableReplyFails | LocalCyberLLMTesterApp/utils/ollama_client.py:208-214 | a 200 with a malformed body is a failed attempt of the generic class, followed by 2 s |
| OllamaClient.ConnectionErrorNamesBackend | LocalCyberLLMTesterApp/utils/ollama_client.py:194-196 | the connection-error text contains "Ollama" if and only if the provider is "Ollama" |
| OllamaClient.GenerateResponse | LocalCyberLLMTesterApp/utils/ollama_client.py:91-227 | `max_retries <= 0` sends nothing, sleeps never and returns None. Otherwise it makes at most `max_retries` identical POSTs and sleeps after every attempt but the last, by that attempt's failure class. The last attempt decides the result, and stopping early means it succeeded |
| OllamaClient.StreamPostLikeGenerate | LocalCyberLLMTesterApp/utils/ollama_client.py:377-397 | the streaming POST is the Ollama POST of `generate_response` for the same arguments, with `stream` forced on and `num_ctx` 2048 instead of 8192, whatever the provider |
| OllamaClient.StreamResponse | LocalCyberLLMTesterApp/utils/ollama_client.py:407-422 | the generator's loop yields exactly `StreamFragments` of the reply |
| OllamaClient.StreamStatusError | LocalCyberLLMTesterApp/utils/ollama_client.py:418-419 | a non-200 reply yields exactly one fragment, `"Error: HTTP {code} - {text}"` |
| OllamaClient.LineFragmentsAppend | LocalCyberLLMTesterApp/utils/ollama_client.py:408-417 | lines that do not end the stream yield their `response` values in order |
| OllamaClient.StreamStopsAtEnd | LocalCyberLLMTesterApp/utils/ollama_client.py:414-415 | nothing after a `done` line (or a line that raises) is yielded |
| OllamaClient.SkippedLinesYieldNothing | LocalCyberLLMTesterApp/utils/ollama_client.py:409-417 | empty and malformed lines yield nothing |
| OllamaClient.LineFragmentsBound | LocalCyberLLMTesterApp/utils/ollama_client.py:408-415 | at most one fragment per line |
| OllamaClient.ConnectionOk | LocalCyberLLMTesterApp/utils/ollama_client.py:26-44 | the connection test passes exactly on a 200 reply |
| OllamaClient.ListedModels | LocalCyberLLMTesterApp/utils/ollama_client.py:46-76 | a 200 dict body gives its list under the key; a non-empty result only comes from such a body, so any other status or exception gives `[]` |
| OllamaClient.ListModels | LocalCyberLLMTesterApp/utils/ollama_client.py:46-60 | a non-empty listing comes only from a 200 reply |
| OllamaClient.ListLmStudioModels | LocalCyberLLMTesterApp/utils/ollama_client.py:62-76 | a non-empty listing comes only from a 200 reply |
| OllamaClient.FindModel | LocalCyberLLMTesterApp/utils/ollama_client.py:322-325 | a non-empty result is an entry of the list that has that name |
| OllamaClient.ModelListed | LocalCyberLLMTesterApp/utils/ollama_client.py:334 | true only if some entry has that name |
| OllamaClient.GetModelInfo | LocalCyberLLMTesterApp/utils/ollama_client.py:318-328 | a non-empty result is an entry of the listing with that name |
| OllamaClient.CheckModelAvailability | LocalCyberLLMTesterApp/utils/ollama_client.py:330-337 | available if and only if `get_model_info` finds the model |
| OllamaClient.AvailableIffInfoFound | LocalCyberLLMTesterApp/utils/ollama_client.py:318-337 | on any list, `any(...)` is true exactly when the find-first loop finds a model |
| OllamaClient.LookupOnNamedList | LocalCyberLLMTesterApp/utils/ollama_client.py:320-334 | when every entry has a name: available if and only if some entry has the name, and the info is the first such entry |
| OllamaClient.LookupsAfterFailedListing | LocalCyberLLMTesterApp/utils/ollama_client.py:321-337 | a failed listing gives `{}` and "not available" |
| Tables.SessionIdRoundTrip | LocalCyberLLMTesterApp/utils/database_manager.py:244-248 | the default session id is 23 characters, starts "session_" and reads back as the time it was made from |
| Tables.SessionIdInjective | LocalCyberLLMTesterApp/utils/database_manager.py:244-248 | different times give different default session ids |
| Tables.SelectContents | LocalCyberLLMTesterApp/utils/database_manager.py:132-137 | a WHERE keeps exactly the rows that satisfy it, each as often as it occurs |
| Tables.SelectMultiset | LocalCyberLLMTesterApp/utils/database_manager.py:132-137 | as a multiset, a WHERE keeps each satisfying row as often as the table has it and drops every other row |
| Tables.SelectSplit | LocalCyberLLMTesterApp/utils/database_manager.py:308-316 | the rows a DELETE removes and the rows it keeps add up to the table |
| Tables.SelectAfterRemoval | LocalCyberLLMTesterApp/utils/database_manager.py:157-162 | after a delete, no count over the table grows |
| Tables.SelectAppend | LocalCyberLLMTesterApp/utils/database_manager.py:263-266 | a count over appended rows is the sum of the counts |
| Tables.SelectAll | LocalCyberLLMTesterApp/utils/database_manager.py:148-152 | a query with no WHERE, or one every row satisfies, sees every row in table order |
| Tables.SelectNone | LocalCyberLLMTesterApp/utils/database_manager.py:263-267 | a WHERE no row satisfies counts nothing |
| Tables.SelectKeepsIdOrder | LocalCyberLLMTesterApp/utils/database_manager.py:40 | a delete keeps AUTOINCREMENT ids increasing |
| Tables.InsertNewestCorrect | LocalCyberLLMTesterApp/utils/database_manager.py:135 | one insertion step of ORDER BY timestamp DESC keeps the order and adds exactly that row |
| Tables.InsertNewestAdds | LocalCyberLLMTesterApp/utils/database_manager.py:135 | inserting a row into an ordered answer adds exactly that row and nothing else |
| Tables.NewestFirstCorrect | LocalCyberLLMTesterApp/utils/database_manager.py:135 | ORDER BY timestamp DESC is a permutation with non-increasing timestamps |
| Tables.LimitKeepsNewest | LocalCyberLLMTesterApp/utils/database_manager.py:136 | LIMIT on a newest-first list keeps a newest-first sub-multiset of min(limit, count) rows (all of them when the limit is negative), none older than a row it drops |
| Tables.QueryIsAnswer | LocalCyberLLMTesterApp/utils/database_manager.py:132-137 | SELECT/ORDER BY/LIMIT is newest first and drawn from the matching rows. It holds as many rows as the limit allows, and no matching row left out is newer than one returned |
| Tables.UnlimitedAnswerIsComplete | LocalCyberLLMTesterApp/utils/database_manager.py:227-239 | without a limit the answer holds every matching row |
| Tables.AnswerRowsMatch | LocalCyberLLMTesterApp/utils/database_manager.py:132-137 | every row of an answer is a matching row of the table |
| Tables.LatestSavedComesFirst | LocalCyberLLMTesterApp/utils/database_manager.py:126-140 | in any answer to a tab's history (as `GetConversationHistory` returns it) after a save, the first row has the saved row's timestamp when that row is no older than the rest of its tab, and is that row when it is strictly the newest |
| Tables.SearchFindsOnlyHolder | LocalCyberLLMTesterApp/utils/database_manager.py:235-239 | any answer to a search (as `SearchConversations` returns it) for a text only one row contains is exactly that row |
| Tables.AddTabCorrect | LocalCyberLLMTesterApp/utils/database_manager.py:182-188 | counting one more row adds 1 to its tab's count and to the sum, and keeps one entry per tab |
| Tables.TabCountsCorrect | LocalCyberLLMTesterApp/utils/database_manager.py:182-188 | GROUP BY tab_name gives one entry per tab present, each the tab's row count, summing to the number of rows |
| ConversationStore.OtherSessionsUnchanged | LocalCyberLLMTesterApp/utils/database_manager.py:263-267 | a save leaves every other session's row count unchanged |
| ConversationStore.SavesInOneSession | LocalCyberLLMTesterApp/utils/database_manager.py:263-267 | after n saves into a new session it has n rows, so the stored `total_messages` is n + 1 |
| ConversationStore.DeleteKeepsConsistent | LocalCyberLLMTesterApp/utils/database_manager.py:157-162 | a delete keeps ids ordered, sessions covering rows and `total_messages` above the count |
| ConversationStore.SaveKeepsConsistent | LocalCyberLLMTesterApp/utils/database_manager.py:84-124 | a save under the next id keeps ids ordered, every row's session present and `total_messages` above the session's row count |
| ConversationStore.Store.constructor | LocalCyberLLMTesterApp/utils/database_manager.py:13-82 | a new database has both tables empty and the first id 1 |
| ConversationStore.Store.SaveMessage | LocalCyberLLMTesterApp/utils/database_manager.py:84-124 | atomic: a failing statement leaves both tables and the counter unchanged and raises its error. Otherwise exactly the given row is appended under a fresh id above every existing one, and the session row is replaced with created = last activity = now and `total_messages` = its row count + 1 |
| ConversationStore.Store.UpdateSessionActivity | LocalCyberLLMTesterApp/utils/database_manager.py:250-273 | replaces the session's row with a count of its rows + 1; the conversations are unchanged |
| ConversationStore.Store.GetConversationHistory | LocalCyberLLMTesterApp/utils/database_manager.py:126-140 | only that tab's rows, newest first, at most `limit` |
| ConversationStore.Store.GetAllConversations | LocalCyberLLMTesterApp/utils/database_manager.py:142-155 | all tabs newest first, at most `limit`; every row when the limit allows |
| ConversationStore.Store.SearchConversations | LocalCyberLLMTesterApp/utils/database_manager.py:221-242 | exactly the rows whose message or response contains the query, newest first; restricted to the tab only when it is non-empty |
| ConversationStore.Store.ClearConversation | LocalCyberLLMTesterApp/utils/database_manager.py:157-162 | deletes exactly the tab's rows; sessions and counter untouched |
| ConversationStore.Store.ClearAllConversations | LocalCyberLLMTesterApp/utils/database_manager.py:164-170 | both tables empty; ids are not reused |
| ConversationStore.Store.CleanupOldConversations | LocalCyberLLMTesterApp/utils/database_manager.py:303-316 | deletes exactly the rows older than now − days and returns that count |
| ConversationStore.Store.Remove | LocalCyberLLMTesterApp/utils/database_manager.py:161 | a DELETE keeps exactly the rows its complement selects and keeps the tables consistent |
| ConversationStore.Store.GetDatabaseStatus | LocalCyberLLMTesterApp/utils/database_manager.py:172-206 | the total is the row count; the per-tab counts are one per tab, each that tab's row count, summing to the total; recent activity counts rows newer than a day |
| ConversationStore.Store.ExportConversations | LocalCyberLLMTesterApp/utils/database_manager.py:208-219 | "json" and "csv" give the 100-newest answer; any other format is ValueError |
| ConversationStore.ExportIsCapped | LocalCyberLLMTesterApp/utils/database_manager.py:142-152 | with more than 100 rows, any 100-limited answer over all rows (as `ExportConversations` returns it) holds exactly 100, fewer than the table |
| PromptTemplates.TestPrompts | LocalCyberLLMTesterApp/utils/prompt_templates.py:13-92 | a known use case gets its own three prompts in order; anything else gets `["Test prompt not available for this use case."]` |
| PromptTemplates.TableLookup | LocalCyberLLMTesterApp/utils/prompt_templates.py:13-92 | a use case is a key of the `test_prompts` dict exactly when it is one of the fifteen, and its value is its own three prompts |
| PromptTemplates.UseCasesDistinct | LocalCyberLLMTesterApp/utils/prompt_templates.py:15-92 | fifteen distinct use cases; a lookup gives three prompts if and only if the use case is one of them |
| PromptTemplates.PromptsBelongToTheirUseCase | LocalCyberLLMTesterApp/utils/prompt_templates.py:15-91 | two use cases never share a prompt |
| PromptTemplates.EveryTabHasPrompts | LocalCyberLLMTesterApp/app.py:599-676 | every tab's use case is a known key, so no tab gets the fallback; every key has a tab |
| PromptTemplates.CustomPrompt | LocalCyberLLMTesterApp/utils/prompt_templates.py:512-530 | the custom prompt begins with the sentence naming domain, expertise and task |
| PromptTemplates.CustomPromptBullets | LocalCyberLLMTesterApp/utils/prompt_templates.py:514-518 | the domain and the expertise reappear in the first two bullet lines |
| PromptTemplates.CustomPromptLength | LocalCyberLLMTesterApp/utils/prompt_templates.py:514-530 | all but the arguments is fixed text: the domain and expertise are inserted twice each, the task once |

## Left out

**Transport and engine**
- HTTP transport, `time.sleep` and logging. Each call is an outcome supplied by the caller, and each sleep is a recorded delay.
- SQLite connections, PRAGMAs, WAL mode, busy timeouts and creating the database directory.
- Failing statements outside `SaveMessage`. Only `SaveMessage` takes a fault. `UpdateSessionActivity`, the three deletes and the queries always succeed in the model. In the source each `execute` can raise, for example on a locked database, and the exception propagates with nothing changed.
- Opening an existing database file. The store always starts empty.
- The `sessions.id` column, which no method reads.

**Numbers, text and time**
- Floating-point values. Temperature and the fixed sampling constants are carried as opaque literals and never computed with. JSON numbers with a fraction are not modelled. As a result, the model has no float `eval_count` and no float `+`.
- Exception texts follow CPython 3.11 wording.
- The text of a JSON decoder error is a parameter of the outcome.
- SQLite `LIKE` is modelled as a case-sensitive substring test. Real `LIKE` folds ASCII case and treats `%` and `_` in the query as wildcards.
- `datetime('now', ...)` arithmetic and the text form of timestamps. Time is integer seconds, and a day is 86400 s.
- Ties between equal timestamps. ORDER BY leaves their order unspecified. The model puts the later-inserted row first; the contracts of the store's queries (`IsAnswer`) and `Tables.LatestSavedComesFirst` hold for any order of ties.

**Omitted operations and fields**
- `chat_completion` and `pull_model`: single-shot wrappers outside the modelled core.
- `get_health_status`: its `response_time` is a float taken from the HTTP library.
- `get_session_statistics`: it needs AVG and rounding.
- `get_database_status`: the database size fields (filesystem size and float rounding) are not modelled.
- `export_conversations`: the CSV text that pandas renders is not modelled. The CSV branch returns the rows it renders.
- The prose of the sixteen system-prompt getters and of the 45 canned test prompts. A canned prompt is named by its use case and position.
- `app.py` and `run_app.py`: UI rendering, session state and the process launcher.
- ConversationStore.Store.CleanupOldConversations: `days` is a natural number. A negative `days` turns the SQL modifier into `--N days`, which is not modelled.
- Tables.SessionIdAt: years outside 1000-9999 are excluded, where `%Y` would not give four digits.
- ConversationStore.Store.GetDatabaseStatus: the per-tab entries come in first-appearance order, not by descending count. `dict(...)` keeps the ORDER BY order, and that order is not modelled.
- OllamaClient.GenerateResponse: the "All retry attempts failed" return at the end of the loop body is unreachable, because every path before it returns or continues. It is therefore not modelled. With `max_retries <= 0` the loop never runs and the function returns None.
- Python's default arguments (model name, host, port, limits) are not modelled. Callers of the model pass every argument. The history query's default limit of 50 is therefore left to the caller. The all-tabs default of 100 is the constant `AllLimit`, because export relies on it.
