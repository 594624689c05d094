# AO-WebHook portal: a verified model

This project models the core of the AO-WebHook bot portal in Dafny. The portal is a React front end over a small Express/PostgreSQL users API. It relays chat messages to webhook URLs on behalf of logged-in accounts. Each account has a daily message quota, a suspension flag and a credit balance.

The model covers:

- **App** (`app.dfy`), the session controller. It holds:
  - the cached user records and the session account;
  - the activity log, kept as entries by id plus a newest-first id list;
  - the send gate: suspension, the stale-date reset, the daily limit, the limit bypass and the increment after success;
  - login with its daily reset, user creation, and removal cascading to the user's log entries;
  - the per-user log viewer, and the effect that keeps the session copy in step with the cache.

  The component is the class `App.Portal`. Every method's contract ties the new state to a specification function of the old state (`UpdateUserSpec`, `SendSpec`, `LoginSpec`, …). Lemmas prove the source's promises about those functions, including a state invariant every operation keeps. The server's users table is part of the state, so the portal's reaction to each reply is computed by the `Server` handlers.
- **Server** (`server.ts`). It covers:
  - `toCamelCase` and its inverse on the five field names;
  - `convertObjectKeys`, as a loop over the object's own entries;
  - the PUT whitelist, the numbered SET clause and the query it issues against a table modelled as a map from id to row;
  - the status decisions of POST, PUT and DELETE.
- **AdminPanel** (`AdminPanel.tsx`). It covers:
  - the digits-only balance inputs, and the adjustment they drive, clamped at 0;
  - the admin-first, id-ascending user order;
  - the split of requests into pending and resolved;
  - the notification guard;
  - the row controls that are disabled on the acting administrator's own row.
- **Webhook** (`webhookService.ts`). It covers the http/https check, the `{ "text": … }` body, and the error text of a failed reply.
- **UserDashboard** (`UserDashboard.tsx`). It covers the fixed purchase table with its disabled rule, the request guard, and the newest-first orders.
- Supporting modules:
  - `Types`: the records of `types.ts`, extended with the balance, requests and notifications the components use.
  - `Strings`: trimming, `parseInt`, decimal text and a lexicographic order.
  - `Json`: values, `JSON.stringify` and the unescaping a receiver does.
  - `Sorting`: a sort on a copy, and `filter`.

Several things are parameters rather than computed:

- "Today", entry timestamps and fresh log ids.
- What the webhook endpoint answers, given as `Webhook.Delivery`: a network failure, or a status with its body text and the result of parsing it.
- The database default for the balance column.

## Model

| member | source | states |
|---|---|---|
| Types.NamesAreDistinct | types.ts:1-12 | The log statuses are exactly `sending`/`success`/`error` and the roles exactly `admin`/`user`, each value with its own name; request statuses are `pending`/`approved`/`denied` |
| Server.ToCamelCaseLeavesNoPair | server.ts:24 | After renaming no `_` followed by a lower-case letter remains |
| Server.ToCamelCaseKeepsPlain | server.ts:24 | Every character outside an `_x` pair is kept: a name without such a pair is unchanged |
| Server.ToCamelCaseIdempotent | server.ts:24 | Renaming twice is renaming once |
| Server.CamelSnakeRoundTrip | server.ts:24 | A camel-case field name turned into its column name and renamed back is the field name again |
| Server.FieldColumnsAgreeWithRenaming | server.ts:77-81 | Each of the five columns the PUT handler writes renames to its field (`last_count_reset` to `lastCountReset` and so on), and back |
| Server.ConvertObjectKeys | server.ts:26-37 | Null, primitives and arrays come back unchanged; an object comes back as the renaming loop over its own entries builds it |
| Server.RenamedKeepsEntries | server.ts:30-36 | When the converter keeps keys apart, every entry keeps its position and its value and only the key is renamed |
| Server.BuildDbUpdates | server.ts:76-84 | The column updates are the mapped fields the body gives, in mapping order; there are none exactly when none of the five fields is given |
| Server.BalanceIsNotMapped | server.ts:77-81 | A balance in the body never reaches the query; a balance-only body maps nothing |
| Server.QueryShape | server.ts:88-91 | For every list of columns, the i-th assignment is `column = $(i+1)` and the id takes `$(n+1)`, after the n columns |
| Server.ResetQueryText | server.ts:88-91 | For the count and date columns the text is `UPDATE users SET message_count = $1, last_count_reset = $2 WHERE id = $3 RETURNING *` |
| Server.Put | server.ts:72-103 | The reply is 200, 400, 404 or 500; 200 exactly when a row comes back; every other reply leaves the table unchanged and carries an error |
| Server.PutEffect | server.ts:83-98 | 400 exactly when no mapped field is given, 404 exactly when some are but the id is unknown, and otherwise 200 with the stored row changed in exactly the given mapped fields |
| Server.PutClosedForm | server.ts:72-103 | The handler with its query and parameter list behaves as the closed-form outcome, so the 500 path is never taken for a well-formed body |
| Server.Post | server.ts:51-70 | A missing or empty id gives 400; an id already in the table fails the insert with 500; otherwise 201 with role `user`, not suspended, limit 20, count 0, today's date; only 201 changes the table |
| Server.Delete | server.ts:105-117 | 404 exactly when no row has the id, 204 exactly when one does, and the row is then gone |
| Webhook.RequestBodyRoundTrip | services/webhookService.ts:16-24 | The body is `{"text":…}` and a receiver reads back exactly the message sent |
| Webhook.ErrorDetails | services/webhookService.ts:28-37 | The error text starts with `Request failed with status <status>` and is nothing more exactly when the body neither parses nor has text |
| Webhook.ErrorDetailsStatus | services/webhookService.ts:28 | The status can be read back out of every error text |
| Webhook.ErrorMessageIsDetail | services/webhookService.ts:31 | For every JSON body, and whatever its text: a truthy `error.message` is the detail (a non-empty message string written as a JSON string); with no `error`, no `message` or a falsy one, the detail is the JSON of the whole body |
| Webhook.OtherKeysIgnored | services/webhookService.ts:31 | When `error.message` is truthy, two bodies with the same `error` give the same error text, whatever their other keys and their text |
| Webhook.Relay | services/webhookService.ts:10-41 | The outcome as evidently intended: a URL without `http://`/`https://` fails with the validation message before any request; a network failure fails with its reason; a reply is delivered exactly when its status is 2xx; a failed reply fails with the composed error text |
| Webhook.WrittenOutcome | services/webhookService.ts:10-41 | The outcome as written: a bad URL fails with the validation message, a network failure with its reason; 2xx delivers; a failed reply with a JSON body other than `null` gets the composed text, one whose status has no body gets the bare status line, and any other fails with the body-already-read error |
| Webhook.SendMessage | services/webhookService.ts:10-41 | No request for a bad URL, one POST of the JSON body to the URL otherwise, and the outcome is `WrittenOutcome` |
| Webhook.WrittenAgreesWithRelay | services/webhookService.ts:24-37 | The written and the intended outcome deliver on exactly the same replies, and are equal on a bad URL, a network failure, a 2xx reply and a failed reply with a non-`null` JSON body |
| Webhook.PlainTextBodyIsLost | services/webhookService.ts:29-37 | On a failed reply with a plain-text body the two differ: the intended text carries the body, the written code fails with the body-already-read error |
| Sorting.SortCorrect | components/UserDashboard.tsx:41-42 | The sorted copy is a permutation of the input, of the same length, ordered by the comparator |
| Sorting.FilterMembers | components/AdminPanel.tsx:65-66 | A filter keeps exactly the elements that pass, in their original order |
| Sorting.FilterPartition | components/AdminPanel.tsx:65-66 | A filter and the filter of the opposite test split the list between them |
| Sorting.FilterDistinct | App.tsx:230 | Filtering a list without repeats gives a list without repeats |
| Strings.LexLeTotal | components/AdminPanel.tsx:62 | Any two ids are ordered one way or the other |
| Strings.LexLeTransitive | components/AdminPanel.tsx:62 | The id order is transitive |
| Strings.TrimEmptyIffBlank | components/UserDashboard.tsx:36 | The trimmed text is empty exactly when the text is only whitespace |
| Strings.ParseIntOfDigits | components/AdminPanel.tsx:51 | `parseInt` of a non-empty digit string is its decimal value |
| Strings.ParseIntRoundTrip | components/AdminPanel.tsx:51 | `parseInt` reads back a number's decimal text |
| AdminPanel.UserBeforeIsTotalPreorder | components/AdminPanel.tsx:59-63 | The user comparator is total and transitive, so the sort respects it |
| AdminPanel.SortedUsersOrder | components/AdminPanel.tsx:59-63 | The table lists every user once, every admin before every non-admin, each group in ascending id order |
| AdminPanel.RequestsPartition | components/AdminPanel.tsx:65-66 | Every request is in exactly one of the pending and resolved lists, each list holds exactly the requests of its kind, and each keeps the original order |
| AdminPanel.Find | components/AdminPanel.tsx:47 | The result is the first user with the id, and none exactly when no user has it |
| AdminPanel.ModifyBalanceEffect | components/AdminPanel.tsx:46-55 | No update exactly when the user is unknown, the input is empty, or the amount is not a positive number; otherwise a balance-only patch for that user of `max(0, balance + amount)` when adding or `max(0, balance - amount)` when subtracting (the plain sum or difference when it is not negative) |
| AdminPanel.DigitsAmount | components/AdminPanel.tsx:41-51 | An input that passed the digits-only filter is read as its decimal value |
| AdminPanel.EnabledButtonAdjusts | components/AdminPanel.tsx:132-141 | For a listed user and digits-only inputs, the `+`/`-` button is enabled exactly when a click updates the balance |
| AdminPanel.NotificationCall | components/AdminPanel.tsx:32-37 | No call for an empty message; otherwise the message, with an empty target sent as none (a broadcast) and any other target as given |
| AdminPanel.RowCall | components/AdminPanel.tsx:104-156 | A row control makes no call exactly when it is disabled |
| AdminPanel.NoSelfHarm | components/AdminPanel.tsx:104-156 | No row control changes the acting administrator's role or suspension or removes them; every call is about its own row and none touches the balance |
| AdminPanel.EditLimitValue | components/AdminPanel.tsx:149 | A typed limit is sent as its value, an unreadable one as 0; admin rows send nothing |
| AdminPanel.Panel.HandleAddUserSubmit | components/AdminPanel.tsx:31 | The typed id is handed on and the field cleared; nothing else changes |
| AdminPanel.Panel.HandleSendNotification | components/AdminPanel.tsx:32-38 | The call is the one the guard allows; on a call both fields are cleared, otherwise nothing changes |
| AdminPanel.Panel.HandleBalanceChange | components/AdminPanel.tsx:40-44 | A user's pending input changes only to a digits-only value, so every pending input stays digits-only |
| AdminPanel.Panel.HandleModifyBalance | components/AdminPanel.tsx:46-57 | The update asked for is the adjustment above, after which only that user's pending input is emptied |
| AdminPanel.ClearingTouchesOnlyThatUser | components/AdminPanel.tsx:56 | Emptying one user's input leaves every other input as it was |
| UserDashboard.ChoosePurchase | components/UserDashboard.tsx:75-76 | A click calls back with the option's (cost, amount) exactly when the button is enabled: a balance covering the cost, and never for admins |
| UserDashboard.OffersByBalance | components/UserDashboard.tsx:20-23 | The table is (+50 for 20) and (+300 for 100): nothing is offered to admins or below 20 credits, the first option from 20, both from 100 |
| UserDashboard.RequestToSend | components/UserDashboard.tsx:36-37 | Whitespace-only text is not sent; any other text is sent as typed, untrimmed |
| UserDashboard.Dashboard.HandleSendRequestSubmit | components/UserDashboard.tsx:34-39 | The request sent is the one the guard allows, and the field is cleared exactly when one was sent |
| UserDashboard.SortedNotificationsNewestFirst | components/UserDashboard.tsx:41 | The notifications shown are all of them, newest first |
| UserDashboard.SortedRequestsNewestFirst | components/UserDashboard.tsx:42 | The requests shown are all of them, newest first |
| App.SendingText | App.tsx:120 | The entry text is `Sending: "`, then exactly the first 50 characters of the message (all of it when shorter), then `..."` |
| App.InitialInvariant | App.tsx:15-25 | The state after loading a table keyed by id satisfies the invariant |
| App.OptimisticEffect | App.tsx:59-62 | Before the reply, only a patch that sets a role changes the cache, and then only that user's role, so the admin-only controls follow at once |
| App.OptimisticAgreesWithServer | App.tsx:61 | The optimistic copy and the server's row agree on every mapped field and differ only in the balance |
| App.UpdateUserEffect | App.tsx:58-81 | After `updateUser` the table has the row patched in its mapped fields and the cache holds the returned row, other users' records unchanged; a refused update opens the error dialog and reloads the cache from the table |
| App.BalanceUpdateIsRejected | App.tsx:58-81 | A balance adjustment never reaches the table: the server answers 400, the portal shows the error and reloads the cache |
| App.UpdateUserKeepsInvariant | App.tsx:58-81 | `updateUser` keeps every record stored under its own id |
| App.UpdateLogEffect | App.tsx:83-90 | `updateLog` rewrites the status and error of one existing entry and nothing else; an unknown id changes nothing |
| App.Gate | App.tsx:93-113 | A send passes the gate only with a cached session account that is not suspended |
| App.LocalCopy | App.tsx:104-107 | The local copy the limit check and increment use has today's date and, after a stale date, a count of 0 |
| App.SendWithoutSession | App.tsx:93 | Without a session the send fails and nothing changes |
| App.SendSuspended | App.tsx:98-101 | A suspended account's send fails with only the dialog opened: no entry, no counter change |
| App.SendOverLimit | App.tsx:103-112 | A counted send at or over the limit (after the reset) fails with no entry; a stale date has been reset to 0 and today on the server first, and the cache holds what `updateUser` put there; otherwise nothing but the dialog changes |
| App.AdminsAreLimited | App.tsx:103-112 | An administrator at the limit is refused like any other account |
| App.SendBypass | App.tsx:103-133 | A bypass send skips the reset, the limit and the increment: no account changes, one entry is logged, and the result is whether the relay, as written, delivered |
| App.GateAdmits | App.tsx:93-113 | The gate admits exactly the allowed sends, leaves the log and the session alone, and hands on the local copy (or the cached record on a bypass); an admitted stale send has stored the reset on the server, and any other admitted send leaves the table and the cache alone |
| App.ResetIssuesQuery | App.tsx:106 | The reset's update maps to exactly the count and date columns with the values 0 and today, so it issues `UPDATE users SET message_count = $1, last_count_reset = $2 WHERE id = $3 RETURNING *` |
| App.EnqueuedEntryIsSending | App.tsx:115-125 | Before the relay call the new entry is `sending`, from the session account, at the head of the list, and the portal is busy |
| App.SendLogsOneEntry | App.tsx:115-142 | An allowed send logs exactly one entry under the fresh id at the head of the list, ending `success` or `error` with the error text of the relay as written (`WrittenOutcome`), so a plain-text failure logs the body-already-read error; the send succeeds exactly when the relay did |
| App.CompleteEffect | App.tsx:127-142 | The entry takes its final status; only a delivered, counted send touches an account, writing the local count plus one |
| App.SendSuccessCounts | App.tsx:127-136 | After a delivered counted send the stored count is the local copy's count plus one: the cached count plus one on a current day, 1 after a reset |
| App.SendFailureKeepsCounts | App.tsx:137-142 | A failed relay (as written) leaves every account where the gate left it, and the send fails: unchanged on a current day or a bypass, and on a stale date the stored record keeps the reset (count 0, today's date) |
| App.SendKeepsInvariant | App.tsx:92-143 | A send under a fresh id keeps the invariant: records keyed by id, the id list naming exactly the stored entries, each once |
| App.LoginUnknown | App.tsx:166-168 | An unknown id changes nothing but the "Invalid UID" error |
| App.LoginKnown | App.tsx:145-169 | A known id logs in on the main view with the error cleared; a stale date makes the session account the server's record reset to 0 and today, with the cache reloaded; a current date takes the cached record as it is |
| App.LoginKeepsInvariant | App.tsx:145-170 | Login keeps the invariant |
| App.AddUserEffect | App.tsx:178-202 | An empty or cached id is refused with a dialog; a new id is created with the defaults, on the server and in the cache; an id found only on the server fails with the server's error |
| App.AddUserKeepsInvariant | App.tsx:178-202 | Adding a user keeps the invariant |
| App.RemoveUnknown | App.tsx:204-240 | Confirming the removal of an id the server lacks only reports the error |
| App.RemoveCascade | App.tsx:204-240 | Confirming a removal drops the record (server and cache) and exactly that user's log entries from both the entries and the id list, keeping every other entry and the list's order, and closes the dialog |
| App.RemoveUsesOpeningLog | App.tsx:224 | The entries dropped are those the user owned when the dialog opened; a later entry of theirs stays |
| App.ConfirmKeepsInvariant | App.tsx:208-236 | The confirm action keeps the invariant |
| App.Collect | App.tsx:249-252 | The collected map holds exactly the listed ids that have entries, with their entries |
| App.ViewLogsEffect | App.tsx:242-261 | An admin's logs are never shown; otherwise the dialog lists exactly that user's entries, in the main list's order, with their data, and nothing else changes |
| App.ReconcileEffect | App.tsx:264-275 | Afterwards the session copy is the cached record of its id, or the session has ended because that record is gone |
| App.ReconcileIdempotent | App.tsx:264-275 | Running the effect again changes nothing |
| App.Portal.constructor | App.tsx:15-25 | The portal starts with the loaded table, no session, an empty log and a closed dialog |
| App.Portal.UpdateUser | App.tsx:58-81 | The new state is `UpdateUserSpec` of the old one |
| App.Portal.UpdateLog | App.tsx:83-90 | The new state is `UpdateLogSpec` of the old one |
| App.Portal.PassGate | App.tsx:93-113 | The checks before logging change the state as the gate says and report whether the send may go on, with the local copy |
| App.Portal.Finish | App.tsx:127-142 | The completion changes the state as `Complete` says and returns whether the relay delivered |
| App.Portal.HandleSendMessage | App.tsx:92-143 | The new state and the result are `SendSpec` of the old state, with the outcome taken from a call of `Webhook.SendMessage` |
| App.Portal.HandleLogin | App.tsx:145-170 | The new state is `LoginSpec` of the old one |
| App.Portal.FetchUsers | App.tsx:27-46 | The cache becomes the server's table, keyed by id; nothing else changes |
| App.Portal.OpenModal | App.tsx:53-55 | The dialog opens with the given title, body and confirm action; nothing else changes |
| App.Portal.CloseModal | App.tsx:56 | Only the dialog's open flag clears; its title, body and action stay |
| App.Portal.HandleLogout | App.tsx:172-176 | The session ends, with the error cleared and the main view |
| App.Portal.HandleAddUser | App.tsx:178-202 | The new state is `AddUserSpec` of the old one |
| App.Portal.HandleRemoveUser | App.tsx:204-240 | The confirmation dialog opens with the removal as its action, capturing the log as it stands |
| App.Portal.Confirm | App.tsx:208-236 | The new state is `ConfirmSpec` of the old one; the owned entries are deleted one by one |
| App.Portal.HandleViewUserLogs | App.tsx:242-261 | The new state is `ViewLogsSpec` of the old one; the entries are collected one by one |
| App.Portal.Reconcile | App.tsx:264-275 | The new state is `ReconcileSpec` of the old one |

## Left out

- Rendering (JSX), styling, the splash screen and the loading screen (`isAppLoading`) are not modelled.
- The initial fetch's failure message (`authError` for a failed `/api/users`) is not modelled, because the table is an input of the model.
- Asynchrony is not modelled: every handler runs to completion in one step. This leaves out the simulated login delay, races between the optimistic role update and the reply, and the non-awaited `fetchUsers` after a failed update.
- `fetch`, Express routing, static serving and the `pg` pool are not modelled. Replies are computed from the table map, and the relay's answer is a parameter.
- `new Date()`, `toISOString()` and `crypto.randomUUID()` are parameters: "today", the timestamps and the fresh id. `App.SendKeepsInvariant` assumes the fresh id is not already in the log.
- `localeCompare` is modelled as plain lexicographic order on characters, without locale rules.
- `JSON.stringify` equality of records in the reconciliation effect is modelled as structural equality.
- Strings are sequences of characters, not UTF-16 code units. `substring(0, 50)` therefore counts characters, and a surrogate pair is not split.
- Numbers are unbounded integers. Floating point, `NaN` limits and the precision of `parseInt` on long inputs are not modelled.
- The GET handler's `ORDER BY role DESC, id ASC` is not modelled. The portal re-keys the rows by id, so the order plays no part.
- `types.ts` has no balance field and no request or notification types. The model adds an integer `aocBalance`, takes the request statuses from the panel's colour map, and gives requests and notifications integer timestamps (epoch milliseconds), which is what the newest-first comparators compute with.
- The balance column's default is taken to be 0, because the table definition is not part of this model.
- Prototype-chain keys (such as `__proto__` or `constructor` in `users[uid]`) and `null` values in a PUT body (which the whitelist's `!== undefined` test lets through) are not modelled.
- The PUT and DELETE 500 paths are not modelled as they occur. The model's database never fails, so the 500 replies are unreachable except through a query the handler cannot build.
- App.Portal.PassGate: a send whose session id has no cached record fails without changes. The source would throw on `user.isSuspended` instead.
- App.UpdateUserSpec: the optimistic role update for an id missing from the cache is skipped. The source would insert a partial record, which the failed reply's reload then replaces.
- Purchase execution, request resolution, notification creation and read-marking are not modelled. They exist only as callback props (`onPurchaseLimit`, `onResolveRequest`, `onSendNotification`, `onMarkNotificationsAsRead`) with no implementation here. The model stops at the call each control makes.
- The balance controls are shown only for non-admin rows. That is rendering, and it lets no further event through, so it is not an operation of the model.
- The main view's filter of the session account's entries is not modelled separately. It is the same filter that `App.UserLogOrder` models.
- A parsed JSON body may hold duplicate keys in the model, which `JSON.parse` never produces. Lookups take the last duplicate, as `JSON.parse` does, but the whole-body fallback of the error text prints every duplicate. For such bodies that text has no counterpart in the source.
- Webhook.SendMessage: the message of the `TypeError` for a consumed body depends on the platform. The model uses one fixed text.
- Sorting.SortCorrect: states that the result is ordered and a permutation of the input, not that it is stable (elements the comparator ranks equal keep their input order), which `Array.prototype.sort` also guarantees.
- The portal (`App`) sends through the relay as written (`Webhook.WrittenOutcome`), because that is the text it logs. The corrected `Webhook.Relay` is proved to deliver on the same replies (`Webhook.WrittenAgreesWithRelay`), so with it the portal would differ only in the error text it logs.

## Findings

| source | as written | input that shows it | evidently intended | confidence | as-written member | corrected member |
|---|---|---|---|---|---|---|
| services/webhookService.ts:29-37 | `response.json()` reads the body even when parsing fails, so the fallback `response.text()` rejects with a body-already-used `TypeError`, and that error replaces the composed message | a reply with status 500 and the plain-text body `Internal Server Error` | the error text `Request failed with status 500: Internal Server Error`, with the body text read once | not executed | Webhook.WrittenOutcome, Webhook.PlainTextBodyIsLost | Webhook.Relay |
