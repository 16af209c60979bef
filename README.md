# Gratheon alerts: delivery and retry engine

A Dafny model of the alert service's delivery core. It covers the following parts.

- **The time-window gate.** `shouldSendAlert` and its copy `shouldSendSms` take `"HH:MM"` bounds and open the half-open interval `[start, end)` of the day. The bounds default to 00:00 and 23:59.
- **The fan-out.** `createAndDeliverAlert` inserts an alert and walks the owner's channel rows. It skips disabled and out-of-window channels and writes exactly one delivery-log row for every other channel. That row is `failed` with a fixed message when the destination is missing or the kind is unknown. Otherwise it is `sent` or `failed` from the sender's result, or from the exception the sender threw. Finally the alert is marked delivered.
- **The retry pass.** `retryFailedDeliveries` lists the failed rows below the retry cap, newest first and at most 100. Each listed row is either skipped or updated in place exactly once, and the update bumps its retry count.
- **The three tables.**
  - The delivery log: insert, update in place, the failed-row query and the per-alert status query.
  - The channel preferences: upsert and delete keyed by (user, channel type), and the two read queries.
  - The alert rules: filtered list, create, and owner-scoped update and delete.
- **The Telegram sender.** It adds a leading `@` to usernames, creates its bot lazily once, and turns every failure into a `{success: false, error}` result.

Modules:

| module | file | contents |
|---|---|---|
| `Wrappers` | wrappers.dfy | `Option`, `Result`, JavaScript truthiness of an optional string, `x \|\| null` |
| `Clock` | clock.dfy | `split(':').map(Number)` on time strings, formatting, the window predicate |
| `Channels` | channels.dfy | the alert_channel_config table and `ChannelStore` |
| `DeliveryLog` | delivery_log.dfy | the alert_delivery_log table and `DeliveryLogStore` |
| `Alerts` | alerts.dfy | the alert table as the engine uses it (`AlertStore`) |
| `Rules` | rules.dfy | the alert_rules table and `RuleStore` |
| `Senders` | senders.dfy | the result shape of the email, SMS and Telegram senders |
| `Telegram` | telegram.dfy | the Telegram sender with its lazily created bot |
| `Evaluator` | evaluator.dfy | `shouldSendAlert`, `createAndDeliverAlert`, `retryFailedDeliveries` |
| `Sms` | sms.dfy | `shouldSendSms` |

How the pieces are modelled:

- **Stores.** Each store is a class whose table is a `seq` (or a `map` for alerts) field. Each mutating method states its new table as a pure function of the old one, such as `Upsert`, `UpdateMatching` or `DeleteOwned`. The lemmas then prove the store's promises about those functions.
- **Fan-out and retry.** Both are imperative loops over the live stores. Each is proved against a specification of the whole pass:
  - `FanOutPlan`/`Logged` give the rows the fan-out appends;
  - `RetryUpdates`/`ApplyUpdates` give the updates a retry pass issues and the table they leave behind;
  - `FanOutCoversEachChannel` and `RetryPassEffect` then state channel by channel and row by row what a pass does.
- **Senders.** A sender is a function the pass is given, returning `Returned(result)` or `Threw(message)`.
- **Clock.** The wall clock is a parameter `Now(stamp, minute)`. The model compares times as whole minutes `60*h + m`. `Clock.DecimalHoursOrder` proves this orders times exactly as the source's decimal hours `h + m/60` do, and `Sms.ShouldSendSms` keeps the decimal-hour form to show the two agree.

Observations the model makes precise:

- **Telegram always fails.** The channel queries never select `telegram_chat_id` (src/models/alertChannel.ts:7, 16), so every row they return lacks a chat id. As a result:
  - the fan-out logs every enabled, in-window Telegram channel as `failed` with "No Telegram chat ID configured" (`Evaluator.ListedTelegramChannelFails`);
  - the retry pass never updates a Telegram row (`Evaluator.TelegramIsNeverRetried`).
- **23:59 is never in the default window.** The default end is 23:59 and the window is half open, so a channel with no stored times is closed during the minute 23:59 (`Clock.DefaultWindow`).
- **Inverted windows never open.** A window whose end is not after its start, such as 22:00-06:00, is never open (`Clock.InvertedWindowNeverOpens`).

## Model

| member | source | states |
|---|---|---|
| Clock.DecimalHoursOrder | src/models/alertEvaluator.ts:29-36 | comparing decimal hours `h + m/60` and comparing minutes `60h + m` give the same order, both for `<=` and for `<` |
| Clock.ParseFormatClock | src/models/alertEvaluator.ts:31-32 | splitting a formatted "HH:MM" at ':' and reading both fields gives back its hour and minute |
| Clock.ParseClock | src/models/alertEvaluator.ts:31-32 | a bound without ':' reads as NaN (None); otherwise the hour is the decimal value of the digits before the first ':' |
| Clock.InWindow | src/models/alertEvaluator.ts:31-36 | a bound that does not parse closes the window; an open window has now at or after the start and before the end (for bounds written as zero-padded "HH:MM", WindowIsHalfOpen gives the converse) |
| Clock.WindowIsHalfOpen | src/models/alertEvaluator.ts:31-36 | with "HH:MM" bounds the window is open exactly when start <= now < end |
| Clock.InvertedWindowNeverOpens | src/models/alertEvaluator.ts:33-36 | a window with end <= start, midnight-spanning ones included, is closed at every minute |
| Clock.DefaultWindow | src/models/alertEvaluator.ts:31-36 | null or empty bounds fall back to 00:00 and 23:59, so the window is open at every minute except 23:59 |
| Clock.ParseHalfPast | src/models/alertEvaluator.test.ts:3-8 | "09:30" reads as hour 9, minute 30, which is 9.5 decimal hours |
| Clock.ParseEndOfDay | src/models/alertEvaluator.test.ts:16-20 | the default end "23:59" reads as 23:59, between 23.98 and 23.99 decimal hours |
| Clock.WindowExamples | src/models/alertEvaluator.ts:31-36 | 09:00-17:00 is open at 10:00 and shut at 08:00 and 18:00, the cases of alertEvaluator.test.ts:36-61; beyond that test, 09:30-17:00 opens at 09:30 and not at 09:29 or 17:00, and 22:00-06:00 never opens |
| Channels.GetAll | src/models/alertChannel.ts:5-12 | every returned config is the projection of one of the user's rows, and every row of the user is returned |
| Channels.GetConfig | src/models/alertChannel.ts:14-21 | null exactly when no row has key (user, type); otherwise a config of that type, which never carries a chat id |
| Channels.IndexOfUniqueKey | src/models/alertChannel.ts:14-21 | with one row per key, the row getConfig reads is the row holding that key |
| Channels.Remove | src/models/alertChannel.ts:38-43 | a row survives the delete exactly when it does not have key (user, type) |
| Channels.Upsert | src/models/alertChannel.ts:27-33 | an existing (user, type) row is reconfigured in place keeping its id and chat id, otherwise one new row is appended; every row with another key is unchanged |
| Channels.SetThenGet | src/models/alertChannel.ts:23-36 | after setConfig, getConfig for that user and type returns a row carrying all the supplied fields |
| Channels.UpsertKeepsOneRowPerKey | src/models/alertChannel.ts:27-33 | setConfig keeps at most one row per (user, type), and adds a row only when the key was absent |
| Channels.UpsertLeavesOtherKeys | src/models/alertChannel.ts:23-36 | getConfig for any other key reads the same before and after setConfig |
| Channels.UpsertIdempotent | src/models/alertChannel.ts:23-36 | repeating the same setConfig leaves the table as the first call left it |
| Channels.RemoveDropsOnlyKey | src/models/alertChannel.ts:38-43 | after deleteConfig the key reads as null and every other key reads as before |
| Channels.RemoveKeepsKeysUnique | src/models/alertChannel.ts:38-43 | deleting keeps one row per (user, type) |
| Channels.GetAllHasNoChatId | src/models/alertChannel.ts:5-12 | no config returned by getAll carries a Telegram chat id |
| Channels.GetAllRowReadsBack | src/models/alertChannel.ts:5-21 | a config returned by getAll is exactly what getConfig returns for its user and type |
| Channels.GetAllDistinctTypes | src/models/alertChannel.ts:5-12 | the configs getAll returns for one user have pairwise different channel types |
| Channels.ChannelStore.SetConfig | src/models/alertChannel.ts:23-36 | the table becomes the upsert of the old table, the key stays unique, and the row read back carries the supplied fields |
| Channels.ChannelStore.DeleteConfig | src/models/alertChannel.ts:38-43 | the table becomes the old table without the (user, type) row, and the result is always true |
| DeliveryLog.Inserted | src/models/alertDeliveryLog.ts:5-12 | the inserted row has the given key, user and status, retry count 0, a delivery time exactly when sent, and a falsy error or message id stored as null |
| DeliveryLog.UpdateMatching | src/models/alertDeliveryLog.ts:14-26 | rows with the key get the new status, a delivery time exactly when sent, the new error and message id (null when falsy) and a retry count one higher, and keep their identity; all other rows are unchanged; no row is added |
| DeliveryLog.NewestRetryable | src/models/alertDeliveryLog.ts:37-45 | at most `limit` rows, each a failed table row below the cap, newest first when the table is in creation order |
| DeliveryLog.FailedDeliveries | src/models/alertDeliveryLog.ts:37-45 | at most 100 rows, each failed with retry_count < maxRetries, ordered newest first |
| DeliveryLog.NewestRetryableKeepsNewest | src/models/alertDeliveryLog.ts:37-45 | a retryable row missing from the result means the result is full and every listed row is newer than it |
| DeliveryLog.FailedDeliveriesKeepsNewest | src/models/alertDeliveryLog.ts:40-43 | the query lists every retryable row unless there are more than 100, and then it lists the 100 newest |
| DeliveryLog.DeliveryStatus | src/models/alertDeliveryLog.ts:28-35 | exactly the rows of that alert, in creation order |
| DeliveryLog.SentLeavesFailedQuery | src/models/alertDeliveryLog.ts:14-45 | after an update to sent, the failed-delivery query lists no row of that (alert, type) |
| DeliveryLog.InsertKeepsTimeIffSent | src/models/alertDeliveryLog.ts:5-12 | inserting keeps delivery_time set exactly on sent rows |
| DeliveryLog.UpdateKeepsInvariants | src/models/alertDeliveryLog.ts:14-26 | updating keeps delivery_time set exactly on sent rows, keeps creation order and one row per (alert, type) |
| DeliveryLog.DeliveryLogStore.LogDeliveryAttempt | src/models/alertDeliveryLog.ts:5-12 | appends one row with the given fields, retry count 0, delivery time iff sent, and absent error or id stored as null |
| DeliveryLog.DeliveryLogStore.UpdateDeliveryStatus | src/models/alertDeliveryLog.ts:14-26 | the table becomes UpdateMatching of the old table; its invariants are kept |
| Alerts.AlertStore.CreateAlert | src/models/alertEvaluator.ts:40-46 | inserts an undelivered alert under a fresh id and returns that id |
| Alerts.AlertStore.MarkAsDelivered | src/models/alertEvaluator.ts:132 | sets the alert's delivered flag and changes nothing else |
| Telegram.FormatUsername | src/delivery/telegram.ts:44 | the result starts with '@': the input itself if it already does, otherwise '@' followed by the input |
| Telegram.FormatUsernameIdempotent | src/delivery/telegram.ts:44 | formatting twice equals formatting once |
| Telegram.ErrorText | src/delivery/telegram.ts:69 | the error text is never empty and is the thrown message whenever that is non-empty |
| Telegram.Caught | src/delivery/telegram.ts:67-70 | the catch block yields a failure with an error and no message id |
| Telegram.SendResultReports | src/delivery/telegram.ts:60-71 | every Telegram send result, whatever the bot and the API do, is a success or a failure carrying a non-empty error, so the Telegram sender meets Senders.Reports |
| Telegram.SendResultOf | src/delivery/telegram.ts:40-71 | a success exactly when a bot exists and the API delivered, carrying its message id; otherwise a failure with the not-configured error or the API's message |
| Telegram.Client.GetTelegramBot | src/delivery/telegram.ts:10-19 | creates the bot only when none exists and a token is set, keeps an existing one, and fails with the not-configured message when there is neither |
| Telegram.Client.SendAlertTelegram | src/delivery/telegram.ts:33-72 | never throws; the result is SendResultOf for the '@'-formatted username, and the bot is created at most once |
| Telegram.Client.SendAlertTelegramByChatId | src/delivery/telegram.ts:81-113 | never throws; the result is SendResultOf for the chat id, and the bot is created at most once |
| Rules.Select | src/models/alertRule.ts:5-19 | a rule is selected exactly when it is in the table and satisfies every term of the WHERE clause |
| Rules.FindById | src/models/alertRule.ts:47-52 | returns a table row with that id, or null exactly when no row has it |
| Rules.FindUniqueId | src/models/alertRule.ts:27-32 | with unique ids, reading back by id returns that very row |
| Rules.UpdateOwned | src/models/alertRule.ts:35-45 | rows with that id and owner get exactly the new fields and keep id and owner; all other rows are unchanged |
| Rules.DeleteOwned | src/models/alertRule.ts:55-60 | a row survives exactly when it does not match both the id and the owner |
| Rules.UpdateKeepsIds | src/models/alertRule.ts:35-45 | an update changes no id and keeps ids unique |
| Rules.OwnerUpdateReadsBack | src/models/alertRule.ts:35-53 | the owner's update returns the rule carrying the new fields |
| Rules.ForeignUpdateIsNoOp | src/models/alertRule.ts:35-53 | another user's update leaves the table unchanged and returns that rule as it was |
| Rules.DeleteIdempotent | src/models/alertRule.ts:55-60 | deleting twice equals deleting once |
| Rules.DeleteKeepsIdsUnique | src/models/alertRule.ts:55-60 | deleting keeps ids unique |
| Rules.RuleStore.GetAll | src/models/alertRule.ts:5-19 | a rule is returned exactly when it belongs to the user and matches the hive and metric filters that are given |
| Rules.RuleStore.Create | src/models/alertRule.ts:21-33 | appends one rule with the next id and the supplied fields, advances the id counter by one, and returns that rule, as reading it back by id gives |
| Rules.RuleStore.Update | src/models/alertRule.ts:35-53 | the table becomes the owner-scoped update of the old one, and the result is the row with that id whoever owns it |
| Rules.RuleStore.Delete | src/models/alertRule.ts:55-60 | the table becomes the owner-scoped delete of the old one, and the result is always true |
| Evaluator.ShouldSendAlert | src/models/alertEvaluator.ts:24-37 | true only when the (user, type) config exists and is enabled |
| Evaluator.ShouldSendAlertHalfOpen | src/models/alertEvaluator.ts:28-36 | for an enabled config with "HH:MM" bounds, true exactly when start <= now < end |
| Evaluator.ShouldSendAlertByDefault | src/models/alertEvaluator.ts:31-36 | for an enabled config without bounds, true at every minute but 23:59 |
| Evaluator.ShouldSendAlertInverted | src/models/alertEvaluator.ts:33-36 | a config whose end is not after its start never passes |
| Evaluator.Recorded | src/models/alertEvaluator.ts:75-81 | sent exactly when the sender returned success, then with its id and no error; otherwise failed with the returned error or the exception's message |
| Evaluator.Refusal | src/models/alertEvaluator.ts:63-125 | no sender is called exactly when the kind's destination is missing or the kind is unknown, and then the reason is a non-empty message |
| Evaluator.Dispatch | src/models/alertEvaluator.ts:62-129 | sent exactly when the channel has its kind's destination and that sender returned success, then with the sender's message id and no error; otherwise failed with no message id, carrying "No email configured", "No phone number configured", "No Telegram chat ID configured" or "Unknown channel type: …" by kind, the exception's message, or the returned error |
| Evaluator.RefusedChannelCallsNoSender | src/models/alertEvaluator.ts:63-125 | a refused channel's entry is failed and does not depend on the senders |
| Evaluator.CallUsesOwnSender | src/models/alertEvaluator.ts:70-112 | the call made for a channel is that of its own kind's sender, to its own destination: senders that agree on that one call give the same outcome |
| Evaluator.DispatchReportsError | src/models/alertEvaluator.ts:62-129 | when every sender reports its failures with a message, as src/delivery/email.ts:69-79, src/delivery/sms.ts:47-56 and src/delivery/telegram.ts:60-71 do, a failed entry always carries a non-empty error |
| Evaluator.ListedTelegramChannelFails | src/models/alertEvaluator.ts:103-108 | a Telegram channel from getAll is always logged failed with "No Telegram chat ID configured" |
| Evaluator.Logged | src/models/alertEvaluator.ts:67-128 | each logged row carries the alert, the user, the entry's channel and status, retry count 0, and consecutive creation stamps |
| Evaluator.PlanMembership | src/models/alertEvaluator.ts:50-130 | an entry is in the pass's output exactly when some channel's decision produced it under its own type |
| Evaluator.PlanKindsDistinct | src/models/alertEvaluator.ts:50-130 | with one channel per type, the pass writes at most one row per type |
| Evaluator.PlanCoversEachChannel | src/models/alertEvaluator.ts:50-130 | each channel with a decision gets exactly the one entry holding it; a channel without one gets none |
| Evaluator.FanOutPlan | src/models/alertEvaluator.ts:48-130 | a pass writes at most one entry per listed channel; FanOutCoversEachChannel states which channels get one |
| Evaluator.FanOutCoversEachChannel | src/models/alertEvaluator.ts:48-130 | a listed channel gets a log row exactly when it is enabled and in its window, and that row holds its own dispatch, independent of the other channels |
| Evaluator.FanOutKeepsFailuresExplained | src/models/alertEvaluator.ts:48-130 | with senders that report their failures, every failed row the fan-out logs carries an error message |
| Evaluator.LoggedKeepsKeysUnique | src/models/alertEvaluator.ts:40-130 | rows for a fresh alert under distinct types keep one log row per (alert, type) |
| Evaluator.FanOutKeepsKeysUnique | src/models/alertEvaluator.ts:39-135 | after the fan-out the log still has one row per (alert, type), and no row refers to a later alert |
| Evaluator.LogOutcome | src/models/alertEvaluator.ts:75-81 | appends one row holding the recorded outcome |
| Evaluator.DeliverToChannel | src/models/alertEvaluator.ts:61-129 | appends exactly one row, holding the channel's dispatch |
| Evaluator.FanOut | src/models/alertEvaluator.ts:48-130 | the log becomes the old log followed by the rows the pass specification gives, and keeps one row per (alert, type) |
| Evaluator.DeliverNewAlert | src/models/alertEvaluator.ts:48-132 | appends the fan-out's rows, then sets the alert's delivered flag, keeping the stores consistent |
| Evaluator.CreateAndDeliverAlert | src/models/alertEvaluator.ts:39-135 | returns the new alert's id and advances the id counter by one, stores the alert marked delivered, appends the fan-out's rows, and keeps the stores consistent |
| Evaluator.Redispatch | src/models/alertEvaluator.ts:176-222 | no update exactly when the destination is missing or the kind is unknown; otherwise a sent or failed attempt, which for the channel's own type is its dispatch |
| Evaluator.RetryDecision | src/models/alertEvaluator.ts:143-222 | a failed row is retried exactly when its alert exists, its channel passes the gate and the destination is present, and the attempt is that channel's dispatch of the alert |
| Evaluator.TelegramIsNeverRetried | src/models/alertEvaluator.ts:208-209 | a failed Telegram delivery is never retried |
| Evaluator.RetryUpdates | src/models/alertEvaluator.ts:143-227 | a pass issues at most one update per listed row |
| Evaluator.UpdateOf | src/models/alertEvaluator.ts:186-225 | a row's update, when there is one, targets the row's own (alert, type) key |
| Evaluator.CollectMembership | src/models/alertEvaluator.ts:143-227 | an update is issued exactly when it is one row's decision |
| Evaluator.CollectDistinct | src/models/alertEvaluator.ts:143-227 | decisions with pairwise distinct keys give updates with distinct keys |
| Evaluator.ApplyUpdates | src/models/alertEvaluator.ts:186-225 | updates never add or remove log rows |
| Evaluator.ApplyUpdatesEffect | src/models/alertEvaluator.ts:143-227 | with distinct keys, each row ends up bumped once by its own update, or unchanged if it has none |
| Evaluator.SnapshotKeysDistinct | src/models/alertEvaluator.ts:140 | the rows the failed-delivery query lists have distinct (alert, type) keys |
| Evaluator.RetryUpdatesMembership | src/models/alertEvaluator.ts:143-227 | an update is issued exactly when some listed row's decision gives it |
| Evaluator.RetryUpdatesDistinct | src/models/alertEvaluator.ts:143-227 | listed rows with distinct keys give updates with distinct keys |
| Evaluator.UpdateForListedRow | src/models/alertEvaluator.ts:143-227 | the update a log row receives is its own decision if it was listed, and none otherwise |
| Evaluator.RetryPassEffect | src/models/alertEvaluator.ts:137-230 | a listed row with a decision is bumped exactly once with that attempt and was failed below the cap; every other row is unchanged; no row is added |
| Evaluator.UpdateOutcome | src/models/alertEvaluator.ts:184-190 | issues one update holding the recorded outcome |
| Evaluator.RedeliverToChannel | src/models/alertEvaluator.ts:175-226 | leaves the log unchanged when the retry switch refuses, and otherwise issues exactly one update with the retried attempt |
| Evaluator.RetryFailedDeliveries | src/models/alertEvaluator.ts:137-230 | the log becomes the old log with the pass's updates applied, and the stores stay consistent |
| Evaluator.RetryKeepsFailuresExplained | src/models/alertEvaluator.ts:137-230 | with senders that report their failures, a retry pass keeps every failed row carrying an error message |
| Evaluator.RetryKeepsConsistent | src/models/alertEvaluator.ts:137-230 | updates keep one row per (alert, type), and every logged alert id stays one the alert store has already handed out (below its next id) |
| Sms.ShouldSendSms | src/models/sms.ts:29-39 | true only when the looked-up config exists and is enabled |
| Sms.SmsAgreesWithAlertCheck | src/models/sms.ts:31-38 | on the same config and time, the SMS check, which compares decimal hours, equals the alert check |
| Sms.SmsMatchesShouldSendAlert | src/models/sms.ts:29-39 | when the lookup returns the user's row for a type, the SMS check equals shouldSendAlert for that type |
| Sms.SmsWindowIsHalfOpen | src/models/sms.ts:32-38 | for an enabled config with "HH:MM" bounds, true exactly when start <= now < end |
| Sms.SmsDefaultWindow | src/models/sms.ts:34-35 | without bounds, an enabled config passes at every minute but 23:59 |

## Left out

- SQL text, the MySQL driver and `storage()`: the tables are in-memory sequences and a map, and each statement is the function it computes. Database errors raised inside the try blocks are not modelled: only the senders throw.
- `evaluateRules` (src/models/alertEvaluator.ts:12-22): it only selects the enabled rules and logs their count.
- The email and SMS providers (src/delivery/email.ts, src/delivery/sms.ts): each is a function a pass is given, returning a result or a thrown message. The Telegram API call is likewise a function given to the Telegram sender.
- Senders are pure functions of their arguments: within one pass, two calls with the same destination and text get the same outcome, which a real provider need not give. No property of the model depends on this.
- The senders' catch-all (each returns `success: false` with `error.message` or a fixed fallback text) is the predicate `Senders.ReportsErrors`, which the failure lemmas take as a precondition. It is not proved for the email and SMS providers, which are outside the model. For Telegram it follows from `Telegram.SendResultReports`.
- The Telegram message id is taken to reach the log already as text: the sender function returns the id string, standing in for `messageId?.toString()`.
- Async/await, the server, GraphQL resolvers, configuration and logging calls.
- Concurrency: overlapping passes or concurrent writes are not modelled; each pass runs alone.
- `new Date()`: one clock value per pass, `Now(stamp, minute)`. Every row the pass writes gets the same `delivery_time`, and the window check reads the same minute for every channel.
- `created_at` is a sequence number that grows with each insert. The model therefore takes the database clock to order rows as they were inserted, and two rows never share a `created_at`.
- `getAlerts` (src/models/alerts.ts): not used by the engine. `createAlert` and `markAsDelivered` are not in that file. They are modelled from their uses (src/models/alertEvaluator.ts:40, 132) as an insert under a fresh id and a flag update.
- The retry's alert lookup (src/models/alertEvaluator.ts:149-151) reads the alert map directly. The column projection of every query is modelled only where it matters, namely the missing chat id.
- `Number()` on non-numeric text: a field with anything but digits reads as NaN (`None`), which closes the window. Signs, spaces, decimals and exponents that `Number()` would accept are not distinguished.
- Floating point: times are compared as whole minutes. `Clock.DecimalHoursOrder` shows this agrees with exact decimal hours, and rounding of `m / 60` is not modelled.
- `retryFailedDeliveries`'s default `maxRetries = 3` is not modelled: the cap is always an explicit argument.
- The order of `alertRuleModel.getAll` (no ORDER BY) is not fixed by the source: `Rules.RuleStore.GetAll` states membership only, in table order.
- `shouldSendSms`'s `getConfig(user_id)` call passes no channel type, so its result is a lookup given as a parameter; `Sms.SmsMatchesShouldSendAlert` covers the case where that lookup returns the user's row for a type.
