# DomTracker, modelled in Dafny

DomTracker is a Telegram bot that runs as a Cloudflare Worker. It watches a
part of a web page, selected by an XPath expression, and tells the user when
that part changes. Users talk to it with commands:

- `/add <url> <xpath> [label]`
- `/list`
- `/status`
- `/delete <id>`
- `/start` and `/help`

A cron trigger, or a request to `/__scheduled`, runs a sweep over every
active tracked item. The sweep fetches the page, extracts the selected text,
fingerprints it, stores it and sends a "Content Changed!" notice when the
fingerprint differs from the stored one.

This project models that core and proves properties of the model:

- `js.dfy` (`Js`): the JavaScript semantics the code relies on.
  - Strings are sequences of UTF-16 code units.
  - ToInt32, `<<` and `&`.
  - `Number.prototype.toString` and `parseInt` on decimal integers.
  - `trim`, `split(' ')` and `join(' ')`.
  - `substring`, and the `||` fallback on strings.
- `constants.dfy` (`Constants`):
  - the `CONFIG` values and `HTTP_STATUS`;
  - the `MESSAGES` templates that have behaviour: `ADD_SUCCESS`, `ADD_LIMIT_REACHED` and `CONTENT_CHANGED`;
  - the headers of `/list` and `/status`.
- `extractor.dfy` (`Extractor`):
  - `hashContent`, as a loop that uses the same shift and mask as the source;
  - `extractContent`, with its HTML → XML → document-element fallback chain and its text assembly.
  - The fetch is an outcome value. The DOM parser and the XPath engine are uninterpreted functions.
- `storage.dfy` (`Storage`): `DatabaseManager` as a class over the two tables.
  - Tables are sequences whose positions are the rowids.
  - `clock` counts statements and serves as `CURRENT_TIMESTAMP`.
  - A fault oracle says which statement rejects, and with which message.
- `telegram.dfy` (`Telegram`): `TelegramBot.sendMessage`, reduced to an outbox of accepted messages and a delivery oracle.
- `platform.dfy` (`Platform`): the world outside the Worker. That is the pages by URL and time, the DOM functions, `toLocaleString`, and `new URL` as a predicate.
- `scheduler.dfy` (`Scheduler`): `handleScheduledCheck`.
  - It is a `while` loop over the snapshot.
  - It is proved equal to the pure function `ScheduledCheck`.
  - The per-item rules are proved as lemmas about that function.
- `render.dfy` (`Render`): the `forEach` loops of `/list` and `/status`, proved equal to the concatenation of the entries.
- `commands.dfy` (`Commands`): the `CommandHandler` methods and `handleTelegramUpdate`.
- `worker.dfy` (`Worker`): `fetch` routing and `scheduled`.

Every handler is an imperative method over the `DatabaseManager` and
`TelegramBot` objects. A call that rejects in JavaScript answers
`Abrupt(message)`. The `try`/`catch` blocks are modelled as they are written.

## Model

| member | source | states |
|---|---|---|
| Constants.AddSuccessShows | src/constants.js:68-75 | ADD_SUCCESS shows the URL and XPath verbatim, the label or 'No label' when it is null or empty, and the content whole when at most 200 units, else its first 200 units followed by '...' |
| Constants.AddLimitReachedShows | src/constants.js:77-83 | ADD_LIMIT_REACHED shows the decimal form of its limit, and different limits give different texts |
| Constants.ContentChangedShows | src/constants.js:111-125 | CONTENT_CHANGED shows label, URL, XPath and new content verbatim, and the old content, or 'No previous content' when it is null or empty |
| Constants.Preview | src/constants.js:74 | `substring(0, n)` plus '...' exactly when the content is longer than n, else the content itself |
| Constants.AddSuccess | src/constants.js:68-75 | ADD_SUCCESS starts with its heading, the URL and the XPath |
| Constants.AddLimitReached | src/constants.js:77-83 | ADD_LIMIT_REACHED starts with its heading and the decimal form of the limit |
| Constants.ContentChanged | src/constants.js:111-125 | CONTENT_CHANGED starts with its heading, the label and the URL |
| Js.ToInt32Congruent | src/index.js:196-197 | ToInt32 depends only on its argument modulo 2^32 |
| Js.ToInt32 | src/index.js:197 | the result is a signed 32-bit integer congruent to its argument modulo 2^32 |
| Js.LeftShift | src/index.js:196 | `<<` answers a signed 32-bit integer |
| Js.BitAnd | src/index.js:197 | `&` answers a signed 32-bit integer |
| Js.NumberToString | src/index.js:199 | the decimal text is never empty and starts with '-' iff the number is negative |
| Js.ParseInt | src/index.js:345 | NaN for blank text and for text whose first non-blank unit is no sign and no digit |
| Js.Trim | src/index.js:181 | the result is empty iff the text is all white space, otherwise it neither starts nor ends with white space, and it is never longer |
| Js.BitAndSelf | src/index.js:197 | `h & h` is ToInt32(h) |
| Js.ParseIntOfNumberToString | src/index.js:345 | `parseInt` reads back the decimal text of any integer |
| Js.NumberToStringInjective | src/index.js:199 | different integers have different decimal texts |
| Js.TrimIdempotent | src/index.js:181 | trimming twice is trimming once |
| Js.Split | src/index.js:222 | `split(' ')` gives at least one piece, and no piece contains a space |
| Js.JoinSplit | src/index.js:222 | joining the pieces of a split with the separator gives the text back |
| Js.SplitJoin | src/index.js:240 | splitting a join of space-free pieces gives the pieces back |
| Js.SplitLength | src/index.js:222 | a split has one more piece than the text has spaces |
| Js.OrElse | src/index.js:49-51 | `x \|\| d` is d exactly when x is null or empty (or d itself), and is x itself when x is non-empty |
| Extractor.Fold | src/index.js:192-198 | the running hash is always a signed 32-bit integer |
| Extractor.ComputeHash | src/index.js:190-200 | the loop answers the number 0 for empty content, else the decimal text of the left fold h := ToInt32(31·h + charCode) from 0 |
| Extractor.HashContent | src/index.js:190-200 | the fingerprint is a number, namely 0, exactly for empty content, else a string |
| Extractor.FoldIsTruncatedPolynomial | src/index.js:192-198 | the hash is the base-31 polynomial of the code units reduced to signed 32 bits |
| Extractor.HashContentEqual | src/index.js:190-200 | two contents have equal fingerprints iff both are empty or both are non-empty with equal folds |
| Extractor.NonEmpty | src/index.js:181 | the filter keeps only non-empty fragments and is empty iff every fragment is |
| Extractor.AssembleTextIsAssembled | src/index.js:181 | map/filter/join equals the fragment-by-fragment definition: trimmed fragments in node order, empties dropped, single spaces between |
| Extractor.AssembleTextEmptyIff | src/index.js:181 | the text is "" iff every node's text trims to nothing (or is missing) |
| Extractor.AssembleTextIsTrimmed | src/index.js:181 | the extracted text neither starts nor ends with white space |
| Extractor.FirstMatch | src/index.js:159-174 | the result is the first attempt that throws or selects nodes, every earlier attempt having selected nothing; an empty result means every attempt selected nothing |
| Extractor.ExtractIsFirstMatch | src/index.js:150-183 | for an OK response the result is null when the first deciding attempt threw or all selected nothing, else the assembled text of the first non-empty selection: HTML, then XML, then the XML document element |
| Extractor.Matched | src/index.js:176-183 | null iff no node was selected, else text without white space at either end |
| Extractor.Extract | src/index.js:142-188 | a non-null result comes from an OK response and has no white space at either end |
| Extractor.ExtractNullIff | src/index.js:142-188 | the result is null iff the fetch failed or was not OK, an attempt threw before a match, or no attempt selected a node |
| Extractor.ExtractEmptyIff | src/index.js:176-183 | the result is "" iff some attempt selected nodes and none of them had non-blank text, so "" and null are distinct |
| Storage.FindUser | src/index.js:54-56 | the lookup answers a row with that telegram_id iff one exists |
| Storage.RegisteredKeepsUsers | src/index.js:43-52 | INSERT OR IGNORE keeps the table valid and its old rows, a present telegram_id is left as it was, a new one gets the next id with '' for missing names, and the lookup then finds it |
| Storage.FindUserAppend | src/index.js:54-56 | appending another telegram_id leaves every lookup as it was |
| Storage.Registered | src/index.js:43-52 | INSERT OR IGNORE keeps the old rows and adds at most one, and adds none iff that telegram_id is present |
| Storage.ListedFor | src/index.js:70-78 | the listing holds exactly the active rows of that user |
| Storage.ListedForCountAndOrder | src/index.js:70-78 | the listing has COUNT(*) rows, newest first when `created_at` ties are broken by rowid |
| Storage.ActiveCountSnoc | src/index.js:119-127 | an insert raises its owner's count by one and no other user's |
| Storage.Joined | src/index.js:90-99 | every snapshot row is an active row of the table, paired with the telegram_id of the user row its user_id names |
| Storage.JoinedHasEveryActiveItem | src/index.js:90-99 | every active row whose user row exists is in the snapshot |
| Storage.JoinedAscending | src/index.js:90-99 | the snapshot has no repeated row; the rowid order it is in is a modelling choice |
| Storage.SoftDeletedEffect | src/index.js:80-88 | the soft delete deactivates only the row with that id and owner, changes nothing else, is idempotent, and the row still matches afterwards |
| Storage.SoftDeletedCount | src/index.js:80-88 | a delete never raises a count, and other users' counts stay as they were |
| Storage.StoredEffect | src/index.js:101-108 | the update sets content, hash, last_checked and last_updated of its row only, and keeps every count |
| Storage.TouchedEffect | src/index.js:110-117 | the update sets last_checked of its row only, and keeps every count |
| Storage.InsertedCount | src/index.js:61-68 | an insert adds one active row for its user |
| Storage.Inserted | src/index.js:61-68 | the insert appends one active row of that user with null content and hash, keeping every old row |
| Storage.ActiveCount | src/index.js:119-127 | COUNT(*) is at most the number of rows |
| Storage.SoftDeleted | src/index.js:80-88 | the soft delete keeps the number of rows (its effect is Storage.SoftDeletedEffect) |
| Storage.Stored | src/index.js:101-108 | the content update keeps the number of rows (its effect is Storage.StoredEffect) |
| Storage.Touched | src/index.js:110-117 | the last_checked update keeps the number of rows (its effect is Storage.TouchedEffect) |
| Storage.DatabaseManager.GetOrCreateUser | src/index.js:42-59 | the insert-or-ignore then the select, each of which may reject; the table afterwards and the row answered |
| Storage.DatabaseManager.AddTrackingItem | src/index.js:61-68 | inserts an active row with null content columns and answers its rowid |
| Storage.DatabaseManager.GetUserTrackingItems | src/index.js:70-78 | answers the user's active rows, newest first |
| Storage.DatabaseManager.DeleteTrackingItem | src/index.js:80-88 | the soft delete, answering whether a row with that id and owner exists, active or not |
| Storage.DatabaseManager.GetAllActiveTrackingItems | src/index.js:90-99 | answers the joined snapshot |
| Storage.DatabaseManager.UpdateTrackingItem | src/index.js:101-108 | stores content and hash, and stamps both timestamps with the statement's time |
| Storage.DatabaseManager.UpdateLastChecked | src/index.js:110-117 | stamps last_checked with the statement's time |
| Storage.DatabaseManager.GetUserTrackingItemsCount | src/index.js:119-127 | answers the count of the user's active rows |
| Telegram.SendResult | src/index.js:12-28 | a send rejects iff the request itself fails; an API error object is returned, not thrown |
| Telegram.TelegramBot.SendMessage | src/index.js:12-28 | one attempt; the message joins the outbox iff the API accepts it |
| Scheduler.SameContentNoNotice | src/index.js:467 | content whose fingerprint is the stored one never triggers a notice |
| Scheduler.BaselineNoNotice | src/index.js:467 | no notice on a first observation, nor after a stored number-0 fingerprint of empty content |
| Scheduler.NoticeIffFingerprintDiffers | src/index.js:467 | after a non-empty baseline, a notice is due iff the new content is empty or its fold differs |
| Scheduler.ShouldNotify | src/index.js:467 | a notice is due only after a stored fingerprint that differs from the new one, and never after a stored number 0 |
| Scheduler.Deliver | src/index.js:464-476 | fingerprinting, notifying and storing keep the users table and the number of rows, never move the clock back, only add to the outbox, and send nothing when no notice is due |
| Scheduler.Process | src/index.js:456-481 | one item's check has the same frame, and a null extraction sends nothing |
| Scheduler.Sweep | src/index.js:455-482 | the pass keeps the users table and the number of rows, never moves the clock back and only adds to the outbox |
| Scheduler.ScheduledCheck | src/index.js:448-488 | the check moves the clock on and keeps the same frame; when the snapshot query rejects, it ends with tables and outbox as they were |
| Scheduler.TouchedChecked | src/index.js:110-117 | updateLastChecked stamps its row within the statement and leaves other stamps since t in place |
| Scheduler.StoredChecked | src/index.js:101-108 | updateTrackingItem does the same for last_checked |
| Scheduler.TouchStepChecked | src/index.js:460 | a null extraction's update stamps the row when it does not reject, and keeps other stamps |
| Scheduler.DeliverChecked | src/index.js:464-476 | storing the content stamps the row when it does not reject, and keeps other stamps |
| Scheduler.RecoverChecked | src/index.js:478-481 | the catch block's updateLastChecked stamps the row when it runs without rejecting, and keeps other stamps |
| Scheduler.NullExtractionTouchesOnlyLastChecked | src/index.js:457-462 | a null extraction sends nothing and changes no column but that row's last_checked, whatever fails |
| Scheduler.ContentIsAlwaysStored | src/index.js:464-476 | extracted content is stored with its fingerprint and both timestamps, also when unchanged |
| Scheduler.NoticeIff | src/index.js:466-473 | one send is attempted iff there is content and the rule holds, and the notice, to the owner's telegram_id with the stored and the new content, is delivered iff the API also accepts it |
| Scheduler.SendFailureKeepsContent | src/index.js:472-480 | the notice goes before the update, so a failed send leaves stored content and hash as they were |
| Scheduler.ProcessRefreshes | src/index.js:455-481 | an item checked without an escaping error has last_checked stamped within that check, and rows stamped since some time keep a stamp since then |
| Scheduler.ProcessFrame | src/index.js:455-481 | checking an item leaves rows with other ids as they were |
| Scheduler.SweepAppend | src/index.js:455-482 | a pass over a + b is a pass over a, then over b unless an error escaped |
| Scheduler.ProcessAbortsIff | src/index.js:456-481 | when an item's `try` throws, the `catch` runs updateLastChecked on the state the throw left; the check ends the pass iff the `try` threw and that statement rejected as well |
| Scheduler.SweepContinues | src/index.js:455-482 | an item check that does not abort is followed by the pass over the remaining rows |
| Scheduler.SweepAbortsIff | src/index.js:455-482 | a pass ends early iff some row's check aborts after every earlier row's check finished |
| Scheduler.SweepRefreshesAll | src/index.js:453-482 | a pass that ends without an escaping error has stamped last_checked of every snapshot row within the pass |
| Scheduler.SweepKeepsChecked | src/index.js:455-482 | a row whose last_checked was stamped since time t still has a stamp since t after a pass |
| Scheduler.SweepFrame | src/index.js:455-482 | rows not in the snapshot, and the users table, are left as they were |
| Scheduler.ProcessKeepsCounts | src/index.js:455-481 | checking an item keeps every user's active count |
| Scheduler.SweepKeepsCounts | src/index.js:455-482 | so does a pass |
| Scheduler.ScheduledCheckKeepsCounts | src/index.js:448-488 | so does the whole scheduled check |
| Scheduler.CheckOne | src/index.js:456-481 | one iteration of the loop, equal to the per-item specification |
| Scheduler.SweepRows | src/index.js:455-482 | the `for` loop over the snapshot leaves tables, clock and outbox as the pass specification says, and reports whether an error escaped |
| Scheduler.ProcessOne | src/index.js:459-481 | the loop body after extraction, equal to the per-item specification |
| Scheduler.HandleScheduledCheck | src/index.js:448-488 | the handler leaves tables, clock and outbox as ScheduledCheck says |
| Render.ListEntries | src/index.js:286-296 | one entry per item, numbered from 1 |
| Render.StatusEntries | src/index.js:314-327 | one entry per item, numbered from 1 |
| Render.RenderList | src/index.js:285-296 | the loop builds the header followed by every entry in order |
| Render.RenderStatus | src/index.js:313-327 | the loop builds the header followed by every entry in order |
| Render.ListText | src/index.js:285-296 | the /list text starts with LIST_HEADER, and is only that for no items |
| Render.StatusText | src/index.js:313-327 | the /status text starts with STATUS_HEADER, and is only that for no items |
| Render.ListShowsItem | src/index.js:286-296 | the /list text shows each item's position, label or 'No label', URL, XPath and id |
| Render.StatusShowsItem | src/index.js:314-327 | the /status text shows each item's label, URL and content or 'No content yet', cut to 150 units with '...' exactly when longer |
| Commands.Words | src/index.js:222 | the command line always has a command word |
| Commands.ArgsCount | src/index.js:222 | there are as many arguments as spaces |
| Commands.Args | src/index.js:222 | no argument contains a space |
| Commands.Label | src/index.js:240 | the label is null with at most two arguments, and never empty |
| Commands.LabelIsTextAfterSelector | src/index.js:222-240 | with space-free command, URL and XPath, the arguments are URL and XPath and the label is the rest of the text verbatim, or null when empty |
| Commands.CommandWordIff | src/index.js:413-416 | the command word is w iff the text is w or starts with w and a space |
| Commands.EnrolledIdFound | src/index.js:42-59 | the row read back is the sender's, with the id the handlers use |
| Commands.Enroll | src/index.js:42-59 | getOrCreateUser for the sender succeeds iff both statements do |
| Commands.HandleStart | src/index.js:210-216 | registers the sender, then replies WELCOME |
| Commands.HandleHelp | src/index.js:359-364 | replies HELP |
| Commands.CommandWordsDistinct | src/index.js:417-432 | the six `case` words are pairwise different |
| Commands.Classify | src/index.js:416-439 | each of /start, /add, /list, /status, /delete and /help selects its own handler exactly when the word is that text, and every other word falls to the default |
| Commands.CatchReply | src/index.js:263-269 | REQUEST_TIMEOUT iff the error message is 'Request timeout', else ADD_ERROR |
| Commands.Attempt | src/index.js:251-262 | XPATH_FAILED on null; else insert, store content and hash, confirm; which error it ends with |
| Commands.StoreAndConfirm | src/index.js:260-262 | updateTrackingItem then ADD_SUCCESS: a rejecting update changes nothing, else the row gets the content and its fingerprint and exactly one confirmation is attempted |
| Commands.TryCreate | src/index.js:250-270 | the try block and its catch: the row left behind and the one reply for each failing step |
| Commands.AppendKeepsLimit | src/index.js:230-233 | a row added under the limit keeps every user within it |
| Commands.AddForUser | src/index.js:230-270 | limit, URL and selector checks in order, with their replies; a row only when all pass |
| Commands.HandleAdd | src/index.js:218-271 | nothing stored for fewer than 2 arguments, at the limit, for an invalid URL or a null extraction; the new row's URL, XPath, label and, when stored, hashContent of the content; the cap of 5 active items per user is kept |
| Commands.NoItemsNotice | src/index.js:278-283 | NO_TRACKING_ITEMS iff the user has no active item |
| Commands.HandleList | src/index.js:273-299 | replies the listing of the sender's active items, or NO_TRACKING_ITEMS, and completes as that send does |
| Commands.HandleStatus | src/index.js:301-330 | replies the status of the sender's active items, or NO_TRACKING_ITEMS, and completes as that send does |
| Commands.DeleteArgument | src/index.js:340-349 | no argument iff there are no arguments; not a number iff `parseInt` of the first argument is NaN; otherwise the id `parseInt` reads |
| Commands.DeleteArgumentOfNumber | src/index.js:345 | an id as /list prints it is read back as that id |
| Commands.HandleDelete | src/index.js:332-357 | only the named row of the sender is deactivated; the reply is DELETE_SUCCESS iff that row exists |
| Commands.DeleteOwned | src/index.js:351-356 | the soft delete then the reply: on success DELETE_SUCCESS iff the sender owns a row with that id, else DELETE_NOT_FOUND; when the statement rejects, no reply |
| Commands.Recover | src/index.js:440-445 | after any error GENERAL_ERROR is sent |
| Commands.DispatchForSender | src/index.js:416-431 | the handlers that need a sender keep the per-user cap; /start, /list and /status leave the items alone and reply WELCOME, the listing and the status; /add appends at most one row; /delete deactivates at most the named row of the sender |
| Commands.Dispatch | src/index.js:416-439 | a missing sender throws before any statement; unknown words get UNKNOWN_COMMAND; /help needs no sender; with a sender, each word has its handler's effect on the items and its reply |
| Commands.HandleTelegramUpdate | src/index.js:400-446 | updates without a message or a '/'-text change nothing; otherwise every reply quotes the message and the cap is kept; it rejects only when a command's last send rejected; each command word has its handler's effect on the items, and /start, /list and /status their reply when nothing fails |
| Worker.WebhookAcceptedIff | src/index.js:372-380 | a webhook call is handled iff it is a POST to /webhook with a non-empty secret header equal to the configured one |
| Worker.UnsetSecretRefusesAll | src/index.js:375 | with no or an empty configured secret no update is handled |
| Worker.ScheduledPathIsOpen | src/index.js:386-389 | /__scheduled runs the check for any method and without any secret |
| Worker.RouteOf | src/index.js:372-392 | an update is handled only with a configured non-empty secret equal to the header; a refusal happens only for a POST to /webhook |
| Worker.Fetch | src/index.js:368-392 | 401 'Unauthorized', 'OK', 'Scheduled check completed' or the banner; a body that is not JSON rejects; an authorised command update only quotes replies to its message and answers 'OK' unless a send rejected |
| Worker.Scheduled | src/index.js:394-397 | the cron entry runs the scheduled check, which keeps every user's count |

## Left out

- TelegramBot does no network I/O here. `sendMessage` is reduced to an outbox and a delivery oracle. `parse_mode` and `disable_web_page_preview` are not recorded, and `getUpdates` is not part of this model.
- Page fetches are a function from URL and clock value to an outcome (`Ok(body)`, `NotOk(status)` or `Throws(message)`). `withTimeout`'s `Promise.race` appears only as a `Throws` outcome.
- DOM parsing and XPath 1.0 evaluation by `@xmldom/xmldom` and `xpath` are uninterpreted functions. A non-node-set XPath result is not modelled.
- `new URL(url)` (WHATWG URL Standard) is an abstract predicate.
- `new Date(t).toLocaleString()` is an abstract function of the clock value.
- `console.log` and `console.error` are left out.
- The SQL engine is reduced to the effect of each statement:
  - `is_active` is taken to default to 1 on insert.
  - `created_at DESC` is modelled as descending rowid. `CURRENT_TIMESTAMP` has one-second resolution, so rows inserted in the same second tie in SQLite and their order there is unspecified; the model breaks such ties by rowid.
  - The snapshot of active items is modelled in rowid order. Its query has no `ORDER BY`, so SQLite promises no order at all.
  - `users.telegram_id` is assumed to carry a UNIQUE constraint, so that `INSERT OR IGNORE` leaves an existing user's row alone. The schema is not part of this model.
  - `last_row_id` is the row's position.
- A tracking item whose user row is missing is left out of the snapshot, as the inner join does.
- Column affinity of `last_hash` is not modelled: a hash is stored as the JavaScript value given, number or string.
- WELCOME, HELP and the other fixed replies are the names of the `Notice` datatype, not their text. They carry no behaviour.
- Cron scheduling, `ctx.waitUntil`, and concurrent updates or sweeps are left out. Each entry point runs to completion, and the objects persist across calls.
- Commands.Enroll: `userData.username \|\| ''` is modelled on optional strings, so a non-string username is not modelled.
- Commands.HandleAdd: the user id and item ids are unbounded integers; JavaScript number precision above 2^53 is not modelled.
- Commands.HandleTelegramUpdate: its contract states the replies of /start, /list, /status, /help and unknown words; the replies of /add and /delete are stated on Commands.HandleAdd and Commands.HandleDelete, not repeated here.
- Js.ParseInt: answers an unbounded integer, so the rounding of JavaScript numbers above 2^53 is not modelled.
- Worker.Fetch: the message of a JSON parse error is a fixed placeholder; an escaping handler error rejects the whole request.

## Where the code is followed over the project's documentation

- The empty content's fingerprint is the number `0`, not the string `"0"`. It is falsy, so a stored empty baseline never triggers a notice (`Scheduler.BaselineNoNotice`).
- Unchanged content is still written back: content, hash, `last_checked` and `last_updated` (`Scheduler.ContentIsAlwaysStored`).
- The notice is sent before the update, not after it (`Scheduler.SendFailureKeepsContent`).
- An error thrown by `updateLastChecked` inside the per-item `catch` ends the sweep, and no other error does (`Scheduler.ProcessAbortsIff`, `Scheduler.SweepAbortsIff`).
- `extractContent` folds a timeout into `null` like every other error. The REQUEST_TIMEOUT reply is therefore reachable only through a database or send error whose message is 'Request timeout' (`Commands.CatchReply`).
- The soft delete has no `is_active` filter, so deleting an already deleted item reports success.
- `REQUEST_TIMEOUT` is 5000 ms, although its comment says 30 seconds.
