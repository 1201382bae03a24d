# GitHub webhook receiver — a Dafny model

The receiver (`app.py`) accepts GitHub webhook deliveries. It turns three kinds of
event into one six-field record and appends that record to a MongoDB collection:

- a push becomes `PUSH`;
- an opened pull request becomes `PULL_REQUEST`;
- a closed pull request whose `merged` is `True` becomes `MERGE`.

Every other event is acknowledged and ignored. A separate endpoint returns the ten
newest records, newest first.

The model covers four parts:

- the normaliser: which events produce a record, and how each field is derived from the
  payload;
- the timestamp formatter `get_ordinal_date_string`;
- the outcome of a webhook request (400, 200, 201 or 500);
- the store's contract: append on insert, and a newest-first, `_id`-free read.

| file | module | what it holds |
|---|---|---|
| `wrappers.dfy` | `Wrappers` | `Option` |
| `text.dfy` | `Text` | decimal rendering (`str(int)`, `%Y`, `%I`, `%M`) and its inverse, `str.replace(p, '')`, and the space-joined layout of the timestamp's words with `str.split(' ')` as its inverse |
| `pyjson.dfy` | `PyJson` | the decoded payload (`Json`), Python truthiness, `or`, `dict.get` with and without a `{}` default, `str()` |
| `timestamp.dfy` | `Timestamp` | `get_ordinal_date_string` as `Format`, its inverse `Parse`, and the round trip |
| `normalizer.dfy` | `Normalizer` | the record, the push and pull_request branches, and the rules as lemmas |
| `store.dfy` | `Store` | the `events` collection as the class `EventStore`, and the newest-first query |
| `webhook.dfy` | `Webhook` | `handle_github_webhook` and `get_events` as methods over an `EventStore` |

Payload reads are written as the source writes them, as chains of `get` with `{}`
defaults (`ChainGet`). The lemmas restate each rule with plain member paths
(`Field`), in which a member missing at any depth reads as `None`.
The contract of `PyJson.ChainGet` states that the two agree.

In four places the code does something a reader, or its own comments, may not
lead one to expect, and the model follows the code:

- `ref.replace('refs/heads/', '')` removes every occurrence of `refs/heads/`, not only
  a leading prefix. So a branch named `a/refs/heads/b` is stored as `a/b`
  (`Normalizer.NestedPrefixRemoved`).
- Both author fall-backs use Python `or`. So an empty `pusher.name` or an empty
  `sender.login` also falls through to the alternative, not only an absent one.
- `%I` pads the hour with a zero (`09:30 PM`), although the comment at app.py:51 shows
  `9:30 PM`.
- The read orders by `_id`, that is by insertion, and not by the `timestamp` field,
  although the comment at app.py:119 speaks of sorting by timestamp. That string does
  not sort chronologically (`Timestamp.TimestampsDoNotSortChronologically`).

## Model

| member | source | states |
|---|---|---|
| `Text.Decimal` | app.py:33 | the rendering of a day or year is a non-empty run of digits that starts with '0' only for 0 |
| `Text.ParseDecimal` | app.py:33 | reading the decimal rendering back gives the number: the rendering loses nothing |
| `Text.Pad2` | app.py:33 | `%I` and `%M` render exactly two digits that read back as the value |
| `Text.IntToString` | app.py:77 | `str()` of an int is an optional minus sign followed by digits |
| `Text.IntToStringRoundTrip` | app.py:77 | `str()` of an int reads back as the same int, so distinct PR ids give distinct request ids |
| `Text.SplitJoin` | app.py:33 | splitting space-joined words without spaces gives the words back (the timestamp's words can be recovered) |
| `Text.RemoveAll` | app.py:59 | `replace('refs/heads/', '')` never lengthens the ref; the three lemmas below fix what it removes |
| `Text.RemoveAllAbsent` | app.py:59 | `replace('refs/heads/', '')` leaves a string without the pattern unchanged |
| `Text.RemoveAllLeading` | app.py:59 | a leading `refs/heads/` is removed and the rest is processed on its own |
| `Text.RemoveAllKeepsPrefix` | app.py:59 | characters before the first occurrence of the pattern are kept |
| `PyJson.Truthy` | app.py:45 | None, False, 0, "", [] and {} are falsy; every other value is truthy (the test of `if not data`, of both `or`s and of `if event_data`) |
| `PyJson.Or` | app.py:58 | Python `a or b` is one of its operands, is `a` whenever `a` is truthy, and is truthy iff either operand is |
| `PyJson.GetOr` | app.py:59 | `d.get(k, default)` is the member k when present, and the default otherwise |
| `PyJson.Get` | app.py:60 | `d.get(k)` is the plain lookup of member k, None when absent |
| `PyJson.Child` | app.py:73 | `d.get(k, {})` differs from the plain lookup of k only for an absent k, where it reads {}; both are equally falsy |
| `PyJson.ChainGet` | app.py:73-76 | `d.get(a, {}).get(b)` equals the member at path a.b, with a member missing at any depth reading as None |
| `PyJson.EmptyChain` | app.py:58 | every `get` chain on the `{}` default reads None |
| `PyJson.PyStr` | app.py:77 | `str()` of an int reads back as the int, and `str()` of a string is the string |
| `Timestamp.DaysInMonth` | app.py:52 | a month has 28 to 31 days; 31 exactly for January, March, May, July, August, October and December, 30 exactly for April, June, September and November, 29 exactly for February of a leap year (so 28 for February otherwise) |
| `Timestamp.DaySuffix` | app.py:32 | the ordinal suffix is one of st, nd, rd, th |
| `Timestamp.DaySuffixTable` | app.py:32 | st exactly for days 1, 21 and 31; nd for 2 and 22; rd for 3 and 23; th for 4-20 and 24-30 (11-13 included) |
| `Timestamp.MonthName` | app.py:33 | `%B` gives one distinct, non-empty English month name per month, without spaces |
| `Timestamp.MonthNumber` | app.py:33 | a recognised month word is the `%B` name of the month returned |
| `Timestamp.MonthNumberOfName` | app.py:33 | every `%B` month name is recognised as its own month |
| `Timestamp.Hour12` | app.py:33 | the `%I` hour lies between 1 and 12 |
| `Timestamp.Meridiem` | app.py:33 | `%p` is AM exactly before noon, otherwise PM |
| `Timestamp.ClockRoundTrip` | app.py:33 | the 12-hour reading with AM/PM determines the 24-hour hour (0 is 12 AM, 12 is 12 PM) |
| `Timestamp.Words` | app.py:33 | the formatted timestamp consists of seven words, none of which contains a space |
| `Timestamp.Format` | app.py:31-33 | `get_ordinal_date_string` renders the seven words separated by single spaces, so that splitting at the spaces gives them back |
| `Timestamp.Parse` | app.py:33 | a parsed string is the formatted rendering of the valid instant returned |
| `Timestamp.FormatParseRoundTrip` | app.py:31-33 | every timestamp reads back as the instant it was formatted from |
| `Timestamp.FormatInjective` | app.py:31-33 | two instants that differ to the minute never get the same timestamp string |
| `Timestamp.TimestampsDoNotSortChronologically` | app.py:119-122 | the 2nd of a month sorts after the 10th as strings, so ordering by the timestamp field would be wrong |
| `Timestamp.FormatMidnight` | app.py:33 | 00:05 on 1 April 2021 renders as the words 1st, April, 2021, -, 12:05, AM, UTC joined by single spaces |
| `Timestamp.FormatNoon` | app.py:33 | 12:00 on 12 April 2021 renders as the words 12th, April, 2021, -, 12:00, PM, UTC joined by single spaces |
| `Timestamp.FormatAfternoon` | app.py:33 | 13:59 on 23 February 2024 renders as the words 23rd, February, 2024, -, 01:59, PM, UTC joined by single spaces |
| `Normalizer.ActionName` | app.py:65 | the stored action is one of PUSH, PULL_REQUEST, MERGE, each exactly for its own kind of record (so the name determines the kind); PushRecord, OpenedPullRequest and MergedPullRequest state the stored name of each branch |
| `Normalizer.Ref` | app.py:59 | `data.get('ref', '')`: the ref, or the empty string when absent |
| `Normalizer.NormalizePush` | app.py:55-69 | the push branch always gives a PUSH record with the timestamp and an empty from_branch; to_branch is no longer than the ref and equals it when the ref holds no refs/heads/; the author is truthy exactly when pusher.name or sender.login is |
| `Normalizer.NormalizePullRequest` | app.py:71-102 | a record exactly for "opened" or for "closed" with merged exactly True; PULL_REQUEST exactly for "opened", otherwise MERGE; the request id is always a string |
| `Normalizer.Normalize` | app.py:55-102 | a produced record carries the request's timestamp, comes only from push or pull_request, and is a PUSH exactly for a push |
| `Normalizer.PushRecord` | app.py:55-69 | a push always yields action PUSH (stored as "PUSH"), from_branch "", request_id = after, to_branch = ref with every refs/heads/ removed, and author = pusher.name if truthy, else sender.login |
| `Normalizer.PushWithoutRef` | app.py:59 | a push without ref gets an empty to_branch |
| `Normalizer.PushBranchName` | app.py:59 | ref "refs/heads/b" gives to_branch b when b contains no further refs/heads/ |
| `Normalizer.NestedPrefixRemoved` | app.py:59 | a branch "a/refs/heads/b" is reported as "a/b" |
| `Normalizer.OpenedPullRequest` | app.py:71-88 | "opened" yields PULL_REQUEST (stored as "PULL_REQUEST") with the user's login, head and base refs, and str(id), which is "None" for a missing id |
| `Normalizer.MergedPullRequest` | app.py:90-102 | "closed" with merged exactly True yields MERGE (stored as "MERGE") with author sender.login, or the PR user's login when that is falsy |
| `Normalizer.IgnoredExactly` | app.py:55-104 | no record iff the event is neither a push, nor an opened PR, nor a closed PR with merged exactly True |
| `Normalizer.PullRequestPaths` | app.py:73-77 | the pull_request branch's chained reads are the member paths pull_request.user.login, .head.ref, .base.ref, .id, .merged |
| `Store.PageSize` | app.py:122 | `limit(n)` returns at most n documents and never more than are stored; a limit of 0 means no limit |
| `Store.WithoutIds` | app.py:122 | the projection `{'_id': 0}` keeps, position by position, each document's record without its `_id` |
| `Store.Newest` | app.py:122 | the page of `limit(limit)` holds min(limit, n) documents, or all n for a limit of 0, and the newest document comes first |
| `Store.NewestAt` | app.py:122 | the read holds min(limit, n) documents (n for a limit of 0), and position k holds the (k+1)-th newest |
| `Store.NewestIsTopById` | app.py:122 | with ids in insertion order, the page has strictly decreasing ids, holds only stored documents, and every stored document left off the page has a smaller id than every document on it |
| `Store.NewestAfterInsert` | app.py:108-122 | after an insert the new document heads the read, followed by the previous read cut to the limit |
| `Store.NewestRecords` | app.py:122 | the records returned are the last min(limit, n) stored records (all n for a limit of 0), newest first |
| `Store.EventStore.constructor` | app.py:29 | an empty collection with insertion-ordered ids; the handlers accept any valid store, so nothing depends on the collection starting empty |
| `Store.EventStore.Insert` | app.py:108 | success appends exactly one document with a larger id; a failure stores nothing |
| `Store.EventStore.Recent` | app.py:122-123 | the query returns the newest `limit` records (every record for a limit of 0, as MongoDB reads it), newest first, without `_id` |
| `Webhook.Classify` | app.py:41-53 | the payload is invalid iff it is falsy, and a produced record carries the timestamp of the request |
| `Webhook.Respond` | app.py:104-114 | 400 "Invalid payload" exactly for an invalid payload, 200 "Event received but ignored" exactly for an ignored event, 201 "Event stored successfully" exactly for a stored record, 500 "Internal Server Error" exactly for a failed insert |
| `Webhook.StoredAfter` | app.py:104-112 | the store is append-only and grows by one record exactly when a record was produced and the insert succeeded |
| `Webhook.StatusMeaning` | app.py:104-114 | the response and the stored records agree: the store grows by the produced record exactly on 201 and is unchanged on 200, 400 and 500 |
| `Webhook.HandleWebhook` | app.py:40-114 | the response and the new store contents follow the request's outcome and the insert's success; the store is untouched unless 201 |
| `Webhook.GetEvents` | app.py:116-127 | 200 with the min(10, n) newest records, newest first, or 500 with no events when the read fails |
| `Webhook.OtherEventsIgnored` | app.py:114 | an unrecognised event name with a truthy payload is answered 200 and ignored |
| `Webhook.NoDeduplication` | app.py:108 | the same payload delivered twice is stored twice |
| `Webhook.PushExampleNormalized` | app.py:55-69 | the push of main by alice with after "abc123" can be read without raising and normalises to the PUSH record (abc123, alice, "", main) |
| `Webhook.PushExampleStored` | app.py:55-69 | the push of main by alice with after "abc123" is stored as that PUSH record with status 201 |
| `Webhook.UnmergedCloseIgnored` | app.py:90 | a PR closed with merged false is answered 200 "Event received but ignored" and not stored |
| `Webhook.EmptyPayloadRejected` | app.py:45-46 | an empty JSON object is answered 400 "Invalid payload" and nothing is stored |
| `Webhook.EmptyStoreReadsEmpty` | app.py:122-124 | reading an empty store answers 200 with an empty list |

## Left out

- The Flask application, routing, CORS, `load_dotenv`, the `MONGO_URI` lookup and the MongoClient/certifi TLS setup are left out, as is the `/` liveness route (app.py:1-29, 35-37, 129-130). They are framework glue.
- `datetime.utcnow()` (app.py:52) reads the clock. The handler takes the instant as the `now` parameter.
- MongoDB's ObjectId is modelled as a counter that grows with each insert. Real ObjectIds follow insertion order only approximately, for example across client processes within one second.
- Driver exceptions and their `print` logging are left out. An insert failure is the `insertFails` input and a read failure is `readFails`. A failed insert stores nothing.
- Flask's own handling of a body that is not JSON (415 or 400 before the handler runs) is left out. A missing body is the payload `Null`.
- A missing `X-GitHub-Event` header is not modelled as its own case. It behaves like any other unrecognised event name.
- Normalizer.Readable: payloads on which the source raises `AttributeError` are excluded by this precondition. These are a nested member that is present but not a dict (for example `null`), a `ref` that is not a string, and a truthy payload that is not an object on a push or pull_request event. The uncaught exception would end as Flask's generic 500.
- PyJson.PyStr: `str()` of lists and dicts (Python's repr) is not modelled. A pull request id that is a list or an object is excluded by the `Printable` precondition.
- PyJson.Json has no floating-point numbers, so a float in the payload is not modelled.
- Timestamp.Words: `%Y` is rendered as the year's decimal digits. That is glibc's behaviour, and it matches the four-digit form for the years from 1000 on. For years below 1000, some platforms pad with zeros.
- Timestamp.Format uses the C locale's English month names and AM/PM. Seconds and microseconds do not appear in the format, so they are not modelled.
- The `events` collection at app.py:29 is persistent and may already hold documents when the service starts. `Store.EventStore.constructor` builds an empty one, but every handler and lemma takes any valid store, so no stated property depends on that.
- `webhook-repo/static/script.js` is browser rendering and polling and is not part of this model.
- Concurrent requests are not modelled. The collection's thread safety belongs to the database.
