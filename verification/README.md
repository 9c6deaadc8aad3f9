# Verified model of the message bridge

Dafny proofs about the parts of the bridge whose promises span many steps: the MAX history
sync and its cursors, the FIFO of live frames, the write limiter, the merge rules of message and
chat rows, the contact graph and reachability, HTML to text elements, and the partitions of the
audit log. Source files are cited by path and line.

Each part is modelled twice where the source changes state: as a class whose methods do what the
code does step by step, and as functions on values that the methods are proved equal to. The
properties are lemmas about those functions, most of them over every run of a state machine.

| file | what it models |
|---|---|
| `Wrappers.dfy` | Option and Result; filtering and stable sorting of sequences |
| `MaxHistory.dfy` | one chat's history on the server, its stored rows and cursor pair, and the forward paging loop (`app/max/sync.py`, `app/max/store_new.py`) |
| `MaxBackward.dfy` | the backward paging loop (`app/max/sync.py`) |
| `GrowingHistory.dfy` | the forward fill while the history grows and when it is cut short |
| `MaxSync.dfy` | class `Sync`: the loops and the catch-up pass as they run |
| `SyncProtocol.dfy` | the interleaving of server appends, live frames, reconnects, catch-up passes and backfills of one chat, one step each |
| `SyncRuns.dfy` | what runs of these steps keep between two states: catch-up completeness, the flag, the exact condition of a cursor move |
| `SyncHazards.dfy` | for each hypothesis of the sync model a run from the start that breaks the promise without it |
| `TiedBackward.dfy`, `TiedForward.dfy` | the two loops on histories in which several messages have one time, with their exact conditions |
| `StuckPages.dfy` | two histories whose gap fits the limit and is not filled |
| `Frames.dfy` | concurrent frame tasks under the per-chat lock (`app/max/ingest.py`); class `Ingest` |
| `WindowCounts.dfy` | events, sliding windows, and the time at which the k-th oldest event leaves one |
| `WriteLimits.dfy` | window check, Retry-After, reservation, bundles (`app/authz/write_limits.py`) |
| `LimiterRuns.dfy` | whole runs of reservations, ends of calls, releases and purges |
| `Limiter.dfy` | class `WriteLimiter`: the event table as it changes |
| `LimitRules.dfy` | the limits of any run and the outcome of a reservation, by the rows' own fields and the settings' own numbers |
| `Messages.dfy` | message and chat upserts, deletion marks, the last message (`app/repo/messages.py`, `app/repo/chats.py`); class `Repo` |
| `MessageRules.dfy` | the fields of messages and chats over whole runs, told from the operations |
| `HtmlText.dfy` | tags to text elements (`app/max/html_text.py`); class `Parser` |
| `HtmlResults.dfy` | UTF-16 by a decoder of its own; what every single tag, a code block, a line break and a mistake come to |
| `People.dfy` | people and identities (`app/repo/people.py`); class `ContactBook` |
| `PeopleRules.dfy` | who is moved by an upsert, by phones; profiles, names and notes after every operation |
| `Reach.dfy` | the two formulations of reachability (`app/repo/people_queries.py`) |
| `Calendar.dfy`, `Audit.dfy` | months of the Gregorian calendar; month partitions, DEFAULT, drain and drop (`alembic/versions/008_audit_default_partition.py` and neighbours); class `AuditLog` |

`dafny verify dfyconfig.toml` checks everything.

## Hypotheses of the sync model

The cursor promise ("everything up to newest is stored, without gaps", `app/max/sync.py:3-7`) does not
follow from the code's own guards, which are `SyncProtocol.Possible`. It rests on the eight hypotheses
below as well. Each is a guard in `SyncProtocol.Meets`, and for each a lemma of `SyncHazards` gives a
run from the initial state that meets all the others and breaks the promise, with no task, waiting frame or
frame on the wire left that could mend it.

| hypothesis | without it |
|---|---|
| `TimesGrow`: times and ids grow strictly along a chat's history, and times are positive | `TiesBreak` for the backward loop; `ForwardTieBreaks`, `BigGroupBreaks` and `TiedTailBreaks` for the forward one |
| `StoresSucceed`: no store fails; `app/max/sync.py:94-98` passes over the error | `FailedStoreBreaks` |
| `AnswersInOrder`: the answer to a send is stored after the frames of earlier messages have arrived | `EarlyAnswerBreaks` |
| `FullList`: a chat list that was read has the chat in it | `PartialListBreaks` |
| `GapWithinLimit`: at most 10,000 messages are missed offline | `LongGapBreaks` |
| `PassEnded`: the catch-up pass has ended when a new connection resets the caught-up set | `OldPassBreaks` |
| `SeedNotEmpty`: the seed of a never-seen chat is at least one message | `EmptySeedBreaks`; this one breaks `CaughtUpAndQuiet`, not the absence of gaps |
| `FirstFillAlone`: while a chat has no cursor row only one task fills it, and no live frame may advance | `SharedFirstFillBreaks`, `StaleSeedBreaks` |

Exact conditions, where a caller or the code could check them:

- one cursor move: `SyncRuns.AdvanceKeepsIff`;
- equal times in the backward loop: `TiedBackward.PageKeepsIff` for a page, `TiedBackward.BackwardKeepsIff`
  and `TiedBackward.FreshKeepsIff` for the loop; ties inside one page do no harm;
- equal times in the forward loop: `TiedForward.PageAdvancesIff` for a page; `TiedForward.ForwardKeepsIff` for the
  promise of the cursor and `TiedForward.CaughtUpIffAllTaken` for marking the chat, both by the count
  `TiedForward.Gets`, which follows from the page sizes, on every history by time, stuck pages included;
- the limit of the gap fill: `MaxHistory.CaughtUpIffGapFits`.

Built into the model and not guards: a history page is the n nearest messages from the given time
on, that time included; the server's history is by time with distinct ids; live frames are
pushed in log order, and the answer to a send is handled as the frame of its message.

## Findings

- `SyncHazards.TiesBreak`: two messages of one time can end a backward backfill with the flag set and one of
  them never stored. `MaxHistory.TieBurnsTheLimit`: they can make the forward loop store them in turn until
  its limit is used up.
- `SyncHazards.TiedTailBreaks`: a gap of exactly 10,000 messages, two of which have one time, is marked filled with
  its last message missing: the last page has shrunk to two and shows the pair again. `TiedForward.SmallGroupsAllTaken`
  says how much room keeps clear of this. `SyncHazards.BigGroupBreaks`: nothing behind a hundred
  messages of one time is ever fetched.
- `SyncHazards.EarlyAnswerBreaks`: `store_sent` advances the cursor of a caught-up chat without regard to
  frames that are still on the wire.
- `SyncHazards.StaleSeedBreaks`: a pass decides on a seed from the candidates it read, not from the row at the time of
  the fill.
- `SyncRuns.FlagStays`: the flag is never cleared, because a backfill asks for at least one message; the
  code itself would clear it for a limit of zero (`app/max/store_new.py:290-292`).
- `WriteLimits.ColdSendMisjudged`: a send to a chat with history counts as a new dialog exactly when the table
  had sends to the chat at the look before the lock and all of them are purged under it.
  `LimiterRuns.ColdSendHappens` gives such a run.
- `Messages.FirstMarkStays`: a copy that carries a deletion mark and is skipped by the edit guard does not mark the
  stored message.
- `Reach.MethodsAgree`: the query and the Python function differ exactly on an empty, non-null phone.
  Phones are normalised, so `Reach.BookIsReal` rules it out for a contact book.
- `Messages.ConvergesIffCompatible`: copies of a message converge if and only if any two of them are
  compatible; two different edits without an edit time, or with the same one, are not.
- `Audit.CreateFailsOnDefault`: creating a month fails exactly where DEFAULT has rows of it, which is
  where `ensure_audit_partition` drains instead.

## Model

| member | source | states |
|---|---|---|
| MaxHistory.PageOfOneLooksLikeTheEnd | app/max/sync.py:50-54 | a page shows nothing new exactly at the end of the history or when it is a page of one; with the "+1" it does so only at the end |
| MaxHistory.FetchForwardSpec | app/max/sync.py:233-257 | a page from the cursor is exactly the next messages above it, at most the remaining limit, and the loop ends only at the end of the history |
| MaxHistory.ForwardRunStores | app/max/sync.py:233-257 | from the middle of the loop, exactly the next `left` messages get stored in order |
| MaxHistory.ForwardExact | app/max/sync.py:233-257 | with limit L and k messages above the cursor the loop stores the first min(L, k) of them and leaves the cursor at the last |
| MaxHistory.CaughtUpIffGapFits | app/max/sync.py:349-352 | after the loop nothing above the cursor is missing if and only if k is at most L |
| MaxHistory.TieBurnsTheLimit | app/max/sync.py:250-255 | two messages of one time make the forward loop store them in turn until the whole limit is used up |
| MaxHistory.StoreAllAscending | app/max/store_new.py:212-223 | storing messages above the cursor in ascending order leaves the newest cursor at the last one and the oldest untouched |
| MaxHistory.TailAfterStores | app/max/store_new.py:184-210 | whatever is stored in whatever order, the chat's last message has the largest id of those stored and the one it had, and is one of those stored if theirs is as large |
| MaxHistory.EarliestIs | app/max/sync.py:342-345 | the oldest message of a seed page is the first with the earliest time, whatever order the page comes in |
| GrowingHistory.FillTakes | app/max/sync.py:233-257 | from the middle of a fill over a growing history, the next messages are stored in order, none skipped; at its end the limit is used up or the last page saw the end |
| GrowingHistory.FillExact | app/max/sync.py:233-257 | a gap fill, whole or cut short, has stored the first n messages above the cursor and left the cursor at the last of them; whole, n is the limit or all there was at the last page |
| GrowingHistory.StandsStill | app/max/sync.py:233-257 | over a history that stands still it is the forward run |
| GrowingHistory.GetsToItsEnd | app/max/sync.py:233-257 | a fill that is not cut short gets to its end |
| GrowingHistory.FillSteps | app/max/sync.py:233-257 | a fill to be cut short after n pages and stores is cut short exactly if it has not got to its end with fewer |
| GrowingHistory.BackwardSeesNoGrowth | app/max/sync.py:205-222 | a backward page from a cursor is the same before and after the history has grown |
| MaxBackward.FetchBackwardSpec | app/max/sync.py:205-222 | a backward page is the newest messages below the cursor, not before the boundary, in descending order; and how the loop ends |
| MaxBackward.BackwardExact | app/max/sync.py:195-231 | the backward loop stores exactly the min(L, k) newest messages below the oldest cursor within the boundary, moves the cursor to the last, and sets the flag only if the beginning was seen |
| MaxBackward.BackwardExactFresh | app/max/sync.py:195-231 | the same for a chat without a cursor row |
| MaxSync.Sync.StorePage | app/max/sync.py:226-229 | a page is stored in order |
| MaxSync.Sync.Forward | app/max/sync.py:233-257 | the loop with its local variables equals the fill over a growing history, page by page and store by store, also when it is cut short, and returns the exact count stored |
| MaxSync.Sync.Backward | app/max/sync.py:195-231 | the loop with its local variables equals the backward run, and returns the exact count stored |
| MaxSync.Sync.SeedChat | app/max/sync.py:337-345 | the first fill of a chat, a page and the oldest cursor, or what it left when it was cut short |
| MaxSync.Sync.FillChat | app/max/sync.py:337-349 | a seed for a chat without a row, else the gap fill from the cursor; and whether it got to its end |
| MaxSync.Sync.TryChat | app/max/sync.py:335-363 | one chat of the pass: caught up exactly if its fill got to its end, denied exactly if that stopped it |
| MaxSync.Sync.Candidates | app/max/sync.py:370-388 | candidates are exactly the listed chats with a tail above the cursor, freshest first; the others have no tail |
| MaxSync.Sync.FillChats | app/max/sync.py:331-364 | each chat tried is as its own fill left it, whole or cut short, and no other has changed; caught up are exactly those whose fill got to its end, denied exactly those an answer of that kind stopped; the exact count of the other failures; stopped short exactly by a lost session |
| MaxSync.Sync.CatchUp | app/max/sync.py:313-368 | a whole pass while all histories grow, for any fills, failures and lost sessions: which chats are tried and how many (TriesLatest), what each is left as, what is marked, and the backlog returned (CountsLeft); no chat is marked with its gap open; backlog 0 means a fresh list, and every listed chat that is not denied is caught up with its gap filled |
| MaxSync.CandidatesAre | app/max/sync.py:327-328 | the candidates are the chats with a last message and no newest cursor or an earlier one, each once, and the first n of them are n with the latest last messages |
| MaxSync.PassIs | app/max/sync.py:327-331 | a pass that goes through tries as many of these as it may, min(C, max chats), the latest first |
| MaxSync.PassCounts | app/max/sync.py:364-368 | the backlog is the chats not tried and those that ended by an error other than denied, at least 1 with a failed list; it is 0 and every chat behind is filled and marked if all go well and there are no more than the limit |
| MaxSync.RunEnds | app/max/sync.py:335-363 | when a chat's catch-up gets to its end: always if it meets nothing, else exactly if its pages and stores are done before it is cut short; never from a row without a newest message |
| MaxSync.SeedCut | app/max/sync.py:337-345 | a seed that was cut short has stored the oldest messages of its page, as many as it came to |
| MaxSync.FineEnds | app/max/sync.py:337-349 | a fill that meets nothing gets to its end, a seed as well as a gap fill |
| MaxSync.SeedIs | app/max/sync.py:337-345 | a seed that got to its end has stored the newest messages, as many as it asks for or as there are, and the cursor pair spans them; with none there is no row |
| MaxSync.ListedIs | app/max/sync.py:107-134 | refreshing the list makes every listed chat known and moves a last message only to a higher id |
| MaxSync.GapFilledMeans | app/max/sync.py:329-352 | a filled gap in plain terms: of a chat that was behind, all the server had when the pass began is stored, up to 10,000 messages above the cursor; of another, all up to the listed message |
| MaxSync.CandidateFilled | app/max/sync.py:313-368 | the fill of a candidate stores all the server had above its old cursor when the last page was asked for, up to the limit |
| MaxSync.LastPageTaken | app/max/sync.py:240-257 | the same for one fill: it got to its end, so nothing its last page could show is missing |
| MaxSync.NoTailFilled | app/max/sync.py:380-387 | of a chat without a tail nothing up to the listed message is missing |
| MaxSync.Turn | app/max/sync.py:205-229 | one turn of the backward loop, by its page: how it ends, or what it stores and where the cursor goes |
| SyncProtocol.SoundInitially | app/max/session.py:526-528 | the invariant holds before anything has happened |
| SyncProtocol.AppendKeeps | app/max/sync.py:3-7 | a message that arrives on the server keeps the invariant |
| SyncProtocol.ConnectKeeps | app/max/session.py:526-528 | a new connection with its resets keeps the invariant |
| SyncProtocol.AuthorizeKeeps | app/max/session.py:598-607 | letting frames in after the identity check keeps the invariant |
| SyncProtocol.DisconnectKeeps | app/max/session.py:526-528 | a lost connection keeps the invariant, with frames waiting and tasks running |
| SyncProtocol.ArriveKeeps | app/max/ingest.py:86-98 | a frame that arrives keeps the invariant, also when it is dropped before the identity check |
| SyncProtocol.RedeliverKeeps | app/max/ingest.py:157-169 | an edit or an echo of a message that has arrived keeps the invariant |
| SyncProtocol.BeginKeeps | app/max/ingest.py:96-98 | a frame that takes the lock and reads the caught-up flag keeps the invariant |
| SyncProtocol.CommitKeeps | app/max/ingest.py:184-214 | storing a live frame keeps the invariant, whether it moves the cursor or not |
| SyncProtocol.StoreSafe | app/max/store_new.py:184-223 | a store with the right to advance keeps the cursor promise when nothing below its message is missing |
| SyncProtocol.ListKeeps | app/max/sync.py:107-134 | refreshing the chat list keeps the invariant |
| SyncProtocol.PassStoreKeeps | app/max/sync.py:240-257 | a store of the catch-up pass keeps the invariant beside live frames and a backfill |
| SyncProtocol.SeedStores | app/max/sync.py:337-341 | a store of the seed page keeps the invariant |
| SyncProtocol.MarkKeeps | app/max/sync.py:350-352 | marking a chat caught up keeps the invariant when the offline gap is covered |
| SyncProtocol.NoTailCovered | app/max/sync.py:324-326 | a chat without a tail in a fresh list has no offline gap |
| SyncProtocol.PassCovered | app/max/sync.py:346-352 | at the end of the forward fill the offline gap is covered |
| SyncProtocol.UserStoreKeeps | app/max/sync.py:240-257 | a store of a user's forward backfill keeps the invariant |
| SyncProtocol.BackStoreKeeps | app/max/sync.py:223-229 | a store of a backward backfill keeps the invariant |
| SyncProtocol.BackMoveKeeps | app/max/store_new.py:273-283 | moving the oldest cursor to the page's oldest message keeps the invariant: the page is stored by then |
| SyncProtocol.BackEndKeeps | app/max/sync.py:230-231 | the end of a backward backfill sets the flag only when the beginning was reached |
| SyncProtocol.StepKeeps | app/max/sync.py:195-368 | every step under the hypotheses keeps the invariant |
| SyncProtocol.NoGapInAnyRun | app/max/sync.py:3-7 | in every reachable interleaving every message between the oldest and the newest cursor is stored |
| SyncProtocol.CaughtUpMissesNothing | app/max/ingest.py:184-214 | of a caught-up chat every arrived message above the cursor is stored or waits in the queue; while the identity holds each waiting frame comes after all earlier frames of the connection |
| SyncProtocol.CaughtUpAndQuiet | app/max/ingest.py:188-193 | caught up with nothing waiting: everything from the oldest cursor on is stored |
| SyncProtocol.FullySyncedIsComplete | app/max/sync.py:276-292 | in every reachable state with the flag, every message up to the newest cursor is stored |
| SyncProtocol.ForwardRunLeads | app/max/sync.py:233-257 | the forward loop run alone is a sequence of protocol steps |
| SyncProtocol.BackwardRunLeads | app/max/sync.py:195-231 | so is the backward loop |
| SyncRuns.AdvanceKeepsIff | app/max/store_new.py:212-223 | storing m with the right to advance keeps the cursor promise if and only if m is not above the newest cursor or everything from the oldest cursor up to m is stored |
| SyncRuns.RunWidens | app/max/store_new.py:212-223 | between any two states of a run nothing stored is lost and the cursor pair only widens |
| SyncRuns.StepKeepsFlag | app/max/store_new.py:285-294 | no step clears a set flag: the backfill of a fully synced chat can only end with it |
| SyncRuns.FlagStays | app/max/sync.py:276-292 | once the flag is set it is set in every later state of a run; a limit of at least one (`app/schemas.py:207`) is what it rests on |
| SyncRuns.EndIsComplete | app/max/sync.py:240-257 | when a page of the pass shows nothing new, all the server has from the oldest cursor on is stored |
| SyncRuns.CatchUpIsComplete | app/max/sync.py:313-368 | a pass whose fill ends by a page that shows nothing new has every message the server had then, above the cursor it started from, stored from there on, frames dropped before the identity check included |
| SyncRuns.PassTakesInOrder | app/max/sync.py:240-257 | beside live frames and a growing history the fill of a pass has, with n of its limit used, the first n messages above its start stored; a fill that ends by the limit has the first 10,000 |
| SyncRuns.NoTailIsComplete | app/max/sync.py:380-387 | a chat without a tail has all the server had when the list was read, from the oldest cursor on |
| SyncRuns.CaughtUpCoversOffline | app/max/ingest.py:86-90 | whatever marked it, a caught-up chat has all the server had at the identity check, from the oldest cursor on |
| SyncHazards.OldPassBreaks | app/max/session.py:526-528 | a run in which the pass of the old connection marks the chat in the new one, and a live frame leaves a gap |
| SyncHazards.PartialListBreaks | app/max/sync.py:324-326 | a run in which a chat list without the chat marks it caught up, and a live frame leaves a gap |
| SyncHazards.EarlyAnswerBreaks | app/max/ingest.py:223-231 | a run in which the stored answer to a send passes an earlier message's frame and leaves a gap |
| SyncHazards.FailedStoreBreaks | app/max/sync.py:89-98 | a run in which a store fails, is passed over, and the next one leaves a gap |
| SyncHazards.GivenUp | app/max/sync.py:353-362 | a pass and a backfill can be given up at any point, and what they have stored stays |
| SyncHazards.AnyStoreFails | app/max/sync.py:94-98 | wherever a task can store, the store can fail |
| SyncHazards.FailedStoreIs | app/max/sync.py:94-98 | then nothing is stored, and the message no longer waits |
| SyncHazards.EmptySeedBreaks | app/max/sync.py:337-352 | a run in which a seed of no messages marks a chat caught up of which nothing is stored |
| SyncHazards.SharedFirstFillBreaks | app/max/sync.py:195-231 | a run in which a first backward backfill, stopped after its first store, and a live frame together leave a gap |
| SyncHazards.StaleSeedBreaks | app/max/sync.py:337-345 | a run in which the pass seeds a chat that has got its cursor meanwhile and leaves a gap |
| SyncHazards.TiesBreak | app/max/sync.py:205-229 | with times 10, 10, 20 two backfills of one message set the flag although the first message is never stored |
| SyncHazards.ForwardTieBreaks | app/max/sync.py:240-257 | a run in which the limit of a forward backfill ends it between two messages of one time |
| SyncHazards.LongGapBreaks | app/max/sync.py:346-352 | a run in which 10,001 messages are missed offline, the chat is marked, and a live frame leaves a gap |
| SyncHazards.ShortPassBreaks | app/max/sync.py:346-352 | for every history by time with a gap within the limit: if the loop takes less than all of it, the pass marks the chat all the same, and the next live frame leaves a gap |
| SyncHazards.BigGroupBreaks | app/max/sync.py:240-255 | such a run with a hundred messages of one time |
| SyncHazards.TiedTailBreaks | app/max/sync.py:240-255 | such a run with a gap of exactly 10,000 messages of which one pair has one time |
| TiedBackward.TiedPageSpec | app/max/sync.py:205-222 | what a backward page shows when times may be equal |
| TiedBackward.PageKeepsIff | app/max/sync.py:205-222 | a page loses nothing if and only if it does not cut a group of equal times |
| TiedBackward.BackwardKeepsIff | app/max/sync.py:195-231 | the backward loop keeps the cursor promise and a true flag if and only if none of its pages cuts a group |
| TiedBackward.FreshKeepsIff | app/max/sync.py:195-231 | the same for a chat without a cursor row |
| TiedBackward.BackwardExactTied | app/max/sync.py:195-231 | if none does, the loop stores exactly the min(L, k) newest of the k older messages within the boundary, and the flag is the truth |
| TiedBackward.OrderedNeverCuts | app/max/sync.py:195-231 | with strictly growing times no page cuts a group |
| TiedForward.PageAdvancesIff | app/max/sync.py:240-255 | a forward page takes the next remaining messages and leaves the others, once each, if and only if it reaches beyond the group of the cursor's time |
| TiedForward.ForwardExactTied | app/max/sync.py:233-257 | on every history by time the loop stores exactly the first Gets of the k messages left, tied ones included, and the cursor ends at the time of the last; Gets is min(L, k) if no page is stuck |
| TiedForward.ForwardKeepsIff | app/max/sync.py:233-257 | the promise of the newest cursor holds if and only if the messages taken do not end inside a group of equal times of which something is unknown |
| TiedForward.GroupRun | app/max/sync.py:240-255 | after a page within the cursor's group the position never moves, and no later page reaches past that page's end |
| TiedForward.TiedRunGets | app/max/sync.py:240-257 | from the middle of the loop: exactly the first Gets of what remains is stored, stuck pages or not |
| TiedForward.CaughtUpIffAllTaken | app/max/sync.py:349-352 | marking the chat caught up is right if and only if all that remained is taken, or the rest was known |
| TiedForward.SmallGroupsAllTaken | app/max/sync.py:240-257 | with groups smaller than a page a gap is taken whole if it fits the limit with the largest group, less one, to spare |
| StuckPages.BigGroupStops | app/max/sync.py:240-255 | a group as large as a page is shown over and over, and what is behind it is never taken |
| StuckPages.TiedTailStops | app/max/sync.py:240-255 | of a gap of 10,000 with one pair of equal times at its end 9,999 are taken |
| TiedForward.OrderedNeverSticks | app/max/sync.py:240-255 | with strictly growing times every page does |
| Frames.StepKeepsOrder | app/max/ingest.py:91-104 | every step keeps: arrivals of a chat are the handled frames, the lock holder's, and the queue, in this order |
| Frames.HandledInArrivalOrder | app/max/ingest.py:91-104 | in every interleaving the frames of a chat are handled in the order of arrival, none skipped |
| Frames.OwnChat | app/max/store_new.py:184-210 | what a frame makes of its chat's rows depends on that chat's rows only |
| Frames.OtherChat | app/max/store_new.py:184-210 | a frame changes nothing of another chat |
| Frames.Linearised | app/max/ingest.py:91-155 | an idle chat's rows are as if its frames had been handled one by one in the order of arrival |
| Frames.LinearisedWithOthers | app/max/ingest.py:106-155 | with failed transactions and unlocked stores too, the rows are those of the chat's own transactions, its frames in arrival order among them |
| Frames.OnlySuccessesCount | app/max/ingest.py:106-155 | in any run the tables are what the transactions that did not fail have made of them, in their order |
| Frames.AloneIsHandled | app/max/ingest.py:91-155 | a frame that finds its chat idle is handled at once and leaves the chat idle |
| Frames.StoredOutside | app/max/ingest.py:91-104 | a page of history is stored at any time, whoever holds the chat's lock |
| Frames.StoreMakesKnown | app/max/ingest.py:184-214 | a message makes its chat known, by a stub if it was not, and leaves the details of a known one |
| Frames.TransactionsInOrder | app/max/ingest.py:97-98 | transactions of a chat's frames end in the order the frames arrived |
| Frames.DeleteAfterInsert | app/max/ingest.py:264-276 | a delete that arrived after the insert of its message always marks it |
| Frames.Ingest.OnFrame | app/max/ingest.py:97-104 | the task takes a free lock only if nobody waits, else it queues up |
| Frames.Ingest.Process | app/max/ingest.py:131-142 | the transaction of the frame that holds the lock; an error leaves the tables as they were |
| Frames.Ingest.Leave | app/max/ingest.py:97-98 | the lock is released |
| Frames.Ingest.Resume | app/max/ingest.py:97-98 | the longest waiting task takes the released lock |
| WindowCounts.NthInOrder | app/authz/write_limits.py:239-249 | what the j-th entry of the sorted times says about how many are later |
| WindowCounts.UnseenRemoved | app/authz/write_limits.py:380-382 | purging rows a window no longer sees changes no count |
| WriteLimits.CheckIsExact | app/authz/write_limits.py:338-355 | the check passes if and only if all events fit every window asked |
| WriteLimits.DecidedWindow | app/authz/write_limits.py:353-355 | the deciding window is full and no full window asks for a longer wait |
| WriteLimits.RetryAbsentIffNeverFits | app/authz/write_limits.py:350-354 | Retry-After is absent if and only if some window asked can never hold the events |
| WriteLimits.LeavingEventExists | app/authz/write_limits.py:242-248 | the row the answer is made from exists, so the fallback is unreachable |
| WriteLimits.RetryOfWindow | app/authz/write_limits.py:239-249 | for one window the computed seconds are enough, and one second less is not |
| WriteLimits.RetryIsEnough | app/authz/write_limits.py:338-355 | after Retry-After the same needs pass every window, whatever is released or purged meanwhile |
| WriteLimits.RetryIsTight | app/authz/write_limits.py:338-355 | one second earlier the deciding window is still full if nothing went away |
| WriteLimits.LastSend | app/authz/write_limits.py:252-255 | the latest planned time of a send, none exactly without sends |
| WriteLimits.AlsoNamesTheOthers | app/authz/write_limits.py:355 | a refusal names exactly the other windows asked that are full |
| WriteLimits.AcceptedSendIsSoon | app/authz/write_limits.py:391-422 | an accepted send is the one row added; it is planned within 15 s, at least the interval after every send in the table, and waits for no longer than the pause after one |
| WriteLimits.OncePerChat | app/authz/write_limits.py:258-262 | while the row of a send to a chat is there no other send to it is a new dialog |
| WriteLimits.QueueRetryIsEnough | app/authz/write_limits.py:398-413 | after a queue refusal waiting its Retry-After is enough |
| WriteLimits.QueueRetryIsTight | app/authz/write_limits.py:398-413 | one second earlier the send is still refused |
| WriteLimits.ColdSendMisjudged | app/authz/write_limits.py:373-386 | when a send to a chat with history is taken for a new dialog |
| WriteLimits.ColdSendJudged | app/authz/write_limits.py:385-386 | without history it is one exactly when no unpurged send went to the chat |
| LimiterRuns.CallKeeps | app/authz/write_limits.py:358-422 | a reservation keeps the bookkeeping and the limits |
| LimiterRuns.BundleKeeps | app/authz/write_limits.py:439-463 | a bundle keeps them too |
| LimiterRuns.EndKeeps | app/authz/write_limits.py:493-525 | the end of a call keeps them, whether its rows stay or go |
| LimiterRuns.CallAdds | app/authz/write_limits.py:358-422 | an accepted call adds one row of its kind with a fresh id, and the windows have room for it |
| LimiterRuns.BundleAdds | app/authz/write_limits.py:439-463 | an accepted bundle adds all its rows at once, and the windows have room for them |
| LimiterRuns.BundleBetween | app/authz/write_limits.py:450-460 | a bundle puts exactly the needed number of events into each window of its kinds |
| LimiterRuns.WindowsBoundedInAnyRun | app/authz/write_limits.py:338-418 | over every run, for every window and every time t, the events not given back in (t - seconds, t] never exceed the limit |
| LimiterRuns.SendsSpacedInAnyRun | app/authz/write_limits.py:391-397 | over every run any two recorded sends are planned at least the interval apart |
| LimiterRuns.SlotsAccountedInAnyRun | app/authz/write_limits.py:324-525 | from any table on, the rows are those at the start, those of running calls, and those of calls whose slot is kept; every id taken is of one of these or was given back, and of these last none is left; a running call's rows are all there |
| LimiterRuns.ReleaseInAnyRun | app/authz/write_limits.py:509-525 | in any run a certain failure of a call that is not a lookup lowers every count of every window by exactly the call's rows; all other rows stay, and no id of the slot is left |
| LimiterRuns.ColdSendHappens | app/authz/write_limits.py:373-386 | a run of one send after which a second send to the same chat, just over the retention later, is taken for a new dialog in spite of the history |
| LimitRules.LimitsHoldInAnyRun | app/authz/write_limits.py:113-124 | over every run and at every time, the rows not given back that a setting counts, by their own kind and new-dialog mark, in its minute, hour or 24 hours, number at most what it allows; without limits at most 20 lookups a day |
| LimitRules.FirstMessagesLimitedInAnyRun | app/authz/write_limits.py:117 | over every run the sends recorded as new dialogs in any 24 hours number at most the limit of new dialogs |
| LimitRules.SendsApartInAnyRun | app/authz/write_limits.py:391-397 | over every run each send is planned at least the set seconds after every earlier one |
| LimitRules.PassesWithRoom | app/authz/write_limits.py:338-355 | the check passes if and only if every setting of a kind needed leaves room for its rows, that of new dialogs only for a first message |
| LimitRules.ReserveIs | app/authz/write_limits.py:358-412 | each outcome of a reservation if and only if its condition holds: no limits, writes off, no room, a wait of more than 15 s; lookups are limited without limits |
| LimitRules.ReservedIs | app/authz/write_limits.py:380-422 | what an accepted call leaves: rows of the last 25 hours and one more, planned at the earliest time no send of these makes it wait beyond |
| LimitRules.RecordedCounts | app/authz/write_limits.py:224-236 | an accepted call raises the count of the settings of its kind by exactly one, that of new dialogs if and only if it is a first message |
| LimitRules.BundleIs | app/authz/write_limits.py:439-458 | a bundle is recorded if and only if there is room for all its rows |
| LimitRules.BundledIs | app/authz/write_limits.py:450-463 | and then exactly the needed number of rows of each kind is added, with ids in a row |
| Limiter.WriteLimiter.CheckEvery | app/authz/write_limits.py:338-355 | the loop over the windows computes the check |
| Limiter.WriteLimiter.Longest | app/authz/write_limits.py:354 | the first of the windows with the longest wait |
| Limiter.WriteLimiter.TakeSlot | app/authz/write_limits.py:358-422 | purge, check, pace, insert; a refusal leaves the table as it was |
| Limiter.WriteLimiter.RowsOf | app/authz/write_limits.py:450-451 | the rows of a bundle, kind by kind |
| Limiter.WriteLimiter.TakeBundle | app/authz/write_limits.py:439-463 | all rows of a bundle or none |
| Messages.PairCommutes | app/repo/messages.py:88-99 | two copies may come in either order if and only if they are compatible |
| Messages.NewestWins | app/repo/messages.py:88-99 | of compatible copies the newest edit is stored, if there is one |
| Messages.ConvergesIffCompatible | app/repo/messages.py:68-99 | all orders and redeliveries of copies end in one version if and only if the copies are pairwise compatible |
| Messages.StoredVersion | app/repo/messages.py:68-99 | in any run the stored version is that of the copies delivered, whatever happens between them |
| Messages.RunsConverge | app/repo/messages.py:68-99 | two runs that delivered the same compatible copies store the same text, type, edit mark and edit time |
| Messages.DeletionSticks | app/repo/messages.py:80-93 | a deletion mark keeps its first value in any run |
| Messages.DeleteIsFinal | app/repo/messages.py:107-130 | a stored message named in the scope of a delete stays deleted at its first mark, whatever follows |
| Messages.FirstMarkStays | app/repo/messages.py:80-130 | over any run a message is deleted if and only if a delete in whose scope it was, or a copy the guard let through, marked it; and at the time of the first mark |
| Messages.TailIsNewest | app/repo/chats.py:14-65 | in any run a chat's last message has the largest id ever presented and a time presented with it |
| Messages.TailStep | app/repo/chats.py:121-134 | one operation keeps this |
| MessageRules.StoredRow | app/repo/messages.py:46-99 | over any run the stored row is told from the copies delivered: sent when the first one says, the contents of the last one not late, the sender and the views last given by one not late |
| MessageRules.DeleteIs | app/repo/messages.py:107-130 | a delete marks exactly the undeleted messages it names in its chat, or without a chat those of private chats and basic groups, and changes nothing else |
| MessageRules.DetailsAre | app/repo/chats.py:22-65 | over any run a chat is known exactly if it was updated; its type is the last one given, and each column holds the last value given for it |
| MessageRules.LastMessageIs | app/repo/chats.py:121-134 | over any run the time of a chat's last message is the last one a stored copy or a touch brought for its id, or else the first one an update brought |
| Messages.Repo.UpsertOne | app/repo/messages.py:88-103 | the upsert with its guard, and the touch of the chat |
| Messages.Repo.TouchLast | app/repo/chats.py:121-134 | the last message moves forward or stays |
| Messages.Repo.UpsertOneChat | app/repo/chats.py:22-65 | the chat upsert: given details win, the last message never moves back |
| Messages.Repo.MarkAll | app/repo/messages.py:107-130 | the deletion marks and the number of rows marked now |
| HtmlText.LenConcat | app/max/html_text.py:35-36 | UTF-16 lengths add up |
| HtmlText.RunForest | app/max/html_text.py:47-88 | reading a well-formed forest adds its text and elements and leaves the stack as it was |
| HtmlText.AcceptsExactlyTrees | app/max/html_text.py:91-99 | a token stream is accepted if and only if it is a well-formed tag tree written out |
| HtmlText.TreeMeans | app/max/html_text.py:91-99 | for such a tree text and elements are those of the recursive definition |
| HtmlText.BuiltInStep | app/max/html_text.py:61-88 | the open tags of the machine are those of the trees read so far |
| HtmlText.InOrderSorted | app/max/html_text.py:98 | elements are ordered by start, longest first |
| HtmlText.InOrderKeeps | app/max/html_text.py:98 | the order loses and adds no element |
| HtmlText.InOrderStable | app/max/html_text.py:98 | elements with one range stay in the order they were made |
| HtmlText.ForestGeometry | app/max/html_text.py:75-88 | the elements of a forest lie in its text, are not empty, and are nested or apart |
| HtmlText.ForestBoundaries | app/max/html_text.py:35-88 | no element begins or ends inside a surrogate pair |
| HtmlText.AcceptedGeometry | app/max/html_text.py:75-99 | both, and the order, for every accepted input |
| HtmlText.Parser.Add | app/max/html_text.py:47-49 | the position counts the UTF-16 units written |
| HtmlText.Parser.HandleStartTag | app/max/html_text.py:61-73 | an opening tag: break, refusal, or one more open tag |
| HtmlText.Parser.HandleEndTag | app/max/html_text.py:75-88 | a closing tag: refusal, or the innermost tag closed and its element made |
| HtmlText.Parser.HandleStartEndTag | app/max/html_text.py:54-59 | a self-closing tag is a start and an end |
| HtmlText.HtmlToElements | app/max/html_text.py:91-99 | the parser as it runs accepts exactly the written-out trees and gives their text and ordered elements |
| HtmlResults.DecodesBack | app/max/html_text.py:35-36 | every unit has 16 bits, and a separate decoder that joins surrogates reads the text back |
| HtmlResults.LengthInUnits | app/max/html_text.py:35-36 | a length is the number of characters and one more for each from 0x10000 up |
| HtmlResults.TagsAre | app/max/html_text.py:18-27 | a tag is known exactly if it is listed under a style, and has that style |
| HtmlResults.HrefIs | app/max/html_text.py:68-71 | a link has an address exactly if the last attribute named href has a value that is not empty |
| HtmlResults.ElementsLie | app/max/html_text.py:75-98 | for every accepted input, in plain numbers: each element covers whole characters, they come by start and then longest first, and of two the later begins behind the earlier or ends within it |
| HtmlResults.OneTag | app/max/html_text.py:61-99 | one tag around a text behind a text, for all tags, attributes and texts: refused, or one element with its style, offset, length and address |
| HtmlResults.CodeBlock | app/max/html_text.py:72-84 | code right inside a code block makes one element |
| HtmlResults.TwoTags | app/max/html_text.py:72-98 | any other two tags around a text make two, the inner one first |
| HtmlResults.Breaks | app/max/html_text.py:54-64 | a line break is a newline in both opening forms, and nothing when closed |
| HtmlResults.Mistakes | app/max/html_text.py:78-97 | a stray closing tag and an unclosed one are refused, with what was expected |
| People.RecordedKeeps | app/repo/people.py:46-59 | recording finds or makes the identity, moves none, and keeps the invariant |
| People.AutoMergeKeeps | app/repo/people.py:87-122 | an automatic merge moves exactly one identity, not a pinned one, to a strictly older person, where the twins meet; tags are conserved |
| People.AbsorbedKeeps | app/repo/people.py:125-142 | the target has the tags of both; the source goes exactly if it has no identity left |
| People.NotesKept | app/repo/people.py:130-132 | no note is lost: the target's come first, the source's last |
| People.UpsertKeeps | app/repo/people.py:24-67 | an upsert keeps links and tags; pinned identities stay, others only go to older people |
| People.MergeKeeps | app/repo/people.py:145-160 | a merge by hand leaves every identity, pinned, and every tag on the target, and removes the source |
| People.MergeIsOnce | app/repo/people.py:145-160 | after a merge the same merge again, or back, fails with the source not found, and no identity points to it |
| People.SplitKeeps | app/repo/people.py:163-187 | a split gives the identity a new person and pins it; the old person goes exactly if it was its last identity |
| People.EditKeeps | app/repo/people_queries.py:216-221 | an edit keeps links, and tags if they are not edited |
| People.RunKeeps | app/repo/people.py:24-187 | after any sequence of operations identities have people, people have identities, keys are unique, pins stay, and tags are neither lost nor invented |
| PeopleRules.MovedByPhone | app/repo/people.py:87-122 | of an upsert: an identity whose person changed and one of the other platform, now on the same, older person, both have the row's phone and neither is pinned; at most one identity moves |
| PeopleRules.PhoneMoves | app/repo/people.py:98-116 | if an unpinned identity of the other platform with the row's phone had another person, and the row's identity is not pinned, the row's and one such share the older of their two people afterwards |
| PeopleRules.ElseNobodyMoves | app/repo/people.py:98-112 | otherwise no identity moves |
| PeopleRules.ProfilesAre | app/repo/people.py:33-84 | the row's identity takes what the row gives and keeps what it does not; every other profile and every pin stays |
| PeopleRules.UpsertedPeople | app/repo/people.py:60-142 | the people after an upsert: a missing phone is filled, the older of two that meet takes the other over, nobody else changes |
| PeopleRules.MergedIs | app/repo/people.py:145-160 | a merge by hand: whose identities are whose, what the target has taken over, and that nobody else changes |
| PeopleRules.MergeRefused | app/repo/people.py:148-152 | it fails exactly for one person or a missing one, with the error of the first check that fails |
| PeopleRules.SplitIs | app/repo/people.py:163-176 | the new person of a split is called and reached like the identity |
| PeopleRules.MergeStep | app/repo/people.py:145-160 | in a run a merge that is not refused has happened, and one that is refused has not |
| PeopleRules.SplitStep | app/repo/people.py:163-187 | and a split of an identity there is has given it a person of its own, pinned, and moved no other |
| PeopleRules.EditIs | app/repo/people_queries.py:216-221 | an edit changes what is given, and nothing else |
| People.ContactBook.FindTwin | app/repo/people.py:100-112 | the twin of the oldest person, none exactly if there is no twin |
| People.ContactBook.AbsorbPerson | app/repo/people.py:125-142 | the target takes the source's data |
| People.ContactBook.AutoMerge | app/repo/people.py:87-122 | nothing for a pinned identity or without a twin, else the merge with a chosen twin |
| People.ContactBook.UpsertIdentity | app/repo/people.py:24-67 | the whole upsert, and that it keeps the invariant |
| People.ContactBook.Merge | app/repo/people.py:145-160 | the merge by hand with its errors |
| People.ContactBook.Split | app/repo/people.py:163-187 | the split with its error |
| Reach.MethodsAgree | app/repo/people_queries.py:228-237 | the CASE of the query and the Python function agree on an identity of the platform except for an empty phone that would decide |
| Reach.ReachPerson | app/repo/people_queries.py:296-311 | the loop returns the first best row with its method, and none exactly if no identity can be reached |
| Reach.FirstBestLeads | app/repo/people_queries.py:305-311 | the loop's row leads every reachable row by method and then id |
| Reach.ReachedHow | app/repo/people_queries.py:228-311 | what the loop finds, by the rows' own columns: a direct way if the person has one, else a username, else a phone, each time the smallest id; nothing exactly without them |
| Reach.DistinctKeepsFirst | app/repo/people_queries.py:268-278 | over ordered rows DISTINCT ON keeps exactly the first row of each person |
| Reach.LoopAndQueryAgree | app/repo/people_queries.py:240-311 | the query keeps a row for a person if and only if the loop finds that row, and with the same method |
| Reach.OneRowPerPerson | app/repo/people_queries.py:271-281 | one row per person, in the order of the people |
| Reach.BookIsReal | app/repo/people.py:36-43 | a sound contact book has no empty phone and no id twice |
| Calendar.NextMonth | alembic/versions/008_audit_default_partition.py:55 | a month ends where the next one begins |
| Calendar.OneMonth | alembic/versions/008_audit_default_partition.py:60-63 | the ranges of two months are disjoint |
| Calendar.MonthsAhead | alembic/versions/008_audit_default_partition.py:87 | the month a number of months ahead, whatever the day of the month is |
| Calendar.DayKept | alembic/versions/008_audit_default_partition.py:87 | the day of the month stays when months are added, or is the last one of a shorter month |
| Calendar.LeapYears | alembic/versions/008_audit_default_partition.py:55 | February has 29 days exactly in years divisible by 4, of centuries those divisible by 400 |
| Calendar.Cycle | alembic/versions/008_audit_default_partition.py:55 | four hundred years are 146,097 days, and the months come again |
| Audit.InsertKeeps | alembic/versions/008_audit_default_partition.py:43-45 | an insert never fails and puts the row where it belongs |
| Audit.CreateKeeps | alembic/versions/005_audit_partition_helpers.py:25-38 | a new month without rows in DEFAULT keeps rows and routing |
| Audit.CreateFailsOnDefault | alembic/versions/008_audit_default_partition.py:103-112 | a plain create fails exactly if DEFAULT has rows of the month |
| Audit.DrainKeeps | alembic/versions/008_audit_default_partition.py:52-78 | a drain never fails, moves the month's rows, loses none, and attaches DEFAULT again |
| Audit.EnsureKeeps | alembic/versions/008_audit_default_partition.py:84-114 | ensuring a month never fails, keeps every row and every month, and the month exists then |
| Audit.DropKeeps | alembic/versions/006_fix_drop_audit_partitions_regex.py:29-54 | a drop keeps the invariant, all of DEFAULT, and every row younger than the retention |
| Audit.DroppedIsOld | alembic/versions/006_fix_drop_audit_partitions_regex.py:47-50 | a dropped partition held only rows older than the retention |
| Audit.DropIs | alembic/versions/006_fix_drop_audit_partitions_regex.py:47-50 | a partition stays, as it is, if and only if its upper bound is after the day the retention goes back to |
| Audit.RoutingIs | alembic/versions/008_audit_default_partition.py:52-78 | a row is refused exactly if it is in no range while DEFAULT is detached, and DEFAULT is attached again exactly if it has no row in a range |
| Audit.EnsureAdds | alembic/versions/008_audit_default_partition.py:84-114 | ensuring a month adds that month and no other |
| Audit.MaintenanceKeeps | app/services/partition_maintenance.py:37-85 | a pass never needs its rollback; this month and the next two exist after it, and no young row is gone; without the lock it does nothing |
| Audit.MaintainedMonths | app/services/partition_maintenance.py:37-85 | the months after a pass with the lock are exactly this one, the next two, and those there were whose upper bound is less than 90 days ago |
| Audit.RunConserves | app/services/partition_maintenance.py:55-70 | over any run no step fails, partitions are disjoint, rows sit where they belong, and a row no drop was old enough for is there as often as it was written |
| Audit.AuditLog.InsertRow | alembic/versions/008_audit_default_partition.py:43-45 | routing to the covering partition, else DEFAULT, else an error |
| Audit.AuditLog.CreatePartition | alembic/versions/005_audit_partition_helpers.py:25-38 | create if not exists, with the error of an overlapping DEFAULT |
| Audit.AuditLog.DrainDefault | alembic/versions/008_audit_default_partition.py:52-78 | detach, create, move row by row, delete, attach |
| Audit.AuditLog.EnsurePartition | alembic/versions/008_audit_default_partition.py:84-114 | create or drain |
| Audit.AuditLog.DropPartitions | alembic/versions/006_fix_drop_audit_partitions_regex.py:36-52 | the loop drops exactly the partitions whose upper bound is not above the cutoff, and no month of theirs is left |
| Audit.AuditLog.Maintenance | app/services/partition_maintenance.py:37-85 | three ensures and a drop, rolled back as a whole on an error; the months that exist afterwards, both ways |

## Left out

- The legacy `max_*` and `tg_*` shadow tables: the same protocol on other tables.
- `total_synced`, `last_full_sync_at` and the other stamps of the sync row; nothing depends on them.
- MaxSync.Sync.Forward: does not let a store fail and be passed over; `SyncHazards.FailedStoreBreaks` does.
- MaxSync.Sync.Backward: does not let the history grow while it runs; `GrowingHistory.BackwardSeesNoGrowth` says that it would not see it, and `SyncProtocol` interleaves the two.
- MaxSync.Sync.CatchUp: states the filled gap for strictly growing times; for equal times that is `TiedForward.CaughtUpIffAllTaken`, chat by chat.
- Messages deleted on the server between two pages of a fill, and media of messages; media rows are upserted even when the row's guard skipped the update (`app/repo/messages.py:101`), so they do not converge.
- Concurrent upserts of one new identity (`app/repo/people.py:55-59`): an upsert is one atomic step.
- The order of tags in a person's array: tags are a set.
- The search filter and the page cut of `reachable`, and the rest of `app/repo/people_queries.py`.
- Python's tokenizer and entity decoding in `app/max/html_text.py`: the input is a list of tokens.
- Time zones, the names of partitions, and a table of a partition's name outside the hierarchy; bounds are midnights of one zone.
- Sender lookups and `is_outgoing`: a copy of a message comes with both resolved.
- The write limiter's row of limits per account, its status page, and the text of refusals; limits are fixed during a run.
- A release that fails in the database (`app/authz/write_limits.py:334-335`): to the model that slot is kept.
- The pause between pages, timeouts, and the supervisor's error handling in `app/max/session.py`.
- Audit.RunConserves: does not model the downgrade of the migration, which drains DEFAULT month by month and drops it.
