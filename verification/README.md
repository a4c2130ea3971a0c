# USSD sessions: the interpreter, the session cache and its two stores

This project models the core of a USSD service engine written in Go and proves properties of whole runs of it.

A subscriber dials a code and then answers menus and prompts. Every request is one call (`Start`, `UserInput` or
`UserAbort`) that opens the session, works through a queue of items, sends at most one response and stores the
session; nothing else survives between requests. A session is a local cache over a store: either a map in the same
process, or a REST service with a client of its own.

- `values.dfy`, `local.dfy`, `stores.dfy`: session values, the session cache and both stores as functions.
- `interpreter.dfy`: the work queue of `proceed`, its recursive reading, composition and termination.
- `lifecycle.dfy`: every call as one transition, including what a Go panic leaves behind.
- `history.dfy`: the same calls told without the cache, from what is stored and the items' code to what is sent and stored.
- `protocol.dfy`, `last-shown.dfy`, `bisimulation.dfy`, `dialog.dfy`: properties of all runs.
- `limits.dfy`, `witnesses.dfy`: what happens outside the conditions of those properties, and inputs at which it shows.
- `central-store.dfy`, `sessions.dfy`, `engine.dfy`: the REST server, the session objects and stores, and the
  interpreter as they run, with Go maps as heap objects, proved to make exactly those transitions.
- `menu.dfy`, `router.dfy`, `prompt.dfy`, `standard-items.dfy`: the library's own items.

How Go is read:

- A Go map that can have two holders is an object (`GoMap`). `NewSession` uses one map as `data` and `namesToSet`;
  the in-memory `Get` hands out the stored map; the REST client writes nulls into the map it is given and decodes the
  reply over it. All of that is in the classes, and shows in the transitions (`Leave`, `SharedAfterSync`).
- The order in which a Go map is traversed is arbitrary in every loop.
- JSON keeps strings, booleans and null, and turns a `[]string` into a `[]interface{}`.
- A REST exchange is delivered, loses its request, or loses its reply. `Sync` and `Del` failures are ignored, as in
  the code.
- A panic in an item, or at one of the type assertions in `proceed`, leaves `err` nil, so the deferred block commits.
- An item's code is an arbitrary function of what the session's `Get` shows: the updates it makes, the items it
  returns, and whether it fails or panics.
- `int` is 64 bits wide. A call is atomic. Times are arguments; identifiers made up by the code are arguments.

The documentation of `UserInput` calls its extra data optional data that is set in the session; with the in-memory
store it is set even if the input is rejected or the call fails, and over REST only if the input is accepted
(`Limits.UnsyncedInput`). The comment on `StartRequest.ID` says that a new session deletes the old one of the same id;
in memory it is merged into the old one (`Limits.StartOverWaitingSession`).

## Model

| member | source | states |
|---|---|---|
| `Stores.MovesCoherent` | ussd/session.go:63-91 | Every sequence of Set, Del and Sync, on either store and whatever becomes of the exchanges, keeps the cache coherent: pending values agree with the data, deleted names are not in it, and the data is the snapshot of the last Sync minus the deleted names overlaid by the pending ones. |
| `LocalSessions.OpsCoherent` | ussd/session.go:70-84 | Between syncs, every sequence of Set and Del keeps the cache coherent, and data and pending values equal if they were, which is what one shared map amounts to. |
| `LocalSessions.UpdatesTakeEffect` | ussd/session.go:70-84 | After any sequence of Set and Del each name reads as the last update of it says (a value set is in the data and pending and no longer deleted; a delete or nil leaves it in neither and marks it deleted), and as before if none names it. |
| `LocalSessions.ViewUpdated` | ussd/session.go:63-84 | So what Get shows of every name after the updates is read off their list. |
| `Stores.GetIsExclusive` | ussd/session.go:22-43 | A session from Get starts with what is stored as its snapshot, on either store. |
| `Stores.MovesPublish` | ussd/session.go:86-91 | From there, if the requests arrive and nobody else writes the entry, then after every Sync in any such sequence the stored entry answers every name as the session's Get does; over REST with values that JSON keeps. |
| `Sessions.Session.constructor` | ussd/session.go:22-43 | A given map becomes both `data` and `namesToSet`, one object; without one there are two fresh maps. The cache starts coherent. |
| `Sessions.Session.Get` | ussd/session.go:63-68 | An absent name and a nil value both read as nil. |
| `Sessions.Session.Set` | ussd/session.go:70-78 | Sets data and pending value and cancels a pending delete, or deletes if the value is nil; the same effect whether the two maps are one or separate; coherence is kept. |
| `Sessions.Session.Del` | ussd/session.go:80-84 | Removes the name from data and pending values and marks it deleted, shared maps or not; coherence is kept. |
| `Sessions.Session.Sync` | ussd/session.go:86-91 | Applies the delta to the store (or loses it with the exchange), forgets it either way, and leaves in a shared data map what the REST client wrote and decoded there; in memory the data never changes. Every open session still shares stored maps under its own id only. |
| `Sessions.Sessions.New` | ussd/sessions.go:48-57 | In memory nothing is stored and the caller's own map is used; over REST the entry is replaced at once. The new session shares no map with the store, and other open sessions still share stored maps under their own id only. |
| `Sessions.Sessions.Get` | ussd/sessions.go:59-69 | An in-memory session gets the stored map itself, for data and pending values; a REST session gets a copy; both get the stored times. |
| `Sessions.Sessions.Del` | ussd/sessions.go:71-77 | Removes the entry of that id and no other, unless the request is lost. Open sessions still share stored maps under their own id only. |
| `Sessions.OtherIdsUntouched` | ussd/sessions.go:63-66 | Whatever is done to the maps of any open session that shares a stored map under its own id only, synced before or not, no other id's stored data changes; over REST none does. |
| `GoMaps.DeleteAll` | ussd/sessions.go:91-94 | Deleting names one by one, in any order, deletes exactly those names. |
| `Sessions.SetAllIn` | ussd/sessions.go:95-98 | Copying a map name by name, in any order, overlays it, also onto itself. |
| `Sessions.InMemorySessions.Sync` | ussd/sessions.go:79-103 | The entry becomes the old one minus the deleted names overlaid by the values, also when the values are the stored map itself; no other entry changes, stored maps stay distinct objects, the start time is kept and the last time set. |
| `Sessions.HttpNew` | rest-sessions/client/rest-session-client.go:25-60 | The server's entry is replaced by the data without nulls, unless the request is lost; the session holds the caller's map with the reply decoded over it, and the reply's times. |
| `Sessions.HttpGet` | rest-sessions/client/rest-session-client.go:62-94 | The session holds a fresh decoded copy of the stored data and the stored times, or the present if one is missing; a missing session or a lost exchange gives none. |
| `Sessions.WriteNulls` | rest-sessions/client/rest-session-client.go:118-120 | Afterwards every deleted name holds null in the caller's map, in whatever order they were written. |
| `Sessions.HttpSync` | rest-sessions/client/rest-session-client.go:113-141 | The stored entry is patched with null tombstones; the caller's map holds the tombstoned delta, overlaid by the whole stored entry if the reply arrived. |
| `Stores.SyncAgreement` | ussd/sessions.go:91-98 | The in-memory delete-then-set and the REST null patch leave the same map for every stored map if and only if no name is both set and deleted and each value set is not nil and survives JSON. |
| `Stores.SyncPublishes` | ussd/session.go:86-91 | If the entry is what the session was opened with, Sync stores exactly the session's data, on either store. |
| `Stores.NewSyncPublishes` | ussd/sessions.go:48-57 | A new in-memory session publishes what it shows if and only if every other name with a value already stored under the id was set or deleted locally. |
| `Stores.SharedSyncCatchesUp` | rest-sessions/client/rest-session-client.go:113-137 | After a delivered Sync a REST session with shared maps shows exactly what is stored, even if others changed the entry meanwhile. |
| `Values.PatchCompose` | rest-sessions/main.go:122-134 | Two successive null-tombstone patches equal one patch by the second overlaid on the first. |
| `Values.PatchReads` | rest-sessions/main.go:122-134 | After a patch each name of it reads as it says, null for removed, and every other name as before. |
| `CentralStore.Update` | rest-sessions/main.go:122-134 | The update loop, in any order and starting from a nil map or not, applies exactly the patch, in place. |
| `CentralStore.Server.HandleNewSession` | rest-sessions/main.go:35-64 | Refuses an empty or different id and given times; otherwise replaces the entry by the data without nulls, with both times now. Data maps of distinct sessions stay distinct objects. |
| `CentralStore.Server.HandleGetSession` | rest-sessions/main.go:66-98 | Replies with the whole session or the selected names; 404 if there is none; changes nothing. |
| `CentralStore.Server.HandleUpdSession` | rest-sessions/main.go:100-141 | Refusals change nothing; otherwise only that entry changes, by the patch and the last time. |
| `CentralStore.Server.HandleDelSession` | rest-sessions/main.go:143-151 | Removes the entry, present or not. |
| `CentralStore.StepStaysSound` | rest-sessions/main.go:35-151 | One request keeps every entry under its own id, without nulls, with start not after last; a rejected request changes nothing. |
| `CentralStore.RunsStaySound` | rest-sessions/main.go:35-151 | So does every run of requests with a clock that does not go back, and a session that is neither re-created nor deleted keeps its start time. |
| `CentralStore.UpdatesCompose` | rest-sessions/main.go:122-140 | Two accepted updates in a row, at any two times, leave the same store and give the same reply as one update, at the second time, with the second patch overlaid on the first. |
| `CentralStore.RefusedExactly` | rest-sessions/main.go:35-151 | Which requests are refused and which not found, exactly; none of them changes the store. |
| `CentralStore.AcceptedExactly` | rest-sessions/main.go:35-141 | Name by name what an accepted request stores and answers: a create has its data without nulls and both times now, an update changes its names, keeps the start and has the last time now, a fetch answers the names asked for or all; no other session changes. |
| `CentralStore.DeletedExactly` | rest-sessions/main.go:143-151 | A delete takes that session away and no other. |
| `Interpreter.EndsAppend` | ussd/user.go:119-174 | Running xs followed by ys returns exactly if xs returns and, when it falls through, ys returns from there; the outcome is that of xs with ys left behind it, or of xs then ys. |
| `Interpreter.LoopIsDepthFirstWalk` | ussd/user.go:128-174 | The loop over the growing queue returns a result if and only if the recursive depth-first left-to-right walk does: same items in the same order, same session, same stop, same remainder. |
| `Interpreter.LoopIsTheTrajectory` | ussd/user.go:128-186 | The run is the only one that the items' own code allows: each item comes from the head of the queue, sees what the updates of those before it left, its updates stay, what it returns goes to the head, and the first that does not succeed as a server item ends the run. |
| `Interpreter.RankedTerminates` | ussd/user.go:128-174 | If server items expand only to server items of smaller rank, the loop returns from every session and every queue, however long the expansions are. |
| `Protocol.OneEffectPerCall` | ussd/user.go:50-187 | A call sends at most one thing and only for its own session; it returns nil exactly with one response or one issued service request (an abort with none); a failed call has sent nothing unless it was the sending that failed. |
| `Protocol.OtherSessionsUntouched` | ussd/user.go:19-195 | No call changes the stored data of another session id. |
| `Protocol.CommitOrDelete` | ussd/user.go:94-117 | After proceed, if the closing exchange arrived, the session is gone if and only if an error was returned or a final text sent; otherwise it is stored with current_item_id naming the item popped last. |
| `Protocol.FallingOffIsAnError` | ussd/user.go:119-186 | proceed falls off the end of its queue if and only if every item it popped was a server item that returned without an error; then nothing is sent and the session is deleted. |
| `Protocol.EndedIsGone` | ussd/user.go:95-107 | After a release, an error of proceed or an abort the session is not stored if and only if the delete arrived (or an abort had nothing to delete); a lost delete is logged and ignored. |
| `Protocol.SilentUntilStart` | ussd/user.go:50-60 | In every run without a Start of an absent session, nothing is sent for it and it stays absent. |
| `Protocol.EndedSessionIsSilent` | ussd/user.go:95-107 | After a release, an error of proceed or an abort whose delete arrived, no run sends anything for that session until it is started again. |
| `Protocol.SilentExactly` | ussd/user.go:95-107 | A session that waited at a prompt which rejects some input, and was then ended by an input or an abort, stays silent until a Start if and only if the delete arrived; otherwise that input is still answered. |
| `Protocol.RejectionIsStutter` | ussd/user.go:74-84 | Input rejected by a Process that set nothing, without extra data, leaves the store as it was on either back-end and sends once, to the responder and key of the call, the error on a line of its own (unless it is empty) and the prompt. |
| `Protocol.RejectionsVanish` | ussd/user.go:74-90 | Any number of such inputs followed by any call leaves the store and sends, at the end, what that call alone does. |
| `Histories.StartDoes` | ussd/user.go:19-43 | A Start from its arguments to its effects, on either back-end: the first item sees the caller's data and the dialled code; if it succeeds, its updates and then this call's responder and key take effect and its items run, followed by any queued in the data; what is sent is rendered on the updates made on the way and, if the closing exchange arrives and memory held no session of that id, what is stored reads as they say, with current_item_id last. |
| `Histories.InputDoes` | ussd/user.go:50-90 | A UserInput likewise, from what is stored overlaid by the extra data: which prompt processes it, what is sent on a rejection, and on acceptance what runs, is sent, returned and (if the closing exchange arrives) stored, name by name. |
| `Histories.RefusedCalls` | ussd/user.go:23-60 | Calls without an item, a responder or a session are refused, in this order, and change nothing. |
| `Histories.ResponderOfThisCall` | ussd/user.go:40-88 | In a disciplined service every response is sent by the responder and under the key of the very call that sends it, whatever was on record before. |
| `Histories.ResolveExactly` | ussd/user.go:197-207 | Queued ids resolve to the registered items one for one and in order, exactly if all of them are registered. |
| `LastShown.ProceedShows` | ussd/user.go:139-160 | Within a disciplined service, a prompt that proceed keeps waiting for is the one it has just sent. |
| `LastShown.StepKeepsPicture` | ussd/user.go:65-116 | A call of a disciplined service keeps the picture of the last shown prompt if and only if its closing exchange arrived, or the session no longer waits at a prompt, or the call showed that same prompt or nothing. |
| `LastShown.LastShownPrompt` | ussd/user.go:65-116 | In a run of such calls, through redisplays, rejections, failed starts and aborts, a stored current_item_id that names a prompt names the one shown last to that user after every call, if and only if every call met that condition; in particular if every closing exchange arrives. |
| `LastShown.InputGoesToShownPrompt` | ussd/user.go:65-74 | The next input is refused without effect, or processed by the prompt the user saw. |
| `Bisimulation.StartAgrees` | ussd/user.go:19-43 | A Start with plain data and a working network sends, returns and pops the same on both back-ends; they still agree afterwards if and only if the id was not waiting, or the first item succeeded and the new session, if kept, set or deleted every old name. |
| `Bisimulation.InputAgrees` | ussd/user.go:50-90 | So does a UserInput, with or without extra data and whatever Process sets; the back-ends still agree afterwards if and only if the input was accepted or nothing was changed. |
| `Bisimulation.BackendsBisimilar` | ussd/user.go:19-195 | Over every run of such calls the two back-ends send the same, return the same kind of result call by call, pop the same items and store the same data for every waiting session. |
| `Bisimulation.AgreementExactly` | ussd/user.go:19-195 | With plain data and a working network, these are all the runs after each of whose calls the stores agree. |
| `Dialog.SuspendResumeAgreement` | ussd/user.go:119-130 | A dialog cut at its prompts equals the one that is never cut if and only if no resumed run falls off its queue while something was left behind a prompt. |
| `Dialog.NothingBehindCovers` | ussd/user.go:119-130 | So the two are equal whenever nothing is queued behind each prompt reached. |
| `Dialog.PromptsLastCovers` | ussd/user.go:128-174 | In a service where only the last item of each returned list is a prompt or leads to one, nothing is ever queued behind a prompt, in any dialog. |
| `Dialog.PromptsLastAgree` | ussd/user.go:19-130 | So every session of such a service does, call by call, what one interpreter does that is never cut. |
| `Dialog.RunningIsCalls` | ussd/user.go:86-117 | A call that runs a queue, with all inputs after it, pops, sends and stores exactly what the dialog cut at prompts does. |
| `Dialog.CallsAgreeWithUncut` | ussd/user.go:50-130 | The calls of a waiting session agree with one interpreter that is never cut exactly under that condition. |
| `Dialog.StartedAgreesWithUncut` | ussd/user.go:19-43 | The same from the first call of a session on. |
| `Dialog.RestAgreesWithUncut` | ussd/user.go:50-130 | And over REST, for a portable service: the same items are popped exactly under that condition, and then the same is sent and stored. |
| `Engine.OnlyOwnEntry` | ussd/sessions.go:63-66 | Whatever is done to the maps of an open session, the store changes at most under its id, and there to exactly what the session shows. |
| `Engine.Engine.LoadNextItems` | ussd/user.go:197-207 | Looks the queued ids up in order; one unknown id fails the whole; anything but a list of strings is no queue. |
| `Engine.Engine.Respond` | ussd/user.go:139-160 | The type assertions, the responder checks, one response of the right type; a final item leaves no current item. |
| `Engine.Engine.Work` | ussd/user.go:128-186 | The loop returns, with the session, popped items and effects of the specified run. |
| `Engine.Engine.Defer` | ussd/user.go:95-117 | Error or no current item: delete; otherwise stamp and sync; on the store as the session's aliasing left it. |
| `Engine.Engine.Proceed` | ussd/user.go:93-187 | Stored data, effects, popped items and result are those of the specified transition, on either store. |
| `Engine.Engine.Start` | ussd/user.go:19-43 | The whole call makes the specified transition of store, log and result, on either store, whatever map the caller passes. |
| `Engine.Engine.TakeData` | ussd/user.go:61-63 | The caller's data ends up set in any traversal order, and nil values delete. |
| `Engine.Engine.Repeat` | ussd/user.go:75-83 | Sends the error, a newline and the prompt, or the prompt alone if the error is empty, to the responder of this call; nothing stored. |
| `Engine.Engine.UserInput` | ussd/user.go:50-90 | The whole call makes the specified transition, on either store. |
| `Engine.Engine.UserAbort` | ussd/user.go:189-195 | Deletes the session and returns nil even if that failed. |
| `Items.Registry.Register` | ussd/item.go:31-33 | A new item takes its id in the registry, from an earlier item if there was one. |
| `Decimal.ParseIntPositive` | ussd/item-menu.go:81-81 | The 64-bit decimal parse gives k >= 1 exactly for digits of value k, with or without a plus sign, that fit. |
| `Decimal.PrintIsNumeral` | ussd/item-menu.go:72-72 | The printed number is a numeral of that value, without a leading zero. |
| `Menus.Menu.constructor` | ussd/item-menu.go:24-33 | An empty menu, registered under its id. |
| `Menus.Menu.With` | ussd/item-menu.go:37-50 | Appends one option. |
| `Menus.Menu.Render` | ussd/item-menu.go:52-77 | Builds the page of title and options, which `Menus.PageReads` spells out. |
| `Menus.Menu.Process` | ussd/item-menu.go:79-89 | Decides as the specified choice, whose meaning the two lemmas below give. |
| `Menus.PrintedNumberChooses` | ussd/item-menu.go:70-73 | After everything printed for the options before it, the page has a newline, the number k, a point and the caption of option k; and that number, typed in, chooses exactly option k. |
| `Menus.PageReads` | ussd/item-menu.go:70-73 | The page is the title and, option by option, such a line and nothing else. |
| `Menus.ChoiceExactly` | ussd/item-menu.go:79-88 | Option k is chosen exactly by decimal numerals of value k in 1..n (plus sign and leading zeros allowed, no 64-bit overflow) and leads to its items or, without items, is rejected; every other input redisplays without an error; the session is never touched. |
| `Routers.Router.constructor` | ussd/item-router.go:11-21 | An empty router, registered under its id. |
| `Routers.Router.WithCode` | ussd/item-router.go:31-34 | Sets the items of one code. |
| `Routers.Router.WithPrefix` | ussd/item-router.go:36-39 | Sets the items of one prefix. |
| `Routers.Router.Exec` | ussd/item-router.go:63-90 | The result is that of some traversal of the prefixes; it panics exactly if the dialled code is not a string. |
| `Routers.Precedence` | ussd/item-router.go:67-89 | An exact code beats every prefix, a matching prefix beats every pattern, the first registered matching pattern wins, and otherwise the code is unknown. |
| `Routers.RoutingDeterminism` | ussd/item-router.go:74-78 | The route is independent of traversal order for every input if and only if registered prefixes of one another lead to the same items. |
| `Prompts.Prompt.constructor` | ussd/item-prompt.go:17-26 | A prompt without validators, registered under its id. |
| `Prompts.Prompt.Process` | ussd/item-prompt.go:36-46 | Returns as the specified decision; accepted input is what the session then reads under the prompt's name, every other name and everything on rejection reads as before. |
| `Prompts.AcceptExactly` | ussd/item-prompt.go:36-46 | The input is stored under the prompt's name exactly if every validator passes it; otherwise nothing is stored and the first objection is the error. |
| `StandardItems.LibraryServices` | ussd/item.go:5-33 | A well-defined service of the library's own items meets every condition of the theorems on runs: it terminates, is disciplined and is portable. |
| `StandardItems.LibraryPromptsLast` | ussd/item.go:5-33 | One whose menus and prompts come last in each option and route has its prompts last, so suspending loses nothing. |
| `Limits.UnsyncedInput` | ussd/user.go:61-84 | Input that is not accepted (no prompt to take it, or Process fails or panics): memory keeps the extra data and whatever Process set, REST loses both; the stores still agree if and only if nothing was changed. |
| `Limits.StartOverWaitingSession` | ussd/sessions.go:48-57 | Starting over a waiting session, with or without data: if the first item fails, memory keeps the old dialog and REST an entry that waits for nothing; otherwise both do the same, and the stored entries are equal if and only if every old name was set or deleted. |
| `Limits.LostClose` | ussd/user.go:95-114 | If the closing sync or delete of a REST call other than Start is lost, the store is as before, and the picture of the last shown prompt stays right if and only if nothing, a service request or the same prompt was sent. |
| `Limits.QueuedIdsOverRest` | ussd/user.go:198-198 | A list of queued item ids resumes in memory and is ignored over REST. |
| `Limits.AcceptedPromptFallsOff` | ussd/item-prompt.go:44-45 | Input accepted by the library's own prompt always ends in an error: nothing is sent and the session is deleted, whatever was queued behind the prompt. |
| `Witnesses.ExtraDataTellsApart` | ussd/user.go:61-84 | An empty name, rejected, with extra data: memory stores the extra data and REST does not. |
| `Witnesses.StartOverTellsApart` | ussd/sessions.go:79-103 | Dialling again while a menu waits: both back-ends show the menu, but memory keeps a name of the old dialog. |
| `Witnesses.FailedStartTellsApart` | ussd/user.go:36-39 | Dialling an unknown code while a menu waits: memory keeps the old dialog, REST an empty entry. |
| `Witnesses.LostSyncMisleads` | ussd/user.go:111-114 | A menu choice over REST whose sync is lost: the user sees a question, the stored session still waits at the menu. |
| `Witnesses.LostDeleteStillAnswers` | ussd/user.go:102-107 | A menu choice over REST that says goodbye and whose delete is lost: the next input is answered. |
| `Witnesses.SuspendingLosesGoodbye` | ussd/user.go:119-130 | A menu option that leads to a prompt and then to a final text: the interpreter that is never cut shows the text, the one that suspends does not. |
| `Witnesses.SameIdMixesUp` | ussd/item-menu.go:24-33 | Two prompts of one id: one is shown, and the session waits at the other. |
| `Witnesses.NilTellsApart` | rest-sessions/main.go:51-55 | A nil in a new session's data is stored in memory and dropped over REST. |

## Left out

- Engine.Engine.Start: like the other calls and the results on runs, requires the items' expansion to end, because a Go call whose items expand for ever never returns and so has no outcome to describe. `Interpreter.RankedTerminates` gives a sufficient condition, which the library's items meet (`StandardItems.LibraryServices`).
- Routers.Router.Exec: regular expressions are sets of inputs; compiling them, their capture names and the two panics of `WithRegex` are not modelled.
- Menus.Menu.With: the panic on a nil item is not modelled; items here are never nil.
- HTTP, NATS, message and service plumbing, the console and the two demo programs: transport only.
- JSON beyond strings, booleans, null and lists of strings, and strings that are not valid UTF-8.
- The request and response enumerations with their parsing: three values each.
- `Process` of service items: nothing in the repository resumes a session that waits for a service.
- Items whose `Render` changes the session, or that call `Sync` or the store themselves.
- Item code that depends on anything but the session (databases, other services): a program is one function of it.
- Slices that share a backing array: `append(moreNextItems, nextItems...)` is taken to make a new list, so an item that returns a slice with spare capacity over memory it uses elsewhere is not modelled.
- What a responder answers is a function of what it is sent, so a response that is refused once is refused always.
- A router of `StandardItems` traverses its prefixes in one fixed order; `Routers.Router` in any.
- Races between calls: every call and every handler is one atomic step, and logging is omitted apart from the list of popped items.
- Session times in the properties of runs: the in-memory and REST methods set them, the transitions drop them.
