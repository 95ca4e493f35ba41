# Controller web server core, modelled in Dafny

This project models three parts of the controller web server of
`gnome-shell-task-bookmarks` and proves properties of them.

- **The brain boss** (`brain_boss.dfy`, module `Brain`) is the connection broker.
  It keeps a registry of live client connections. The registry is keyed by the
  client id `type_-_name_-_uniqueId` and keeps insertion order.
  It also keeps a table of callers waiting for a connection with a given capability.
  It routes `selectThings` and `fadeThings` requests addressed as
  `<clientId>:<localId>` to the connection that owns the address.
  `BrainBoss` is a class.
  Its fields stand for the two JavaScript `Map`s, the messages sent (`outbox`),
  the waiter resolutions performed (`resolutions`) and the count of
  `debugStateUpdated` notifications.
  A JavaScript `Map` is a key sequence in insertion order plus a Dafny `map`.
- **The task manager** (`task_manager.dfy`, module `Tasks`) covers the
  timestamp rewrite of `parseTaskDate`, the cache-refresh decision, the
  active-task scan, and the two pagers. The class `TaskManager` holds the cache
  fields. The pagers are methods over the task list, each proved equal to a
  specification function whose properties are proved as lemmas.
- **The mk3 indexed colour helper** (`indexed_color_helper.dfy`, module
  `IndexedColor`) maps a hue and a visibility state to an LED palette index.
  It is pure integer arithmetic, so it is modelled as functions.

`seqs.dfy` holds the shared string helpers: `indexOf`, `split(c)[0]` and
`substring(indexOf(c) + 1)`. `wrappers.dfy` holds `Option` (for `null`) and
`Result` (for a thrown error).

Behaviour of the code that the model keeps as written:

- An address with no `:` is not an error. `extractUnprefixedContainerId` returns
  the whole string for it, and `extractClientId` also returns the whole string.
- `unregisterClient` deletes whatever is bound to the key. It does not check
  that this is the connection passed in.
- Before merging, the project pager sorts pages with `(a, b) => b.length - a.length`.
  Page objects have no `length`, so every comparison is NaN, which a sort treats
  as "equal". A stable sort therefore leaves the order unchanged. The pages kept
  are the first seven groups by first appearance, not the seven largest.
  `MergeOverflow` models this.

## Model

| member | source | states |
|---|---|---|
| `Seqs.IndexOf` | controller-webserver/src/brain/boss.js:10 | `indexOf`: -1 exactly when the element is absent, otherwise a position holding it with no earlier occurrence |
| `Seqs.BeforeFirst` | controller-webserver/src/brain/boss.js:2 | `split(c)[0]` is the longest prefix free of `c`: it is followed by `c` or is the whole string |
| `Seqs.AfterFirst` | controller-webserver/src/brain/boss.js:10-11 | what follows the first `c` (the whole string when there is none), so the string is prefix + `c` + rest |
| `Seqs.SplitJoined` | controller-webserver/src/brain/boss.js:1-12 | splitting `head + c + tail` at the first `c` gives back `head` and `tail` when `head` has no `c` |
| `Brain.ExtractClientId` | controller-webserver/src/brain/boss.js:1-3 | the client id is the text before the first ':', or the whole address |
| `Brain.ExtractUnprefixedContainerId` | controller-webserver/src/brain/boss.js:5-12 | null/undefined pass through; with no ':' the address comes back whole; otherwise address = client id + ':' + result |
| `Brain.ClientKey` | controller-webserver/src/brain/boss.js:46 | the registry key starts with the client type and holds a ':' exactly when one of the three identity fields does |
| `Brain.DropLast` | controller-webserver/src/brain/boss.js:47 | `slice(0, -1)` drops the last element of the string (a Unicode character in this model), and leaves "" unchanged |
| `Brain.IdPrefix` | controller-webserver/src/brain/boss.js:46-47 | the returned prefix ends in ':' and without it is the registry key `type_-_name_-_uniqueId` |
| `Brain.AddressRoundTrip` | controller-webserver/src/brain/boss.js:1-12 | for identity fields without ':', prefix + any local id splits back into the registry key and that local id |
| `Brain.RouteToRegisteredAddress` | controller-webserver/src/brain/boss.js:80-96 | an address built on a registered prefix is routed to the connection under that key, carrying the local id |
| `Brain.KeysAfterSet` | controller-webserver/src/brain/boss.js:48 | `Map.set` key order: old keys keep their order, a new key goes last, keys stay distinct |
| `Brain.KeysAfterDelete` | controller-webserver/src/brain/boss.js:75 | `Map.delete` key order: exactly the deleted key is gone, an absent key changes nothing, keys stay distinct |
| `Brain.KeysAfterDeleteAt` | controller-webserver/src/brain/boss.js:75 | deleting a present key cuts exactly its slot out, the other keys keep their order |
| `Brain.KeysAfterDeleteJoined` | controller-webserver/src/brain/boss.js:75 | deleting a key that occurs once, between `a` and `b`, leaves `a + b` |
| `Brain.FirstWithCapability` | controller-webserver/src/brain/boss.js:119-127 | the first connection in order that advertises the capability, or -1 exactly when none does |
| `Brain.ResolvedInFifoBlock` | controller-webserver/src/brain/boss.js:58-71 | an announced capability's waiters are resumed one after another in queue order, as one contiguous block |
| `Brain.WaiterResumedByAnnouncement` | controller-webserver/src/brain/boss.js:58-71 | rendezvous: every waiter queued for an announced capability is resumed with the announcing connection |
| `Brain.ResolvedOnlyAnnounced` | controller-webserver/src/brain/boss.js:58-71 | an announcement resumes only waiters of announced capabilities, each with the announcing connection |
| `Brain.BrainBoss.constructor` | controller-webserver/src/brain/boss.js:15-28 | both maps start empty; nothing sent, resolved or notified |
| `Brain.BrainBoss.Connections` | controller-webserver/src/brain/boss.js:32 | the registered connections in registry insertion order |
| `Brain.BrainBoss.RenderDebugState` | controller-webserver/src/brain/boss.js:30-43 | headers Type/Name/UniqueId and one row per registered connection, in insertion order |
| `Brain.BrainBoss.RegisterClient` | controller-webserver/src/brain/boss.js:45-51 | returns `type_-_name_-_uniqueId:`; binds the key to the connection, overwriting any earlier binding in place; other keys and the wait table unchanged; one notification |
| `Brain.BrainBoss.UnregisterClient` | controller-webserver/src/brain/boss.js:73-78 | deletes exactly the key `idPrefix` minus its last character (no-op if absent), keeps the other keys in order; one notification |
| `Brain.BrainBoss.ReportClientCapabilities` | controller-webserver/src/brain/boss.js:58-71 | announced capabilities leave the wait table, others stay queued untouched; resolutions are those of `Resolved`; lists stay non-empty; one notification |
| `Brain.BrainBoss.MessageContainerId` | controller-webserver/src/brain/boss.js:80-96 | nothing is sent when the owner is not registered; otherwise exactly one message of that type to the owner, with one item: local id plus extra properties |
| `Brain.BrainBoss.FocusContainerId` | controller-webserver/src/brain/boss.js:98-105 | a `selectThings` message whose item carries the slot address's local part as `focusSlotId` |
| `Brain.BrainBoss.FadeContainerId` | controller-webserver/src/brain/boss.js:107-113 | a `fadeThings` message whose item carries `value` |
| `Brain.BrainBoss.FindConnWithCapability` | controller-webserver/src/brain/boss.js:119-127 | the first registered connection in insertion order with the capability, or null |
| `Brain.BrainBoss.AwaitConnWithCapability` | controller-webserver/src/brain/boss.js:133-152 | a match is returned with the wait table untouched; otherwise exactly one waiter is appended to that capability's list, creating it if absent |
| `Tasks.Slice` | controller-webserver/src/task_manager.js:11 | `slice(a, b)` clamps to the string: exact within bounds, empty from the end on, otherwise the part of the tail up to `b` |
| `Tasks.RewriteTaskDate` | controller-webserver/src/task_manager.js:9-13 | the rewritten date has min(length, 16) + 4 characters; for inputs of 16 or more characters, '-', '-', ':', ':' sit at positions 4, 7, 13, 16 |
| `Tasks.RewriteTaskDateRoundTrip` | controller-webserver/src/task_manager.js:9-13 | removing the inserted separators gives back the 16-character `YYYYMMDDTHHMMSSZ` stamp |
| `Tasks.RewriteTaskDateInjective` | controller-webserver/src/task_manager.js:9-13 | distinct 16-character stamps reach `Date.parse` as distinct strings |
| `Tasks.ParseTaskDate` | controller-webserver/src/task_manager.js:9-13 | only the first 16 characters of the stamp reach `Date.parse` |
| `Tasks.ActiveIndex` | controller-webserver/src/task_manager.js:233-244 | the scan's choice is -1 or a started task |
| `Tasks.ActiveIndexIsLatestStart` | controller-webserver/src/task_manager.js:233-244 | null exactly when no task is started; otherwise a started task with the latest start, the first such in list order (strict `>`) |
| `Tasks.TaskManager.constructor` | controller-webserver/src/task_manager.js:32-63 | no cache, last export at 0, no active task |
| `Tasks.TaskManager.ComputeActiveTask` | controller-webserver/src/task_manager.js:233-244 | `activeTask` becomes the active task of the cached list |
| `Tasks.NeedsExport` | controller-webserver/src/task_manager.js:120-121 | the cache is served exactly when not forced, present, and at most 1000 ms old |
| `Tasks.TaskManager.GetRecentPending` | controller-webserver/src/task_manager.js:112-141 | exports iff forced, nothing cached, or the cache is over 1000 ms old; then caches the result, its arrival time and its active task; otherwise nothing changes and the cache is returned |
| `Tasks.NaivePagedRecentPending` | controller-webserver/src/task_manager.js:147-171 | no tasks give no pages; otherwise one page "1" with all tasks in order (the page size is never used) |
| `Tasks.PageKey` | controller-webserver/src/task_manager.js:211 | the page key is never empty and is '(none)' without a project |
| `Tasks.PageKeyIsFirstSegment` | controller-webserver/src/task_manager.js:211 | a project's page is its first '.'-segment, or '(none)' when that segment is empty (the empty project, ".x") |
| `Tasks.PageKeyOfUndottedProject` | controller-webserver/src/task_manager.js:211 | a non-empty project without '.' is its own page |
| `Tasks.PageKeyOfDottedProject` | controller-webserver/src/task_manager.js:211 | a project `top.rest` with a non-empty `top` lands on page `top` |
| `Tasks.PlaceNames` | controller-webserver/src/task_manager.js:185-196 | `placeTaskInPage` keeps every page name, adds at most one page, and afterwards the task's key names a page |
| `Tasks.PlaceInExisting` | controller-webserver/src/task_manager.js:185-196 | a task whose key names a page is appended to that page; names unchanged |
| `Tasks.PlaceInNew` | controller-webserver/src/task_manager.js:185-196 | a task with a new key opens a new last page holding it |
| `Tasks.GroupNames` | controller-webserver/src/task_manager.js:185-213 | one page per distinct key: page names are distinct and are exactly the tasks' keys |
| `Tasks.GroupContents` | controller-webserver/src/task_manager.js:185-213 | each page holds exactly the tasks with its key, in input order |
| `Tasks.GroupFirstAppearanceOrder` | controller-webserver/src/task_manager.js:185-213 | pages are in the order in which their keys first appear |
| `Tasks.GroupKeepsTasks` | controller-webserver/src/task_manager.js:185-213 | the pages together hold every task exactly as often as the input |
| `Tasks.GroupByProject` | controller-webserver/src/task_manager.js:181-213 | the `pageMap` placement loop builds exactly the grouped pages |
| `Tasks.MergePages` | controller-webserver/src/task_manager.js:198-208 | one '(catch-all)' page holding the pages' tasks, page after page |
| `Tasks.MergeOverflow` | controller-webserver/src/task_manager.js:215-220 | more than 8 pages give exactly 8: the first 7 kept and a catch-all; 8 or fewer are untouched; the task sequence is preserved |
| `Tasks.InsertByName` | controller-webserver/src/task_manager.js:223 | inserting a page adds exactly that page |
| `Tasks.InsertByNameSorted` | controller-webserver/src/task_manager.js:223 | under a total collation, insertion keeps pages ordered by name |
| `Tasks.InsertByNameTasks` | controller-webserver/src/task_manager.js:223 | insertion adds exactly the inserted page's tasks |
| `Tasks.SortByName` | controller-webserver/src/task_manager.js:223 | the sorted pages are a permutation of the input pages |
| `Tasks.SortByNameSorted` | controller-webserver/src/task_manager.js:223 | under a total collation, the result is ordered by name |
| `Tasks.SortByNameTasks` | controller-webserver/src/task_manager.js:223 | sorting keeps every task |
| `Tasks.ProjectPagedRecentPending` | controller-webserver/src/task_manager.js:178-226 | pages ordered by name; every task kept; exactly 8 pages when there are more than 8 groups; otherwise a permutation of the groups |
| `IndexedColor.BrightnessOffset` | controller-webserver/src/indexed_color_helper.js:88-104 | known exactly for focused/visible/hidden/missing; the offset is in [0, 3] and identifies the state |
| `IndexedColor.ComputeBookmarkDisplayColor` | controller-webserver/src/indexed_color_helper.js:87-107 | fails with "unknown visibility: " + state exactly for unknown states; otherwise decodes back to (hue, state); for hue in [0, 15] it is in [4, 67], not the empty index |
| `IndexedColor.ComputeDisplayColor` | controller-webserver/src/indexed_color_helper.js:109-111 | decodes to (hue, "visible"); for hue in [0, 15] it is in [4, 67] |
| `IndexedColor.ComputeEmptyDisplayColor` | controller-webserver/src/indexed_color_helper.js:79-81 | the result is index 0 ("off"), below every colour entry |
| `IndexedColor.ComputeColorBankColor` | controller-webserver/src/indexed_color_helper.js:75-77 | the hue is the cell index, independent of bank and sizes |
| `IndexedColor.VisibleBookmarkIsDisplayColor` | controller-webserver/src/indexed_color_helper.js:87-111 | a visible bookmark gets the display colour at every brightness scale |
| `IndexedColor.BookmarkColorInjective` | controller-webserver/src/indexed_color_helper.js:87-107 | distinct (hue, state) pairs get distinct palette indices |
| `IndexedColor.BookmarkColorIsNeverEmpty` | controller-webserver/src/indexed_color_helper.js:79-107 | for hue in [0, 15], a bookmark never gets the empty index |

## Left out

- `controller-webserver/src/controller/maschine3/modes/task_picker_mode.js`: this is UI mode logic (templating, mode popping, LED brightness floats). It is not part of this model.
- Promises: a pending `_awaitConnWithCapability` is a `Waiter` token supplied by the caller. A `None` answer means "suspended". Resuming it is recorded as a `Resolution` in `resolutions`.
- `asyncRenderHTML` and `sendMessageAwaitingReply`: the reply transport is foreign code.
- `notifyModes`: set by another component and never called here.
- `debugStateUpdated` is counted, not called. What the observer does is outside the model.
- Connections are values: a handle, the reported identity, and a snapshot of the capabilities. A connection that changes its `capabilities` after registering is not modelled.
- `focusSlotId`: a null and an undefined slot address both become `None`. Once serialised to JSON an undefined field disappears while a null one is kept; the model does not tell them apart.
- `extractClientId` on null/undefined throws. The routing methods take a string, so this case is left out.
- `_runExport`, `_runCommand`, `setActiveTask`, `markTaskDone`, `getActiveTask` and `getPendingTasks`: these run shell commands or only wrap `getRecentPending`. The export result, and when it arrives, are parameters of `GetRecentPending`.
- The `_activePendingRequest` promise that coalesces concurrent exports, logging, and the constructor's check for a `log` argument.
- Both pagers first call `this.getRecentPending()` (task_manager.js:148, 179), which may export again and update `activeTask`. The pager methods take the task list that call returns instead; the refresh is `GetRecentPending`.
- `Date.now` and `Date.parse` are parameters: `now`, `arrivedAt`, and `dateParse: string -> int`.
- Tasks.ActiveIndexIsLatestStart: `Date.parse` is taken to return an integer. With NaN, every `>` comparison involving it is false. A started task whose date is NaN is then never chosen over an earlier pick. If the first started task's own date is NaN, the scan keeps it to the end. Otherwise a task with a later (non-NaN) date still replaces the pick. That case is not modelled.
- Brain.DropLast: JavaScript strings are sequences of UTF-16 code units, and `slice(0, -1)` drops one code unit. Here strings are sequences of Unicode scalar values, so a string ending in a character outside the Basic Multilingual Plane loses the whole character instead of leaving a lone high surrogate. `UnregisterClient` is built on it and so can delete a key that the JavaScript `delete` would miss. Prefixes returned by `registerClient` end in ':', so this does not arise for them.
- Tasks.Slice: JavaScript `slice` indices count UTF-16 code units, and the model's count Unicode scalar values. Results differ for text outside the Basic Multilingual Plane. `RewriteTaskDate` and `ParseTaskDate` are built on it and would then hand `Date.parse` a different string. Taskwarrior stamps are ASCII.
- `localeCompare` is locale-dependent. It is the parameter `le`, read as `a.localeCompare(b) <= 0`. Sortedness is proved for any total `le`.
- `makeRandomColor` uses `Math.random`, and the `colorTable` names are documentation only.
- JavaScript numbers are doubles. The colour arithmetic uses exact integers, which agree with doubles for every index in range. The fade `value` is a `real` that is passed through unchanged.
