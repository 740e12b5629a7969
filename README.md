# Trackify chat logger: a Dafny model

Trackify lets a user say in plain words what they want recorded ("Track 2000 calories in
Nutrition"). The chat logger page turns each utterance into pending entries in a staging
list, answers in the chat, and on request commits the staged entries to the log store of the
application context. This project models that engine and the catalog/log store behind it, and
proves what they promise:

- `Text`: the string operations the engine is built on. These are ASCII `toLowerCase`,
  `includes`, `trim`, the first match of `/\d+(\.\d+)?/`, `join`, and the rendering of a count.
- `Catalog`: the records (`TrackItem`, `Category`, `LogEntry`, a `Partial<TrackItem>` patch), the
  initial catalog, and each store operation as the pure list transform it computes.
- `AppContext`: the provider's state as a class `AppStore` with fields `categories` and `logs`.
  Each method replaces one field with the matching `Catalog` transform.
- `Matcher`: intent classification, the two-stage scan of an utterance against the catalog, the
  upsert into the staging list, removal by index, the reply texts and the lookup used to display
  a staged entry.
- `Logger`: the page as a class `LoggerPage` with fields `input`, `messages`, `trackingItems` and
  `isLoading`. It also holds the scan loop `ScanCatalog`, which the handlers call. The class
  invariant is that the staging list never holds two entries for one (category, item) pair.

Identifiers and timestamps (`Date.now()`, `new Date().toISOString()`) are parameters of the
operations that need them. The one-second timer of `handleSendMessage` is not modelled. A turn is
`HandleSendMessage`, which appends the user's message, sets the busy flag and returns the
staging list of the current render. `FinishTurn` is the timer's callback as written: it
processes the message against that captured list and clears the flag. `FinishTurnOnCurrent`
is the corrected callback, which stages onto the list as it is when the timer fires.

## Model

| member | source | states |
|---|---|---|
| `Text.Lower` | src/pages/Logger.tsx:72 | each capital letter becomes its lower-case letter (32 code points on), every other character stays, the length is kept and no capital remains |
| `Text.LowerIdempotent` | src/pages/Logger.tsx:83-86 | lower-casing an already lower-cased name changes nothing |
| `Text.ContainsIff` | src/pages/Logger.tsx:75 | `includes` holds exactly when the pattern occurs at some index of the text |
| `Text.ContainsExtended` | src/pages/Logger.tsx:75 | text added before or after never hides an occurrence |
| `Text.ContainsLower` | src/pages/Logger.tsx:83-86 | an occurrence survives lower-casing both sides |
| `Text.ContainsCaseless` | src/pages/Logger.tsx:83-86 | a run of the utterance that equals a name up to case makes the lower-cased name occur in the lower-cased utterance, so "NUTRITION" matches "Nutrition" |
| `Text.Trim` | src/pages/Logger.tsx:51-55 | the result is a slice of the input with only white space cut on each side; it starts and ends with non-space; it is empty iff the input is all white space |
| `Text.TrimIdempotent` | src/pages/Logger.tsx:51-55 | trimming a trimmed text changes nothing |
| `Text.NumberSpan` | src/pages/Logger.tsx:88 | the span found is non-empty and inside the text; `NumberSpanIsLeftmostLongest` proves it is the regular expression's match |
| `Text.NumberSpanIsLeftmostLongest` | src/pages/Logger.tsx:88 | there is no match iff the text holds no `\d+(\.\d+)?` numeral; otherwise the match found is a numeral, the leftmost one, and the longest at its start |
| `Text.FirstNumber` | src/pages/Logger.tsx:88-90 | a found value is non-empty and occurs in the text |
| `Text.FirstNumberIsNumeral` | src/pages/Logger.tsx:88-90 | a found value is the text of a `\d+(\.\d+)?` numeral of the utterance |
| `Text.Join` | src/pages/Logger.tsx:118 | `join` (also at line 133); `JoinContainsEach` proves every part occurs in the result |
| `Text.JoinContainsEach` | src/pages/Logger.tsx:118 | every part occurs in the joined text |
| `Text.NatToString` | src/pages/Logger.tsx:195 | the rendering of a count is all digits with no leading zero |
| `Text.NatToStringRoundTrip` | src/pages/Logger.tsx:195 | reading the rendered count back gives the count |
| `Catalog.InitialCategories` | src/contexts/AppContext.tsx:45-102 | the seeded catalog: Fitness (Steps, Weight) and Nutrition (Calories, Protein, Carbs), all enabled; `Matcher.InitialCategoriesDistinct` proves its category ids distinct |
| `Catalog.AddCategory` | src/contexts/AppContext.tsx:110-119 | one empty category with the given id, name and stamps is appended; the rest is unchanged |
| `Catalog.UpdateCategory` | src/contexts/AppContext.tsx:121-129 | categories with the id get the new name and stamp, keeping id, items and creation time; all others are unchanged |
| `Catalog.UpdateCategoryTwice` | src/contexts/AppContext.tsx:121-129 | renaming the same id twice equals renaming it once with the later name |
| `Catalog.DeleteCategory` | src/contexts/AppContext.tsx:132 | the result is no longer than the input; `DeleteCategoryMembers`, `DeleteCategoryKeepsOrder` and `DeleteCategoryAbsent` state which categories remain and in what order |
| `Catalog.DeleteCategoryMembers` | src/contexts/AppContext.tsx:131-133 | exactly the categories with a different id remain |
| `Catalog.DeleteCategoryKeepsOrder` | src/contexts/AppContext.tsx:131-133 | deletion distributes over concatenation, so survivors keep their order |
| `Catalog.DeleteCategoryAbsent` | src/contexts/AppContext.tsx:131-133 | deleting an id nobody has leaves the list as it is |
| `Catalog.DeleteUndoesAddCategory` | src/contexts/AppContext.tsx:110-133 | deleting a category just added under an unused id restores the catalog |
| `Catalog.AddTrackItem` | src/contexts/AppContext.tsx:135-152 | each category with the id gets one enabled item appended and a new stamp; the others are unchanged |
| `Catalog.ApplyPatch` | src/contexts/AppContext.tsx:162 | the spread of a patch over an item with a new stamp; `PatchItems` and `EmptyPatchOnlyStamps` state its effect |
| `Catalog.PatchItems` | src/contexts/AppContext.tsx:160-164 | items with the id become the patch applied over them with a new stamp; the others are unchanged |
| `Catalog.UpdateTrackItem` | src/contexts/AppContext.tsx:154-170 | only categories with the id change: their items are patched and their stamp renewed |
| `Catalog.EmptyPatchOnlyStamps` | src/contexts/AppContext.tsx:154-170 | a patch that sets no key changes nothing but timestamps |
| `Catalog.RemoveItems` | src/contexts/AppContext.tsx:178 | the result is no longer than the input; `RemoveItemsMembers`, `RemoveItemsKeepsOrder` and `RemoveItemsAbsent` state which items remain and in what order |
| `Catalog.RemoveItemsMembers` | src/contexts/AppContext.tsx:178 | exactly the items with a different id remain |
| `Catalog.RemoveItemsKeepsOrder` | src/contexts/AppContext.tsx:178 | item removal distributes over concatenation |
| `Catalog.RemoveItemsAbsent` | src/contexts/AppContext.tsx:178 | removing an id no item has leaves the items as they are |
| `Catalog.DeleteTrackItem` | src/contexts/AppContext.tsx:172-184 | only categories with the id change: the items with the item id go and the stamp is renewed |
| `Catalog.DeleteUndoesAddTrackItem` | src/contexts/AppContext.tsx:135-184 | deleting an item just added under an unused id restores the catalog, timestamps aside |
| `Catalog.ToggleItems` | src/contexts/AppContext.tsx:192-196 | items with the id flip `enabled` and get a new stamp; the others are unchanged |
| `Catalog.ToggleTrackItem` | src/contexts/AppContext.tsx:186-202 | only categories with the id change: their items are toggled and their stamp renewed |
| `Catalog.ToggleTwiceRestores` | src/contexts/AppContext.tsx:186-202 | toggling an item twice restores the catalog, timestamps aside |
| `Catalog.AddLogEntry` | src/contexts/AppContext.tsx:204-214 | exactly one record with the given fields is appended; earlier records are unchanged |
| `AppContext.AppStore.constructor` | src/contexts/AppContext.tsx:106-108 | the store starts with the initial catalog and no logs |
| `AppContext.AppStore.AddCategory` | src/contexts/AppContext.tsx:110-119 | `categories` becomes `Catalog.AddCategory` of its old value; `logs` is unchanged |
| `AppContext.AppStore.UpdateCategory` | src/contexts/AppContext.tsx:121-129 | `categories` becomes `Catalog.UpdateCategory` of its old value; `logs` is unchanged |
| `AppContext.AppStore.DeleteCategory` | src/contexts/AppContext.tsx:131-133 | `categories` becomes `Catalog.DeleteCategory` of its old value; `logs` is unchanged |
| `AppContext.AppStore.AddTrackItem` | src/contexts/AppContext.tsx:135-152 | `categories` becomes `Catalog.AddTrackItem` of its old value; `logs` is unchanged |
| `AppContext.AppStore.UpdateTrackItem` | src/contexts/AppContext.tsx:154-170 | `categories` becomes `Catalog.UpdateTrackItem` of its old value; `logs` is unchanged |
| `AppContext.AppStore.DeleteTrackItem` | src/contexts/AppContext.tsx:172-184 | `categories` becomes `Catalog.DeleteTrackItem` of its old value; `logs` is unchanged |
| `AppContext.AppStore.ToggleTrackItem` | src/contexts/AppContext.tsx:186-202 | `categories` becomes `Catalog.ToggleTrackItem` of its old value; `logs` is unchanged |
| `AppContext.AppStore.AddLogEntry` | src/contexts/AppContext.tsx:204-214 | `logs` gains one record at the end; `categories` is unchanged |
| `Matcher.Classify` | src/pages/Logger.tsx:75-153 | the utterance is a tracking request iff it holds "track", "log" or "record"; it is a help request iff it holds none of those but holds "help", "how" or "?"; otherwise it gets the default reply |
| `Matcher.TrackingWordsWin` | src/pages/Logger.tsx:75 | a tracking request stays one whatever text is added before or after it, help words included |
| `Matcher.HelpWordsBeatFallback` | src/pages/Logger.tsx:141 | a help request stays one under added text that brings no tracking word |
| `Matcher.ItemHits` | src/pages/Logger.tsx:85-111 | the candidates of one category's first n items, each naming that category and one of those items; `ItemHitsIff` and `ItemHitsInOrder` state which and in what order |
| `Matcher.CategoryHits` | src/pages/Logger.tsx:82-113 | the candidates of the first n categories, each in range; `CategoryHitsIff` and `CategoryHitsInOrder` state which and in what order |
| `Matcher.Matches` | src/pages/Logger.tsx:82-113 | all candidates of the utterance; `MatchesIff` and `MatchesInScanOrder` state which and in what order |
| `Matcher.ItemHitsInOrder` | src/pages/Logger.tsx:85-111 | a category's candidates come out in item order |
| `Matcher.CategoryHitsInOrder` | src/pages/Logger.tsx:82-113 | candidates come out in category-then-item order |
| `Matcher.MatchesInScanOrder` | src/pages/Logger.tsx:82-113 | each (category, item) position yields at most one candidate, in scan order |
| `Matcher.ItemHitsIff` | src/pages/Logger.tsx:85-90 | within a category, a candidate exists exactly for an item whose name occurs and when the utterance holds a number, valued at that number |
| `Matcher.CategoryHitsIff` | src/pages/Logger.tsx:82-90 | over the first n categories, the same with the category's name required to occur too |
| `Matcher.MatchesIff` | src/pages/Logger.tsx:82-90 | a candidate exists iff both the category's name and the item's name occur and the utterance holds a number; its value is the first number |
| `Matcher.FindIndex` | src/pages/Logger.tsx:93-95 | the result is the first index holding the pair, or -1 exactly when none does |
| `Matcher.Upsert` | src/pages/Logger.tsx:93-105 | the staging step of one candidate; `UpsertSpec` and `UpsertOverwrites` state its effect |
| `Matcher.UpsertSpec` | src/pages/Logger.tsx:93-105 | on a duplicate-free list, upsert keeps it duplicate-free and adds the entry's pair; a staged pair keeps its index and only its value changes; a new pair is appended |
| `Matcher.UpsertOverwrites` | src/pages/Logger.tsx:93-105 | staging a pair twice leaves the later value where the first upsert put it |
| `Matcher.StageAllSpec` | src/pages/Logger.tsx:82-113 | staging hits that share a value keeps the list duplicate-free; the staged pairs are the old ones plus the hits' ones; old entries keep index, pair and note, and take the value iff named; new entries come last with no note |
| `Matcher.StageAll` | src/pages/Logger.tsx:82-113 | the staging list after upserting every candidate in order; `StageAllSpec` and `StagingTurn` state the result |
| `Matcher.StagingTurn` | src/pages/Logger.tsx:71-115 | a tracking turn keeps the list duplicate-free, adds exactly the pairs the utterance names, and with no number changes nothing |
| `Matcher.RemoveAt` | src/pages/Logger.tsx:337 | the index filter of the trash button; `RemoveAtSplices` and `RemoveAtKeepsNoDup` state its effect |
| `Matcher.RemoveAtSplices` | src/pages/Logger.tsx:337 | removing at an index inside the list drops exactly that entry and keeps order; an index outside the list removes nothing |
| `Matcher.RemoveAtKeepsNoDup` | src/pages/Logger.tsx:337 | removal keeps the staging list duplicate-free |
| `Matcher.Clause` | src/pages/Logger.tsx:107 | the "I'll track ..." sentence of one candidate, the unit only when the item has one |
| `Matcher.NoMatchReply` | src/pages/Logger.tsx:117-127 | the reply when nothing matched; `NoMatchReplyListsCategories` proves it names every category |
| `Matcher.TrackReply` | src/pages/Logger.tsx:117-137 | the reply of a tracking request; `TrackReplyHasEveryClause` proves it holds every candidate's clause and ends with the closing question |
| `Matcher.Reply` | src/pages/Logger.tsx:75-163 | the one reply of a turn, chosen by `Classify` |
| `Matcher.NoMatchReplyListsCategories` | src/pages/Logger.tsx:117-127 | when nothing matched, the reply names every category |
| `Matcher.TrackReplyHasEveryClause` | src/pages/Logger.tsx:107-137 | when something matched, the reply holds one "I'll track ..." clause per candidate and ends with the closing question |
| `Matcher.FindById` | src/pages/Logger.tsx:203-204 | the result is the first element whose id matches, and it is none exactly when no element has the id; both lookups in `getCategoryAndItem` use it |
| `Matcher.GetCategoryAndItem` | src/pages/Logger.tsx:202-206 | the category with the id and, within it, the item with the id; `HitsResolve` proves every candidate's entry resolves |
| `Matcher.InitialCategoriesDistinct` | src/contexts/AppContext.tsx:45-102 | the seeded categories have distinct ids |
| `Matcher.HitsResolve` | src/pages/Logger.tsx:202-206 | with distinct category ids, every candidate's staged entry looks up to its own category and to an item with its id |
| `Logger.ScanCatalog` | src/pages/Logger.tsx:76-113 | the loop stages exactly the candidates of `Matches`, in scan order, and builds one clause each. It reports an update iff there was a candidate (predicate `Scanned`) |
| `Logger.ScanCategory` | src/pages/Logger.tsx:82-112 | a category adds its items' candidates when the utterance names it, and none otherwise |
| `Logger.ScanItems` | src/pages/Logger.tsx:85-111 | the item loop of a named category adds exactly that category's candidates to what is staged, said and reported |
| `Logger.ScanItem` | src/pages/Logger.tsx:86-109 | one item adds its candidate, if any: upserts its entry and adds its clause |
| `Logger.CommittedLogs` | src/pages/Logger.tsx:177-179 | the records of one commit; `CommittedLogsMirrorStaging` proves one per staged entry, with its pair, value and note, in order |
| `Logger.CommittedLogsMirrorStaging` | src/pages/Logger.tsx:177-179 | a commit logs each staged pair exactly once, with its value and note, in staging order |
| `Logger.ConfirmationText` | src/pages/Logger.tsx:195 | the confirmation after a commit; the count is rendered by `NatToString`, which `NatToStringRoundTrip` proves reads back as the count |
| `Logger.SnapshotCommit` | src/contexts/AppContext.tsx:213 | the log store after the `addLogEntry` calls of one click, each writing from the rendered snapshot |
| `Logger.SnapshotCommitKeepsLast` | src/contexts/AppContext.tsx:213 | when every `addLogEntry` of one click writes from the same snapshot, only the last staged entry's record is kept |
| `Logger.SnapshotCommitLosesEntries` | src/contexts/AppContext.tsx:204-214 | with two or more staged entries, the snapshot writes add one record where one per entry was meant |
| `Logger.StaleTurnRestages` | src/pages/Logger.tsx:65-115 | a turn staged onto the list captured at send time brings back an entry removed or committed since, unless the message names that pair again; staged onto the current list, that entry stays gone |
| `Logger.LoggerPage.constructor` | src/pages/Logger.tsx:28-38 | the page starts with an empty input, the greeting as its only message, nothing staged and not busy |
| `Logger.LoggerPage.SetInput` | src/pages/Logger.tsx:292 | the input box takes the new text; nothing else changes |
| `Logger.LoggerPage.HandleSendMessage` | src/pages/Logger.tsx:50-68 | a blank input changes nothing; otherwise the trimmed text is appended as a user message, the input is cleared and the page turns busy; the staging list the scheduled callback will read is the current one |
| `Logger.LoggerPage.ProcessUserMessage` | src/pages/Logger.tsx:71-164 | exactly one assistant reply is appended; a tracking request replaces the staging list with its candidates staged onto the list the call captured, any other request leaves the staging list alone; the staging list stays duplicate-free |
| `Logger.LoggerPage.FinishTurn` | src/pages/Logger.tsx:65-68 | as written: the turn is processed against the staging list captured at send time and the busy flag is cleared |
| `Logger.LoggerPage.FinishTurnOnCurrent` | src/pages/Logger.tsx:65-115 | the turn staged onto the current list: afterwards exactly the pairs staged before and those a tracking message names are staged, and the busy flag is cleared |
| `Logger.LoggerPage.HandleLogEntries` | src/pages/Logger.tsx:166-200 | with nothing staged nothing happens; otherwise every staged entry is appended to the logs in order, the staging list is emptied and a confirmation with the count is appended |
| `Logger.LoggerPage.RemoveTrackingItem` | src/pages/Logger.tsx:336-338 | the staging list loses the entry at the index, if there is one, and stays duplicate-free |

## Left out

- Rendering, `scrollIntoView`, the toasts and the `disabled` attributes are left out. `disabled`
  stops sending while busy and committing while nothing is staged. `HandleSendMessage` itself does
  not check `isLoading`, as in the code.
- `Text.Lower`: only ASCII capitals are lower-cased. JavaScript's `toLowerCase` also maps other
  Unicode capitals, and a few of them change the length of the text.
- Clocks are inputs. The code reads the clock several times in one call (an id, a creation time,
  an update time). The model takes one `now` per call, so those readings are equal here. A
  commit takes one id and one stamp per staged entry.
- Two messages created in the same millisecond get the same id in the code. Id uniqueness is not
  modelled.
- `LogEntry.value` is `number | string` in the code. The only caller passes the captured text, so
  the model keeps a string.
- `Catalog.DeleteCategory` and `Catalog.RemoveItems` promise only a length bound themselves.
  Their meaning is carried by the lemmas in the table.
- React state semantics are left out. The store methods and `HandleLogEntries` start every call
  from the current value of a field, as a functional update would. The two places where the
  code reads an older value are modelled as written (see Findings). `SnapshotCommit` writes each
  record from the rendered `logs`. `FinishTurn` stages onto the list captured by
  `HandleSendMessage`: while the page is busy, the trash buttons and "Log Entries" stay enabled,
  so the current list can differ from it. Any other stale read is not modelled.
- Line 98 of the page mutates the staged entry object, which the old state shares with the
  copied array. Entries are values here. The state is replaced with the new array in the same
  step, so nothing visible differs.
- `useAppContext` throws outside the provider; this is not modelled. The other pages
  (dashboard, categories, analytics, feedback) and the layout are not part of this model.
- Three behaviours are kept as the code has them:
  - an out-of-range index given to the staging list's delete removes nothing and raises nothing;
  - a repeat match replaces only the value of the staged entry, not its note;
  - the records of one commit get one clock reading each, not one shared timestamp.

## Findings

| source | as written | input that shows it | evidently intended | confidence | as-written member | corrected member |
|---|---|---|---|---|---|---|
| src/contexts/AppContext.tsx:213 | `addLogEntry` sets `logs` to the rendered `logs` plus its record. `handleLogEntries` (src/pages/Logger.tsx:177-179) calls it once per staged entry in one click, so each write replaces the one before | commit two staged entries: the store gains only the second record, while the chat says 2 items were logged | every staged entry is appended (a functional update of `logs`) | high; not executed | `Logger.SnapshotCommitLosesEntries` | `Logger.LoggerPage.HandleLogEntries` |
| src/pages/Logger.tsx:77 | the timer's callback (lines 65-66) belongs to the render that sent the message. It copies that render's `trackingItems` and writes the copy back at line 115, though the trash buttons (lines 332-341) and "Log Entries" (lines 355-361) stay enabled while the page is busy | stage an entry A; send "track 5 steps in fitness"; click "Log Entries" within the second: A is logged, then the callback stages A again beside Steps, so a second commit logs A twice | the turn stages onto the current list (a functional update of `trackingItems`), so a removal or commit made meanwhile stays in effect | high; not executed | `Logger.StaleTurnRestages` | `Logger.LoggerPage.FinishTurnOnCurrent` |
