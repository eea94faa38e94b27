# DoelenDeck: a verified model of the goal tracker's core

DoelenDeck is a small goal-tracking web application with a chat assistant. The user keeps a
list of goals, each with a title, one of five categories and a completion flag. They can
filter and search the list, and they can talk to a hosted language model that receives the
current goals as context, in one of three modes (standard, research with web search, or
extended reasoning).

This project models the parts of the application that are pure logic, as immutable Dafny
datatypes and functions:

- `Types` (types.ts): the categories and their Dutch string values, the filters, the chat
  modes, roles, messages and sources.
- `Goals` (App.tsx): the seed list and the three list mutations (add, toggle, delete). It also
  holds the two derived views: the visible goals (filter plus case-insensitive search) and the
  per-filter counts.
- `Assistant` (services/geminiService.ts): the system instruction built from the goals (two
  checklists) and the model and configuration chosen per mode. It also covers how the history
  becomes chat turns, how web citations are extracted from a response, and the fixed fallback
  texts. The remote service is a function parameter from the request to `Failed` or
  `Returned(response)`, so the reply is determined by what the service answers.
- `AddGoalForm` (components/AddGoal.tsx): the new-goal form state and its submit handler.
- `ChatSession` (components/ChatView.tsx): the chat state. The asynchronous send handler is
  split into the part before the service call (`BeginSend`) and the part after it
  (`FinishSend`).
- `Text` and `Seqs`: the JavaScript built-ins the code relies on. These are `trim`,
  `toLowerCase`, `includes`, `filter`, `map` and `join`. `Seqs.Split` is not called by the
  application: it is the inverse of `join` at a line break, used to read the checklist
  sections of the system instruction back line by line.

Two behaviours of the code that the model keeps as written:

- At start-up the code falls back to the seed list only when the storage slot is absent or
  empty (App.tsx:14). Malformed JSON in the slot makes `JSON.parse` throw.
  `Goals.InitialGoals` models this, with the decoder as a parameter.
- Within one mounted chat view, the `isLoading` guard (components/ChatView.tsx:27) rejects
  any send until the reply to the outstanding one has arrived.
  `ChatSession.OutstandingSendBlocksOthers` proves this for a single chat state. The guard
  does not survive leaving the chat view: see "Left out".

## Model

| member | source | states |
|---|---|---|
| Types.CategoryOfLabel | types.ts:1-7 | A category's string value identifies it: the decoder returns exactly the category with that value, or nothing |
| Types.LabelInjective | types.ts:1-7 | Two categories have the same string value only if they are the same category |
| Types.CategoriesAreFiveAndDistinct | types.ts:1-7 | The category list has exactly five entries, includes every category and has pairwise distinct string values |
| Types.RoleKeys | types.ts:23 | A message role is sent as "user" or "model", and different roles are sent differently |
| Types.ChatModeKeysDistinct | types.ts:28 | The three modes STANDARD, RESEARCH and THINKING have distinct strings |
| Types.FilterOfKey | types.ts:30 | A filter string identifies at most one filter: the four pseudo-filters plus the five categories |
| Types.CategoryLabelsAvoidPseudoKeys | types.ts:30 | No category's string value equals ALL, ACTIVE, COMPLETED or CHAT |
| Types.FilterKeyClassifies | types.ts:30 | A filter is a category filter exactly when its string is not a pseudo-filter key, and decoding its string gives it back |
| Types.FilterKeysDistinct | types.ts:30 | Two filters have the same string exactly when they are equal, so dispatching on the string is unambiguous |
| Goals.InitialGoals | App.tsx:12-19 | With no stored value, or an empty one, the list is the three-goal seed with unique ids; otherwise it is the decoded value |
| Goals.AddGoal | App.tsx:38-47 | The list grows by one: the new goal comes first, has the given title and category, is not completed, and is followed by the old list unchanged |
| Goals.AddGoalKeepsIdsUnique | App.tsx:38-47 | Adding a goal with an id not already present keeps all ids unique |
| Goals.ToggleGoal | App.tsx:49-51 | Length and order are kept and only the completion flag can change. The flag changes exactly for the goals with the given id |
| Goals.ToggleInvolution | App.tsx:49-51 | Toggling the same id twice restores the list |
| Goals.ToggleAbsentIsIdentity | App.tsx:50 | Toggling an id that is not in the list leaves it unchanged |
| Goals.ToggleKeepsIds | App.tsx:50 | Toggling keeps the set of ids and their uniqueness |
| Goals.DeleteGoal | App.tsx:53-55 | The result holds exactly the goals whose id differs from the given one, as an order-preserving sub-list of the input |
| Goals.DeleteAbsentIsIdentity | App.tsx:54 | Deleting an id that is not in the list leaves it unchanged |
| Goals.DeleteCount | App.tsx:54 | Deleting removes exactly as many goals as carry the id |
| Goals.DeleteUniqueRemovesOne | App.tsx:53-55 | With unique ids, deleting a present id shortens the list by exactly one and leaves no goal with that id |
| Goals.DeleteEach | App.tsx:53-55 | Repeated deletes keep exactly the goals whose id is none of the deleted ids |
| Goals.DeleteEveryIdEmpties | App.tsx:53-55 | Deleting ids that cover every goal leaves the list empty |
| Goals.MatchesSearch | App.tsx:67 | A goal matches the search exactly when the lower-cased query occurs somewhere in the lower-cased title, so the empty query matches every goal |
| Goals.MatchesFilterKey | App.tsx:68-72 | ALL passes every goal, ACTIVE the open ones and COMPLETED the completed ones. Any other key passes exactly the goals whose category value it is, so CHAT passes none |
| Goals.KeyDispatchAgrees | App.tsx:68-72 | The code's test on the filter string (ALL, then ACTIVE, then COMPLETED, else category comparison) gives the intended result for every filter, CHAT included |
| Goals.FilteredGoals | App.tsx:64-75 | With the CHAT filter nothing is shown. Otherwise exactly the goals that match the search and the filter are shown, as an order-preserving sub-list |
| Goals.FilteredGoalsIsWantedFilter | App.tsx:64-75 | The visible list equals, element for element, the in-order selection of goals matching the search and the intended meaning of the filter |
| Goals.FilteredAllWithEmptyQuery | App.tsx:67-69 | The ALL filter with an empty search shows the whole list in order |
| Goals.SearchIgnoresQueryCase | App.tsx:67 | Lower-casing the query first does not change which goals match |
| Goals.BaseCounts | App.tsx:78-82 | The starting map has the keys ALL, ACTIVE and COMPLETED, holding the list length and the numbers of open and completed goals |
| Goals.WithCategoryCounts | App.tsx:83-85 | The category loop adds one entry per category under its string value, holding that category's number of goals. Entries under other keys are left alone |
| Goals.PseudoCountsSurvive | App.tsx:78-85 | The category entries do not overwrite the ALL, ACTIVE and COMPLETED entries, and ACTIVE plus COMPLETED equals ALL |
| Goals.CategoryCountsPresent | App.tsx:83-85 | Every category has an entry in the counts |
| Goals.Counts | App.tsx:77-87 | The keys are ALL, ACTIVE, COMPLETED and the five category values. ALL is the list length, ACTIVE and COMPLETED add up to ALL, and each category key holds the size of that category |
| Goals.CategorySizesSum | App.tsx:83-85 | The sizes of the five categories add up to the list length |
| Goals.CategoryCountsSumToAll | App.tsx:77-87 | The five category counts add up to the ALL count |
| Goals.SeedActiveView | App.tsx:14-18 | On the seed list, the ACTIVE filter with an empty search shows the two open goals, in order |
| Goals.SeedStatusCounts | App.tsx:14-18 | On the seed list the counts are ALL 3, ACTIVE 2 and COMPLETED 1 |
| Goals.SeedCategoryCounts | App.tsx:14-18 | On the seed list, health, finance and learning have one goal each; personal and work have none |
| Text.BlankIffAllWhitespace | components/AddGoal.tsx:16 | A string trims to empty exactly when all its characters are JavaScript whitespace or line terminators |
| Text.ToLower | App.tsx:67 | Lower-casing keeps the length and maps each ASCII capital to its small letter, leaving every other character as it is |
| Text.Trim | components/AddGoal.tsx:16 | Trimming yields a contiguous part of the string that neither starts nor ends with whitespace, and everything cut off before and after it is whitespace |
| Text.Includes | App.tsx:67 | A needle that is a prefix of the text is found, and a needle longer than the text is never found |
| Text.IncludesIffOccurs | App.tsx:67 | The substring test holds exactly when the needle occurs in the text at some position |
| Seqs.Filter | App.tsx:54 | Filtering never lengthens a list |
| Seqs.FilterMembers | App.tsx:66-74 | An element is in the filtered list exactly when it is in the input and passes the test |
| Seqs.FilterIsSubsequence | App.tsx:66-74 | Filtering keeps the surviving goals in their original relative order |
| Seqs.FilterPartition | App.tsx:80-81 | Every goal is counted by exactly one of two complementary tests, such as completed and not completed |
| Seqs.Join | services/geminiService.ts:7-8 | Joining no lines gives the empty text, and the joined text is at least as long as each line; Seqs.SplitJoin is its inverse, recovering the lines from the joined text when none contains the separator |
| Seqs.Map | services/geminiService.ts:7-8 | Mapping keeps the length and puts the function's value for each element at that element's position |
| Seqs.SplitJoin | services/geminiService.ts:7-8 | Splitting the joined checklist at line breaks recovers the individual lines, as long as no line contains a line break |
| Seqs.JoinSplit | services/geminiService.ts:7-8 | Joining the pieces of a split restores the original text |
| Assistant.Instruction | services/geminiService.ts:10-17 | The instruction starts with the fixed introduction. The open-goals section follows right after it, then one blank indented line, then the completed section, and the text ends with the closing request |
| Assistant.Context | services/geminiService.ts:6-18 | The system instruction built from the goals opens with the fixed introduction. The open-goals section follows right after it, then the blank indented line, then the completed-goals section, and the closing request to answer briefly ends it. Its length is the sum of these five parts, so nothing else is in it |
| Assistant.ContextListsGoals | services/geminiService.ts:7-15 | With single-line titles, the instruction lists the goals. The open section read from it splits into its header and one "- [ ] title (category)" line per open goal, and the completed section into its header and one "- [x] title (category)" line per completed goal, in list order |
| Assistant.OpenSection | services/geminiService.ts:7-13 | With no open goal the section is "Geen openstaande doelen.". Otherwise it is the line "Nog te doen:" followed by the open goals' checklist lines, joined by line breaks in list order |
| Assistant.DoneSection | services/geminiService.ts:8-15 | With no completed goal the section is empty. Otherwise it is the line "Reeds voltooid:" followed by the completed goals' checklist lines, joined by line breaks in list order |
| Assistant.ContextOpenPart | services/geminiService.ts:7-13 | Right after the introduction comes "Geen openstaande doelen." when no goal is open, and the line "Nog te doen:" otherwise |
| Assistant.ContextDonePart | services/geminiService.ts:8-15 | The completed section is left out exactly when no goal is completed. Otherwise the line "Reeds voltooid:" follows the blank line after the open section |
| Assistant.EmptySections | services/geminiService.ts:7-15 | Whatever the titles, the open section is the fallback text exactly when no goal is open, and the completed section is empty exactly when none is completed. A non-empty section starts with its header line |
| Assistant.SectionShape | services/geminiService.ts:13-15 | A section with no lines is its fallback text. Otherwise its lines are the header followed by the checklist lines in order, and it differs from the fallback |
| Assistant.ChecklistLinesWellFormed | services/geminiService.ts:7-8 | Every checklist line is non-empty and a single line, provided titles hold no line break |
| Assistant.OpenSectionLists | services/geminiService.ts:7-13 | When some goal is open, the open section's lines are the header plus one "- [ ] title (category)" line per open goal, in list order |
| Assistant.DoneSectionLists | services/geminiService.ts:8-15 | When some goal is completed, the completed section's lines are the header plus one "- [x] title (category)" line per completed goal, in list order |
| Assistant.SelectModel | services/geminiService.ts:47-63 | Every mode gets the goal context as system instruction. Only RESEARCH uses the flash model, and only RESEARCH has the web-search tool. Only THINKING has a reasoning budget, set to 32768 |
| Assistant.ToTurns | services/geminiService.ts:69-72 | The history becomes one turn per message, in order, with the same role and a single part holding the message text |
| Assistant.ToTurnsKeepsRolesAndTexts | services/geminiService.ts:69-72 | Reading roles and texts back from the turns gives the roles and texts of the history |
| Assistant.ToTurnsAppend | services/geminiService.ts:69-72 | The turns of a longer history extend the turns of its prefix |
| Assistant.BuildRequest | services/geminiService.ts:46-75 | The request carries the mode's model and configuration, the goal context, exactly the turns of the prior history, and the new message text |
| Assistant.GroundingChunks | services/geminiService.ts:80-81 | Chunks are found exactly when there is a first candidate with grounding metadata that holds chunks, and then they are that candidate's chunks |
| Assistant.SourcesOfChunks | services/geminiService.ts:82-89 | One source per chunk that has a web citation, in chunk order, with that citation's title and URI. Chunks without one are skipped |
| Assistant.ExtractSources | services/geminiService.ts:77-90 | Without grounding chunks there are no sources. With them there is one source per chunk that has a web citation, in chunk order, with that citation's title and URI |
| Assistant.SendChatMessage | services/geminiService.ts:38-97 | No key: the fixed configuration text and no sources. Failed call: the fixed apology and no sources. Otherwise: the response text, or "" when it is absent, plus the extracted sources |
| Assistant.MissingKeyIgnoresInputs | services/geminiService.ts:44 | Without a key the reply is the same whatever the history, message, goals, mode or remote service |
| Assistant.ReplyDependsOnRemoteAnswer | services/geminiService.ts:65-92 | With a key, two remote services that answer the built request the same way give the same reply |
| Assistant.GetFastMotivation | services/geminiService.ts:21-35 | The motivation line is never empty. There is one fixed text for a missing key, another for a failure, and a default for an absent or empty response; otherwise it is the returned text |
| AddGoalForm.HandleSubmit | components/AddGoal.tsx:14-21 | `onAdd` is called exactly when the submit button is enabled. It receives the untrimmed title and the current category, after which the title is cleared and the form collapses with the same category. A rejected submit changes nothing |
| AddGoalForm.WhitespaceTitleRejected | components/AddGoal.tsx:16 | A title made only of whitespace is rejected like an empty one |
| AddGoalForm.InitialFormCannotSubmit | components/AddGoal.tsx:10-12 | The initial form (empty title, personal, collapsed) has its submit disabled, and submitting it does nothing |
| AddGoalForm.SubmitOnce | components/AddGoal.tsx:16-19 | Submitting again right after a successful submit does nothing, so one typed title adds one goal |
| AddGoalForm.SubmitAddsGoal | components/AddGoal.tsx:17 | A successful submit passed to the goal list prepends exactly one open goal, with the typed title and the chosen category |
| ChatSession.BeginSend | components/ChatView.tsx:25-35 | A blank draft or an outstanding send changes nothing and calls nothing. Otherwise the user message is appended, the draft is cleared and loading is set. The service then receives the history before the new message, the draft text and the mode |
| ChatSession.FinishSend | components/ChatView.tsx:37-39 | The reply is appended as an assistant message with its sources, and loading is cleared. Earlier messages, the draft and the mode are kept |
| ChatSession.Send | components/ChatView.tsx:25-40 | A refused send changes nothing. An accepted one appends the user's message and then the reply, clears the draft and the loading flag, and keeps the mode |
| ChatSession.SendAppendsTwo | components/ChatView.tsx:29-39 | A completed send grows the transcript by exactly two messages, the user's and then the assistant's |
| ChatSession.BlankOrBusySendIsNoOp | components/ChatView.tsx:27 | A send with a blank draft, or while loading, leaves the state unchanged |
| ChatSession.OutstandingSendBlocksOthers | components/ChatView.tsx:27-32 | Within one chat state, while a send is outstanding no other send starts, whatever is typed meanwhile |
| ChatSession.ServiceSeesPriorHistory | components/ChatView.tsx:35 | The request reaching the remote service has the earlier transcript as turns, without the new message. The new message travels separately, with the goal context as instruction |
| ChatSession.InitialConsistent | components/ChatView.tsx:11-14 | The initial chat (no messages, empty draft, not loading, standard mode) is consistent |
| ChatSession.SendKeepsConsistent | components/ChatView.tsx:25-40 | Both halves of a send keep roles alternating user, assistant, and so on. An unanswered user message ends the transcript exactly while loading |

## Left out

- Rendering, styling, dark-mode detection, scrolling, and the sidebar and goal-item components are presentation only.
- Writing the list to local storage, and the JSON encoding, are left out. `Goals.InitialGoals` takes the decoder as a parameter that is assumed not to throw.
- Fresh ids (`crypto.randomUUID`) and timestamps (`Date.now`) are parameters. Uniqueness of a new id is a precondition of `Goals.AddGoalKeepsIdsUnique`, not something the model generates.
- `Goals.SeedGoals` gives all three seed goals the same timestamp, where the code calls `Date.now()` three times. No property depends on timestamps.
- Stored goals always have one of the five categories. A category string read back from storage that is not one of them is not modelled, since parsing is out of scope.
- The generative-AI SDK, the network and `console.error` are left out. The chat call is a function from request to outcome. Any exception inside the `try` block is the `Failed` outcome. A failure when the client object is constructed, which happens outside `try`, is not modelled.
- The SDK's `text` accessor is opaque: a response simply carries an optional text.
- Asynchronous interleaving is left out. A send is two sequential transitions, and a mode change or typing in between is a plain field update.
- ChatSession.OutstandingSendBlocksOthers: the chat view is only mounted while the CHAT filter is selected (App.tsx:123-124). Leaving the chat and coming back remounts it with an empty transcript and the loading flag cleared (components/ChatView.tsx:11-13), even if a reply is still pending. A new send can then start, and the pending reply goes to the discarded view and is lost. The model has one chat state and does not model this reset.
- The 4-second timer that hides the motivation line is left out.
- The form's expand, cancel, title-typing and category-select handlers, and the chat mode buttons, are left out. Each one only sets a single field.
- Text.ToLower: only ASCII capitals are lower-cased. JavaScript's `toLowerCase` also maps non-ASCII letters, so searches on accented titles may match in the program where the model says they do not.
- Assistant.OpenSectionLists, Assistant.DoneSectionLists, Assistant.ContextListsGoals: the line-by-line reading holds only for titles without a line break. A title containing one would span several checklist lines.
