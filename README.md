# DILA chat assistant: the conversation store, in Dafny

This project models the core of the DILA chat assistant, a React single-page application. A person
asks administrative questions and a local stand-in for an answering service replies. The model
covers:

- the conversation list, the selected conversation, the reformulation preference and the busy
  flag, which are the state held by the `useChatStorage` and `useChatState` hooks;
- every handler of `useChatActions` that changes that state;
- the two local-storage effects, and the load effect run on mount;
- the keyword rules of `getBotResponse`;
- the input box's guard against blank questions, and the rules that enable its buttons.

Modules, in dependency order:

- `ListOps`: `filter`, `findIndex` and `reverse` on sequences.
- `ChatTypes`: messages, conversations, and the clock reading that stands for `new Date()`.
- `BotResponseUtils`: lower-casing, `includes`, and the ordered reply rules.
- `ChatActions`: the pure list transformations behind the handlers. These are building a new
  conversation, the per-conversation edit a send makes, the title rule, the search for the
  question to reformulate, and the choice of the next selection after a delete.
- `ChatStorage`: what the two storage keys hold, what the mount effect restores, and what the
  save effects write.
- `ChatState`: the class `ChatStore`. Its fields are the hook state plus the storage map and the
  toasts shown; its methods are the handlers.
- `ChatInput`: `trim` as ECMAScript defines it, the class `InputBox` holding the typed text, and
  the button rules.

React semantics, as the model renders them:

- A handler acts on the values of the render it was created in, so it reads `old(...)` values.
- Functional state updates made in one handler compose.
- The save effects run once after the render that follows the handler, on the final state. So
  each handler that changes the list ends with
  `storage == SaveConversations(old(storage), conversations)`.
- Timers are separate steps. `SendMessage` returns a `PendingReply` that captures the selected
  id, the question and the preference. `DeliverReply` appends the reply later, and
  `FinishWaiting` lowers the busy flag.

Behaviour the code has and the model keeps:

- A question sent while nothing is selected is lost. The handler creates a conversation, but
  the edit and the later reply are aimed at the empty id that was selected when the send began
  (`QuestionWithoutSelectionIsLost`, and `SendMessageBase`'s last postcondition). Nothing
  creates a conversation on mount, so this is the first send of a fresh visit.
- A delete looks up the next selection in the list as it was before the delete. It needs at
  least two conversations there. So when the selected id was not in a one-element list, a new
  conversation is created although one remains.
- A reply does not refresh a conversation's date; only a question does.
- Conversations and settings are stored under two separate keys.

In each of these the model follows the code.

## Model

| member | source | states |
|---|---|---|
| ListOps.Filter | src/hooks/useChatActions.ts:150 | the filtered list is never longer than the list |
| ListOps.FilterMembers | src/hooks/useChatStorage.ts:52-54 | an element is kept exactly when it is in the list and passes the predicate |
| ListOps.FilterAppend | src/hooks/useChatStorage.ts:52-54 | filtering keeps order: the filter of `a + b` is the filter of `a` followed by the filter of `b` |
| ListOps.FilterIdentity | src/hooks/useChatStorage.ts:32-34 | a list is its own filter if and only if every element passes |
| ListOps.FilterIdempotent | src/hooks/useChatStorage.ts:52-54 | filtering a filtered list changes nothing |
| ListOps.FilterFromFirst | src/hooks/useChatActions.ts:150 | the filter starts with the first element that passes, followed by the filter of what comes after it |
| ListOps.FindIndex | src/hooks/useChatActions.ts:132 | -1 exactly when no element passes; otherwise the index of a passing element with none passing before it |
| ListOps.Reverse | src/hooks/useChatActions.ts:132 | same length, and element `i` is element `n-1-i` of the input |
| ChatTypes.HasIdPrepend | src/hooks/useChatActions.ts:44 | after putting a conversation in front, an id is present exactly when it is the new one's or was present before |
| ChatTypes.PrependKeepsThreads | src/hooks/useChatActions.ts:44 | putting a conversation with a message in front keeps every conversation non-empty |
| BotResponseUtils.LowerChar | src/utils/botResponseUtils.ts:6 | an ASCII capital becomes the small letter 32 code points above it; a Latin-1 capital from U+00C0 to U+00DE other than the multiplication sign also moves 32 code points up; every other character is unchanged |
| BotResponseUtils.Lower | src/utils/botResponseUtils.ts:6 | same length, and each character is lower-cased on its own |
| BotResponseUtils.LowerIdempotent | src/utils/botResponseUtils.ts:6 | lower-casing twice is lower-casing once |
| BotResponseUtils.LowerAppend | src/utils/botResponseUtils.ts:6 | lower-casing commutes with concatenation |
| BotResponseUtils.Includes | src/utils/botResponseUtils.ts:6-22 | `includes` holds only when the searched text is no longer than the text |
| BotResponseUtils.IncludesAt | src/utils/botResponseUtils.ts:6 | an occurrence at some position makes `includes` true |
| BotResponseUtils.IncludesWitness | src/utils/botResponseUtils.ts:6 | when `includes` is true, it returns a position where the text occurs |
| BotResponseUtils.IncludesInfix | src/utils/botResponseUtils.ts:6 | text added around a string does not hide an occurrence in it |
| BotResponseUtils.CaseInsensitive | src/utils/botResponseUtils.ts:5-27 | two questions that lower-case alike get the same reply, and so does the lower-cased question |
| BotResponseUtils.GetBotResponse | src/utils/botResponseUtils.ts:5-27 | the reply is the text of the rule chosen for the lower-cased question |
| BotResponseUtils.GreetingRule | src/utils/botResponseUtils.ts:6-8 | the greeting is the reply if and only if "bonjour" or "salut" occurs |
| BotResponseUtils.ThanksRule | src/utils/botResponseUtils.ts:10-12 | the courtesy reply comes if and only if "merci" occurs and no greeting does |
| BotResponseUtils.IdentityBeforeTaxes | src/utils/botResponseUtils.ts:14-20 | the identity-document reply comes if and only if its keywords occur and no earlier ones do; the tax reply comes if and only if its keywords occur and none of the three earlier groups do |
| BotResponseUtils.LastRules | src/utils/botResponseUtils.ts:22-26 | the rephrase reply comes if and only if "reformuler" occurs and no earlier keyword does; the default reply comes if and only if no keyword at all occurs |
| BotResponseUtils.GreetingDominates | src/utils/botResponseUtils.ts:6-8 | a question containing a greeting gets the greeting, whatever surrounds it |
| ChatActions.RephraseKeywordIsLower | src/utils/botResponseUtils.ts:22 | the keyword "reformuler" is its own lower case |
| ChatActions.NewConversation | src/hooks/useChatActions.ts:24-42 | the new conversation carries the new id, the title "Nouvelle conversation" and the clock's date label, and exactly one message: the welcome text, with id `welcome-` followed by the new id and the clock's time, not the user's |
| ChatActions.TruncateTitle | src/hooks/useChatActions.ts:76 | at most 33 characters; a title of at most 30 is kept; a longer one keeps its first 30 characters followed by "..." |
| ChatActions.TruncateTitleIdempotent | src/hooks/useChatActions.ts:76 | applying the title rule to a title it produced changes nothing |
| ChatActions.QuestionEdit | src/hooks/useChatActions.ts:57-62 | the edit carries the question as a user message with the given id and the send's time, together with the send's date label |
| ChatActions.ApplyEdit | src/hooks/useChatActions.ts:66-88 | the id is kept and the message is appended after the earlier ones; a reply leaves title and date alone |
| ChatActions.QuestionTitle | src/hooks/useChatActions.ts:70-84 | a question refreshes the date; it becomes the title, cut to 33 characters, only when the conversation had no question; afterwards the conversation has a question |
| ChatActions.EditMatching | src/hooks/useChatActions.ts:65-89 | same length and order; each conversation with the target id is edited, and every other one is unchanged |
| ChatActions.EditIsAppendOnly | src/hooks/useChatActions.ts:65-89 | every conversation keeps its id and its earlier messages as a prefix, and gains at most one message |
| ChatActions.EditKeepsThreads | src/hooks/useChatActions.ts:65-89 | an edit never leaves a conversation without messages |
| ChatActions.EditOfMissingIdIsNoOp | src/hooks/useChatActions.ts:65-89 | an edit aimed at an id no conversation has changes nothing |
| ChatActions.QuestionWithoutSelectionIsLost | src/hooks/useChatActions.ts:52-67 | with nothing selected, the list after a send is the new conversation in front of the old list, with the question nowhere |
| ChatActions.BotReplyText | src/hooks/useChatActions.ts:97-99 | the reply always ends with the stub reply; with the preference off it is exactly that; with it on, it is "Reformulation: ", the question, a blank line (`"\n\n"`) and the stub reply, and nothing else |
| ChatActions.ReversedUserIndexAbsent | src/hooks/useChatActions.ts:132-134 | the search of the reversed messages gives -1 if and only if there is no user message |
| ChatActions.ReversedUserIndexFound | src/hooks/useChatActions.ts:132-141 | a found index points, in the reversed list, at a user message with no user message after it in the original list |
| ChatActions.LastUserText | src/hooks/useChatActions.ts:132-142 | nothing if and only if there is no user message; otherwise the text of a user message with no user message after it |
| ChatActions.ReformulationRequest | src/hooks/useChatActions.ts:143 | the request is the fixed opening, the question as written, then a closing quote |
| ChatActions.RequestMentionsRephrase | src/hooks/useChatActions.ts:143 | the lower-cased request contains "reformuler", whatever the question |
| ChatActions.ReformulationRequestReply | src/hooks/useChatActions.ts:143-145 | a reformulation never gets the default reply, and a greeting in the quoted question still wins |
| ChatActions.RemoveConversation | src/hooks/useChatActions.ts:150 | the list never grows, and removing an id nobody has leaves the list as it was |
| ChatActions.RemoveConversationMembers | src/hooks/useChatActions.ts:150 | exactly the conversations with other ids remain; no remaining conversation has the id; ids that remain were there before; no conversation is emptied |
| ChatActions.NextAfterDelete | src/hooks/useChatActions.ts:155-165 | a re-selected id belongs to a conversation of the list and is not the deleted one; nothing is re-selected from a list of fewer than two |
| ChatActions.NextAfterDeleteSurvives | src/hooks/useChatActions.ts:155-165 | the re-selected id is not the deleted one and is the first conversation left after the delete; there is none exactly when the list had fewer than two conversations or all had the deleted id |
| ChatActions.DeleteSelectsSurvivor | src/hooks/useChatActions.ts:148-166 | after a delete, the selection exists in the list and the deleted id does not, either way; no conversation is empty |
| ChatStorage.UserBearing | src/hooks/useChatStorage.ts:52-54 | the stored list is never longer than the list |
| ChatStorage.UserBearingMembers | src/hooks/useChatStorage.ts:52-54 | a conversation is stored exactly when it is in the list and has a user message |
| ChatStorage.UserBearingAppend | src/hooks/useChatStorage.ts:52-54 | the stored part of a list keeps the list's order |
| ChatStorage.UserBearingIdempotent | src/hooks/useChatStorage.ts:32-34 | the filter keeps a list intact if and only if every conversation has a question; filtering twice is filtering once |
| ChatStorage.LoadConversations | src/hooks/useChatStorage.ts:28-36 | a list is restored if and only if the key holds one, and what is restored is that list's user-bearing part, in its order |
| ChatStorage.RestoredAreKept | src/hooks/useChatStorage.ts:28-36 | the restored conversations are exactly the stored ones with a question, so the save filter keeps them all |
| ChatStorage.RestoredCurrentId | src/hooks/useChatStorage.ts:39-41 | a non-empty restored list selects its first conversation; an empty one leaves the selection alone |
| ChatStorage.LoadAlwaysConfirm | src/hooks/useChatStorage.ts:16-25 | a stored boolean preference wins; anything else leaves the current preference |
| ChatStorage.SaveConversations | src/hooks/useChatStorage.ts:49-58 | an empty list writes nothing; otherwise the conversations key holds the user-bearing conversations |
| ChatStorage.SaveConversationsFrame | src/hooks/useChatStorage.ts:49-58 | saving writes the conversations key only, and writes nothing for an empty list |
| ChatStorage.SaveOverwrites | src/hooks/useChatStorage.ts:49-58 | a later save of a non-empty list overwrites an earlier one |
| ChatStorage.SaveSettings | src/hooks/useChatStorage.ts:61-65 | the settings key holds the preference |
| ChatStorage.SaveSettingsFrame | src/hooks/useChatStorage.ts:61-65 | saving the preference writes the settings key only |
| ChatStorage.SaveThenLoad | src/hooks/useChatStorage.ts:28-58 | a saved non-empty list loads back as its conversations with a question, in order; a list made of such conversations comes back unchanged |
| ChatStorage.SettingsRoundTrip | src/hooks/useChatStorage.ts:16-65 | a saved preference loads back as itself, whatever the default |
| ChatState.CurrentMessages | src/hooks/useChatState.ts:39 | nothing is shown when no conversation has the selected id |
| ChatState.CurrentMessagesOfFirstMatch | src/hooks/useChatState.ts:39 | the messages shown are those of the first conversation with the selected id |
| ChatState.ChatStore.Mount | src/hooks/useChatStorage.ts:5-65 | the user-bearing stored conversations and a stored boolean preference are restored, the first conversation selected; the settings key is written back, and the conversations key only when the restored list is not empty |
| ChatState.ChatStore.CreateNewConversation | src/hooks/useChatActions.ts:24-48 | the new conversation is put first and selected, its welcome message is shown, its id is returned, and the list is saved |
| ChatState.ChatStore.StartNewConversation | src/hooks/useChatState.ts:55-57 | the same as the base operation |
| ChatState.ChatStore.SendMessageBase | src/hooks/useChatActions.ts:50-90 | the question is added to the conversations with the id selected when the send began; with nothing selected and no conversation carrying the empty id, only a new conversation is added; the reply is scheduled for that id with the preference of the time |
| ChatState.ChatStore.SendMessage | src/hooks/useChatState.ts:42-49 | the busy flag is raised, then the base send happens |
| ChatState.ChatStore.DeliverReply | src/hooks/useChatActions.ts:95-119 | the reply, built from the captured question and preference, is appended to the conversations with the captured id, and the list is saved |
| ChatState.ChatStore.FinishWaiting | src/hooks/useChatState.ts:48 | the busy flag is lowered and nothing else changes |
| ChatState.ChatStore.ReformulateBase | src/hooks/useChatActions.ts:122-146 | with nothing selected, no message or no question: only a toast; otherwise the last question is sent inside a reformulation request |
| ChatState.ChatStore.Reformulate | src/hooks/useChatState.ts:51-53 | the base handler applied to the messages on screen; the busy flag is untouched |
| ChatState.ChatStore.DeleteCurrentConversation | src/hooks/useChatActions.ts:148-172 | the selected conversation is removed; the survivor found in the old list is selected, or a new conversation is created; the selection then exists and the deleted id does not; a toast is shown |
| ChatState.ChatStore.ClearHistory | src/hooks/useChatActions.ts:174-184 | only a new conversation remains, selected; the stored list becomes empty; a toast is shown |
| ChatState.ChatStore.SelectConversation | src/hooks/useChatActions.ts:186-188 | the id is selected as given and nothing else changes |
| ChatState.ChatStore.ToggleConfirmation | src/hooks/useChatActions.ts:190-198 | the preference is flipped, the toast names the new state, and the settings key receives it |
| ChatInput.TrimStart | src/components/ChatInput.tsx:18 | a suffix of the input; empty or starting with a non-space character; everything removed was white space |
| ChatInput.TrimEnd | src/components/ChatInput.tsx:18 | a prefix of the input; empty or ending with a non-space character; everything removed was white space |
| ChatInput.Trim | src/components/ChatInput.tsx:18 | no longer than the input, and neither starts nor ends with white space |
| ChatInput.TrimEmptyIff | src/components/ChatInput.tsx:18 | the input trims to nothing if and only if it is made only of white space |
| ChatInput.TrimIdempotent | src/components/ChatInput.tsx:18 | trimming twice is trimming once |
| ChatInput.ButtonsFor | src/components/ChatInput.tsx:36-45 | send is enabled if and only if the input is not blank and the box is enabled; reformulate is enabled if and only if the box is |
| ChatInput.SendEnabledImpliesReformulate | src/components/ChatInput.tsx:36-45 | whenever send is enabled so is reformulate, and the input trims to something |
| ChatInput.InputBox.constructor | src/components/ChatInput.tsx:14 | the box starts empty |
| ChatInput.InputBox.Change | src/components/ChatInput.tsx:28 | the typed value replaces the text |
| ChatInput.InputBox.Submit | src/components/ChatInput.tsx:16-22 | a blank input is neither sent nor cleared; any other input is sent once, untrimmed, and the box is emptied |

## Left out

- Rendering, the sidebar, the header and the message list are not modelled. A toast is kept
  only as the kind of notice shown (`Notice`), without its wording.
- The delays of the two timers (1000 or 2000 ms for the reply, 1500 or 2500 ms for the busy
  flag) are not modelled. The timers are separate steps that may run in any order.
- Delete's zero-delay timer is not modelled: the re-selection happens in the same step. The
  render in which the deleted id is still selected is not modelled.
- `Date.now()` and the locale-formatted date and time are parameters: `newId`, `msgId`,
  `botMsgId` and `Clock`. The new conversation id is required to be fresh and non-empty.
  `Date.now()` does not guarantee freshness when two calls fall in the same millisecond.
- JSON is not modelled. A key holds a parsed value (`Stored`). A stored array whose elements
  make the filter throw is not distinguished from one that does not. Errors raised by local
  storage and the `console.error` logging are not modelled.
- The save effects are merged into the handlers, on the final state of each batched render.
  An intermediate write that a later write overwrites is not modelled. Examples are the
  preference `true` written on the first render after mount, and `localStorage.removeItem` in
  clear history before the empty list is written.
- BotResponseUtils.LowerChar: only ASCII and Latin-1 capitals are lower-cased. Other Unicode
  case mappings of `toLowerCase` are not modelled.
- ChatActions.TruncateTitle: lengths are counted in characters, not in UTF-16 code units. The
  two differ for characters outside the Basic Multilingual Plane.
- ChatActions.ReformulationRequestReply: it states only that the default reply never comes and
  that a greeting wins. Which of the other replies a request gets is not characterised.
- BotResponseUtils.Wording: the six reply texts are given, but the model does not prove that
  they are pairwise distinct. Comparing these long literals character by character is beyond
  the verifier's resource limit.
- ListOps.Filter: its own postcondition bounds only the length. Membership is stated by
  `ListOps.FilterMembers`.
- BotResponseUtils.Includes: its own postcondition says only that an occurrence needs room.
  That `includes` holds exactly when an occurrence sits at some position is stated by
  `BotResponseUtils.IncludesAt` and `BotResponseUtils.IncludesWitness`.
- ChatActions.RemoveConversation: its own postcondition bounds the length and covers an absent
  id. Which conversations remain is stated by `ChatActions.RemoveConversationMembers`.
- ChatActions.NextAfterDelete: its own postcondition does not say which survivor is chosen.
  That it is the first conversation left after the delete, and when there is none, is stated by
  `ChatActions.NextAfterDeleteSurvives`.
- ChatStorage.UserBearing: its own postcondition bounds only the length. Which conversations are
  kept is stated by `ChatStorage.UserBearingMembers`.
- ChatStorage.SaveConversations: its own postcondition states what the conversations key holds.
  That no other key changes is stated by `ChatStorage.SaveConversationsFrame`.
- ChatStorage.SaveSettings: its own postcondition states what the settings key holds. That no
  other key changes is stated by `ChatStorage.SaveSettingsFrame`.
- ChatState.CurrentMessages: its own postcondition covers only an id no conversation has. The
  first-match rule is stated by `ChatState.CurrentMessagesOfFirstMatch`.
- These functions are used by every handler. Keeping their quantified facts in separate lemmas
  keeps the handlers' proofs small.
- `handleSubmit` does not check `disabled`, and neither does `InputBox.Submit`. A browser
  cannot submit a disabled input, but that is not modelled.
- The remote answering-service client and the context messages of other revisions are not part
  of this model. Neither are the UI component library and the toast hook.
