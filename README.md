# Conversation screen projection (SKYKitChat)

This project models the in-memory state of the SKYKitChat conversation screen,
`SKYChatConversationViewController`. That state is the projection of one
conversation that the screen keeps up to date:

- **the message list** (`messages`) is changed by three things:
  - real-time `.create`, `.update` and `.delete` events, matched by the message's
    record name;
  - fetched pages, which arrive newest first and are reversed and put in front;
  - optimistic sends, which append a pending message and later swap in the
    server's copy;
- **the participant map** (`participants`) holds user records keyed by user
  record name. Fetch results are merged into it, and it is used to find the
  sender of a message;
- **the typing-indicator flag** (`showTypingIndicator`) is decided from the
  number of users reported typing and whether the one typing user is the
  current user.

Layout:

- `chat_types.dfy` (module `ChatTypes`) holds the values: record IDs, records,
  messages, change events, completion responses and errors.
- `message_list.dfy` (module `MessageList`) holds the list operations as
  functions, each specified by its effect on the list, and the lemmas that
  relate them: idempotence, undo, chronological order, and send/create
  commutation.
- `participants.dfy` (module `Participants`) holds the merge relation, the
  sender lookup and their lemmas.
- `typing.dfy` (module `Typing`) holds the typing decision and the flag it
  produces.
- `conversation_view.dfy` (module `ConversationView`) holds the class
  `ConversationViewController`. Its fields are updated in place by one method
  per handler or completion. The methods that change the message list, the
  participant map or the typing flag from an event or a completion are proved
  against the functions above. The display and hide methods, `PressSend` and
  the two request builders state their effect directly.

Network completions are method inputs: a `Response` is `Failed(error)`,
`Missing` (a nil or ill-typed result) or `Fetched(value)`. The backend calls
the screen would make are returned as values instead: `ReadRequests` for read
marking, plus `MessageQuery` and the list of participant record IDs for fetches.

## Model

| member | source | states |
|---|---|---|
| MessageList.IndexOf | SKYKitChat/Classes/UI/ConversationView/SKYChatConversationViewController.swift:314 | the index found holds the element and no earlier slot does; none exactly when the element is absent |
| MessageList.IndexOfName | SKYKitChat/Classes/UI/ConversationView/SKYChatConversationViewController.swift:338-340 | the index found is the first message with the event's record name; none exactly when no message has it |
| MessageList.Upsert | SKYKitChat/Classes/UI/ConversationView/SKYChatConversationViewController.swift:343-348 | a `.create` replaces the first message with that record name and keeps the count, or appends at the end when there is none; every other slot is unchanged and looking the name up afterwards yields the new message |
| MessageList.UpdateExisting | SKYKitChat/Classes/UI/ConversationView/SKYChatConversationViewController.swift:355-360 | an `.update` replaces the first message with that record name; the list is unchanged when no message has it; the length and every other slot are unchanged |
| MessageList.RemoveById | SKYKitChat/Classes/UI/ConversationView/SKYChatConversationViewController.swift:361-366 | a `.delete` removes exactly the first message with that record name; the length drops by one, the rest keep their order, and the multiset loses just that message; no match means no change |
| MessageList.ApplyChange | SKYKitChat/Classes/UI/ConversationView/SKYChatConversationViewController.swift:342-367 | the handler's switch on the event: a `.create` adds one message exactly when its record name is new, a `.delete` drops one exactly when the name is shown, and an `.update` keeps the length; after a `.create`, or an `.update` of a shown name, looking the name up yields the event's message; an `.update` of an absent name changes nothing |
| MessageList.Reversed | SKYKitChat/Classes/UI/ConversationView/SKYChatConversationViewController.swift:503 | the result has the same length and holds the elements in the opposite order |
| MessageList.Prepended | SKYKitChat/Classes/UI/ConversationView/SKYChatConversationViewController.swift:502-506 | a merged page yields a list of length page plus old, the old list is kept as the suffix, and the page comes first in reverse order |
| MessageList.ConfirmSent | SKYKitChat/Classes/UI/ConversationView/SKYChatConversationViewController.swift:313-318 | a send completion puts the server copy in the pending message's first slot and changes no other slot or the length; if the pending message is gone, nothing changes |
| MessageList.UpsertIdempotent | SKYKitChat/Classes/UI/ConversationView/SKYChatConversationViewController.swift:343-348 | delivering the same `.create` event twice gives the same list as delivering it once |
| MessageList.UpsertKeepsUnique | SKYKitChat/Classes/UI/ConversationView/SKYChatConversationViewController.swift:343-348 | a `.create` keeps record names unique |
| MessageList.UpdateKeepsUnique | SKYKitChat/Classes/UI/ConversationView/SKYChatConversationViewController.swift:355-360 | an `.update` keeps record names unique |
| MessageList.UpdateOfShownIsUpsert | SKYKitChat/Classes/UI/ConversationView/SKYChatConversationViewController.swift:343-360 | an `.update` of a message already shown has the same effect as a `.create` |
| MessageList.RemoveByIdErases | SKYKitChat/Classes/UI/ConversationView/SKYChatConversationViewController.swift:361-366 | with unique record names, a `.delete` leaves no message with that name and keeps the names unique |
| MessageList.RemoveUndoesUpsert | SKYKitChat/Classes/UI/ConversationView/SKYChatConversationViewController.swift:343-366 | a `.delete` undoes a `.create` of a message that was not shown |
| MessageList.PrependedChronological | SKYKitChat/Classes/UI/ConversationView/SKYChatConversationViewController.swift:502-506 | merging an older page that arrives newest first, in front of an oldest-first list, keeps the list oldest-first |
| MessageList.FirstPageNewestIsLast | SKYKitChat/Classes/UI/ConversationView/SKYChatConversationViewController.swift:494-506 | on the first page, the page's first (newest) message becomes the last message shown |
| MessageList.ConfirmAfterAppend | SKYKitChat/Classes/UI/ConversationView/SKYChatConversationViewController.swift:313-323 | appending a pending message and then confirming it leaves the server copy at the end in its place |
| MessageList.ConfirmAndCreateCommute | SKYKitChat/Classes/UI/ConversationView/SKYChatConversationViewController.swift:313-348 | with unique record names, the send completion and the channel's `.create` for the same message give the same list in either order |
| Participants.MergedOver | SKYKitChat/Classes/UI/ConversationView/SKYChatConversationViewController.swift:447-451 | the state after the loop has handled some of the fetched keys: any old entry whose record changed now holds the record of a handled key with that record name |
| Participants.MergedFrom | SKYKitChat/Classes/UI/ConversationView/SKYChatConversationViewController.swift:447-451 | the state after the whole loop: every old name is still present and every fetched record name is present |
| Participants.MergedOverStep | SKYKitChat/Classes/UI/ConversationView/SKYChatConversationViewController.swift:448-451 | one loop iteration writes one more fetched entry under its record name and keeps the merge relation |
| Participants.MergeOverwritesFetched | SKYKitChat/Classes/UI/ConversationView/SKYChatConversationViewController.swift:447-451 | after a merge of records with distinct names, each fetched record is stored under its own record name |
| Participants.ListedOnceStep | SKYKitChat/Classes/UI/ConversationView/SKYChatConversationViewController.swift:448-451 | one loop iteration appends the record of one not-yet-listed key and keeps the list one entry per distinct key, each the record fetched for it |
| Participants.ListedOnceCovers | SKYKitChat/Classes/UI/ConversationView/SKYChatConversationViewController.swift:447-451 | once every fetched key is listed, the returned list has one entry per fetched key, every entry is a fetched record and no fetched record is missing |
| Participants.DisplayNameAfter | SKYKitChat/Classes/UI/ConversationView/SKYChatConversationViewController.swift:453-457 | the display name becomes the current user's fetched name when that record has one, and is otherwise unchanged |
| Participants.DisplayNameFromFetched | SKYKitChat/Classes/UI/ConversationView/SKYChatConversationViewController.swift:453-457 | after a merge of records with distinct names that fetched the current user's record with a display name, that name becomes the screen's display name |
| Participants.SenderOf | SKYKitChat/Classes/UI/ConversationView/SKYChatConversationViewController.swift:513-520 | the sender is found exactly when the creator's record name is in the map, and is the record stored there; an empty map gives none |
| Participants.SenderAfterMerge | SKYKitChat/Classes/UI/ConversationView/SKYChatConversationViewController.swift:447-451 | after merging a fetch that contained the creator's record, that record is the message's sender |
| Participants.SenderKeptByMerge | SKYKitChat/Classes/UI/ConversationView/SKYChatConversationViewController.swift:447-451 | a merge that fetched nothing under the creator's name leaves the sender unchanged |
| Typing.ActionFor | SKYKitChat/Classes/UI/ConversationView/SKYChatConversationViewController.swift:385-398 | no typing users hides the indicator and only that does; two or more show it; with exactly one user it shows exactly when the ID parses and names someone other than the current user, and otherwise it is left unchanged |
| Typing.FlagAfter | SKYKitChat/Classes/UI/ConversationView/SKYChatConversationViewController.swift:234-254 | display sets the flag and hide clears it, whatever its old value; keeping leaves it as it was |
| Typing.FlagFollowsOtherTyping | SKYKitChat/Classes/UI/ConversationView/SKYChatConversationViewController.swift:385-398 | for distinct, well-formed user IDs, the flag after an event is set exactly when someone other than the current user is typing or it was already set, and is cleared when nobody is typing |
| Typing.TypingEventIdempotent | SKYKitChat/Classes/UI/ConversationView/SKYChatConversationViewController.swift:234-254 | handling the same typing event twice gives the same flag as handling it once |
| ConversationView.FirstPageRequestsAsWritten | SKYKitChat/Classes/UI/ConversationView/SKYChatConversationViewController.swift:494-500 | the read marking as written: it traps exactly on an empty first page; a non-empty first page marks the page read and points at its first element; a later page issues nothing |
| ConversationView.FirstPageRequests | SKYKitChat/Classes/UI/ConversationView/SKYChatConversationViewController.swift:494-500 | only the first page marks its messages read; the last-read pointer moves only when that page is non-empty, and then to the newest message shown |
| ConversationView.EmptyFirstPageTraps | SKYKitChat/Classes/UI/ConversationView/SKYChatConversationViewController.swift:494-500 | as written, an empty first page traps on the forced unwrap |
| ConversationView.FirstPageCorrectionAgrees | SKYKitChat/Classes/UI/ConversationView/SKYChatConversationViewController.swift:494-500 | the code as written traps exactly on an empty first page, and on every other input it issues the corrected requests |
| ConversationView.ConversationViewController.constructor | SKYKitChat/Classes/UI/ConversationView/SKYChatConversationViewController.swift:26-29 | a loaded screen starts with the field defaults of lines 26-29 (no participants or messages, a fetch limit of 25) and, as `viewDidLoad` sets them at lines 76-79, the sender set to the current user and the display name "me"; the typing indicator starts hidden and automatic scrolling on, the defaults of the base class |
| ConversationView.ConversationViewController.DisplayTypingIndicator | SKYKitChat/Classes/UI/ConversationView/SKYChatConversationViewController.swift:234-244 | sets the flag; it scrolls only when the flag was clear and automatic scrolling is on, so a second call does nothing |
| ConversationView.ConversationViewController.HideTypingIndicator | SKYKitChat/Classes/UI/ConversationView/SKYChatConversationViewController.swift:247-254 | clears the flag; it is a no-op when the flag is already clear |
| ConversationView.ConversationViewController.OnTypingIndicator | SKYKitChat/Classes/UI/ConversationView/SKYChatConversationViewController.swift:385-398 | the new flag is the typing decision applied to the old flag; it scrolls exactly when the indicator newly appears and automatic scrolling is on |
| ConversationView.ConversationViewController.OnMessageChange | SKYKitChat/Classes/UI/ConversationView/SKYChatConversationViewController.swift:337-367 | the new list is the event applied to the old list; only a `.create` marks the message read and moves the last-read pointer to it |
| ConversationView.ConversationViewController.PressSend | SKYKitChat/Classes/UI/ConversationView/SKYChatConversationViewController.swift:290-323 | with a conversation, appends a pending message by the current user with the text and date; without one, nothing changes |
| ConversationView.ConversationViewController.OnSendCompleted | SKYKitChat/Classes/UI/ConversationView/SKYChatConversationViewController.swift:302-320 | on success the list is the confirmed list; on an error or a nil result it is unchanged |
| ConversationView.ConversationViewController.MessagesRequest | SKYKitChat/Classes/UI/ConversationView/SKYChatConversationViewController.swift:467-478 | without a conversation, no query is issued; otherwise the query is for that conversation with the screen's fetch limit and cursor |
| ConversationView.ConversationViewController.OnMessagesFetched | SKYKitChat/Classes/UI/ConversationView/SKYChatConversationViewController.swift:479-510 | errors pass through and change nothing; a nil page is a bad-response error; a page gives the merged list, returns it, and requests first-page read marking in its corrected form, so an empty first page gives an empty list instead of a trap |
| ConversationView.ConversationViewController.ParticipantsRequest | SKYKitChat/Classes/UI/ConversationView/SKYChatConversationViewController.swift:420-429 | without a conversation, no request is made; otherwise there is one "user" record ID per participant, in order |
| ConversationView.ConversationViewController.OnParticipantsFetched | SKYKitChat/Classes/UI/ConversationView/SKYChatConversationViewController.swift:432-459 | errors pass through and change nothing; fetched records are merged so that fetched names are overwritten and other keys are kept; the result lists the fetched records in the loop's iteration order, exactly one entry per fetched key (a ghost sequence of distinct keys covering the whole map, with entry i the record of key i); the current user's fetched name becomes the display name |

## Left out

- ConversationView.ConversationViewController.OnMessagesFetched: uses the corrected read marking `FirstPageRequests`. On an empty first page it merges the page and returns `Ok([])`, where the code as written traps at line 497 (see "## Findings").
- Dates (`creationDate`, the `date` of a send, the `beforeTime` cursor) are modelled as integers: `Message.created`, the `date` argument of `PressSend` and `MessageQuery.before`. Calendar and time-zone handling and sub-second precision are not modelled.
- `SKYKitChat/Classes/SKYChatExtension.h` holds only declarations of backend calls. Their implementations are not part of this model. The screen's calls to them (`fetchRecords`, `fetchMessages`, `addMessage`, `markReadMessages`, `markLastReadMessage`, `subscribeToMessages`, `subscribeToTypingIndicator`, `unsubscribeFromUserChannel`, `sendTypingIndicator`) are modelled only by their effect on local state. Their completions are method inputs, and the read-marking calls are returned as `ReadRequests`.
- The typing-indicator timer (lines 380-383 and 400-406) is driven by the run loop. The timer firing is `HideTypingIndicator`, and scheduling and invalidation are not modelled.
- Rendering is left out because it is UI only: bubble colours, avatars, bottom labels, `reloadData`, `finishReceivingMessage`, `finishSendingMessage` and `dismiss`.
- The backend handles `skygear.chatExtension` and `skygear.publicCloudDatabase` are assumed to be available. In the source both are optionals, used as `chatExt?.fetchMessages` (lines 472-474) and `publicCloudDatabase?.fetchRecords` (lines 430-431). When one is nil, the source issues no request and the matching completion never runs, whereas `MessagesRequest` and `ParticipantsRequest` return a request whenever there is a conversation. `PressSend` appends the pending message (line 323) whether or not the chat extension is there, as the model does.
- The lifecycle hooks (`viewDidLoad`, `viewWillAppear`, `viewDidDisappear`) are left out. The constructor stands for the state after `viewDidLoad`. The defaults of `showTypingIndicator` (off) and `automaticallyScrollsToMostRecentMessage` (on) are taken from the JSQMessages base class, which declares both fields and is not part of this model.
- `SKYRecordID(canonicalString:)` is not part of this model. Parsing a typing user's canonical ID string is the parameter `parse` of `OnTypingIndicator`.
- Message identity: `index(of: msg)` compares message objects. The model compares message values, so two equal values stand for the same object.
- `SKYMessage()` is assumed always to succeed, and the record name of a new message is the `newId` argument of `PressSend`.
- Error objects are built by `SKYErrorCreator` and reduced here to `BadResponse`. The backend's error text is passed through in `Backend`. The `print` diagnostics are not modelled.
- The iteration order of `for (k, v) in participantMap` is unspecified. The returned record list is stated as one entry per fetched key in an order the model leaves open, and a record name shared by two fetched keys holds the record of one of them.
- `userConversation` (line 25) is not modelled. `viewWillAppear` dismisses the screen when it is not set (lines 88-92), and the model assumes it is set. The forced unwraps of it when marking a message read (lines 352 and 498) are therefore not modelled, and the read-marking requests carry only the message.

## Findings

| source | as written | input that shows it | evidently intended | confidence | as-written member | corrected member |
|---|---|---|---|---|---|---|
| SKYKitChat/Classes/UI/ConversationView/SKYChatConversationViewController.swift:494-500 | when the list was empty before the merge, the last-read pointer is `msgs!.first!` | a conversation with no messages: the first fetch returns an empty page, and the forced unwrap of `first` traps | move the last-read pointer only when the first page has a message, and show an empty conversation otherwise | high (not executed) | ConversationView.EmptyFirstPageTraps | ConversationView.FirstPageRequests |
