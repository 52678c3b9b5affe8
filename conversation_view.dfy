/** The conversation screen's in-memory projection: the message list, the
    participant map and the typing-indicator flag, updated in place by
    real-time events, fetch completions and sends. Backend calls are not
    made here: their completions are method inputs, and the requests the
    screen would issue are method results. */
module ConversationView {
  import opened ChatTypes
  import opened MessageList
  import opened Participants
  import opened Typing

  datatype Conversation = Conversation(id: string, participantIds: seq<string>)

  /** A message fetch: a page of at most `limit` messages older than `before`. */
  datatype MessageQuery = MessageQuery(conversationId: string, limit: nat, before: Option<int>)

  /** The read-marking calls a delivery triggers: mark `markRead` as read,
      and move the user's last-read pointer to `markLastRead` if present. */
  datatype ReadRequests = ReadRequests(markRead: seq<Message>, markLastRead: Option<Message>)

  const NoReadRequests := ReadRequests([], None)

  /** Initial value of `messagesFetchLimit`. */
  const DefaultFetchLimit: nat := 25

  /** What the page completion does about read marking as the completion is
      written: it may trap on a forced unwrap. */
  datatype PageOutcome = Trapped | Issued(requests: ReadRequests)

  /** Read marking after a fetched page, as written: on the first page the
      pointer is the page's first element, force-unwrapped, so an empty first
      page traps. */
  function FirstPageRequestsAsWritten(wasEmpty: bool, page: seq<Message>): (r: PageOutcome)
    ensures r == Trapped <==> wasEmpty && |page| == 0
    ensures r.Issued? && wasEmpty ==> r.requests == ReadRequests(page, Some(page[0]))
    ensures !wasEmpty ==> r == Issued(NoReadRequests)
  {
    if !wasEmpty then Issued(NoReadRequests)
    else if |page| == 0 then Trapped
    else Issued(ReadRequests(page, Some(page[0])))
  }

  /** A brand-new conversation: the first fetch returns no messages, and the
      completion traps instead of showing an empty conversation. */
  lemma EmptyFirstPageTraps()
    ensures FirstPageRequestsAsWritten(true, []) == Trapped
  {
  }

  /** Read marking after a fetched page, corrected: only the first page marks
      messages read, and the last-read pointer moves only when that page has
      a message, to the newest message the screen then shows. */
  function FirstPageRequests(wasEmpty: bool, page: seq<Message>): (r: ReadRequests)
    ensures r.markRead == (if wasEmpty then page else [])
    ensures r.markLastRead.Some? <==> wasEmpty && |page| > 0
    ensures r.markLastRead.Some? ==> r.markLastRead.value == Prepended([], page)[|page| - 1]
  {
    if wasEmpty && |page| > 0 then
      FirstPageNewestIsLast(page);
      ReadRequests(page, Some(page[0]))
    else if wasEmpty then ReadRequests(page, None)
    else NoReadRequests
  }

  /** The correction changes nothing except on the trapping input. */
  lemma FirstPageCorrectionAgrees(wasEmpty: bool, page: seq<Message>)
    ensures FirstPageRequestsAsWritten(wasEmpty, page) == Trapped <==> wasEmpty && |page| == 0
    ensures !(wasEmpty && |page| == 0) ==>
              FirstPageRequestsAsWritten(wasEmpty, page) == Issued(FirstPageRequests(wasEmpty, page))
  {
  }

  class ConversationViewController {
    var senderId: string
    var senderDisplayName: string
    var conversation: Option<Conversation>
    var participants: map<string, Record>
    var messages: seq<Message>
    var messagesFetchLimit: nat
    var showTypingIndicator: bool
    var automaticallyScrollsToMostRecentMessage: bool

    /** A loaded screen for the signed-in user `currentUser`. */
    constructor (currentUser: string, conv: Option<Conversation>)
      ensures senderId == currentUser && senderDisplayName == "me" && conversation == conv
      ensures participants == map[] && messages == [] && messagesFetchLimit == DefaultFetchLimit
      ensures !showTypingIndicator && automaticallyScrollsToMostRecentMessage
    {
      senderId := currentUser;
      senderDisplayName := "me";
      conversation := conv;
      participants := map[];
      messages := [];
      messagesFetchLimit := DefaultFetchLimit;
      showTypingIndicator := false;
      automaticallyScrollsToMostRecentMessage := true;
    }

    /** Show the typing indicator; scrolls to the bottom only when the
        indicator was hidden and automatic scrolling is on. */
    method DisplayTypingIndicator() returns (scrolled: bool)
      modifies this`showTypingIndicator
      ensures showTypingIndicator
      ensures scrolled <==> !old(showTypingIndicator) && automaticallyScrollsToMostRecentMessage
    {
      if showTypingIndicator {
        return false;
      }
      showTypingIndicator := true;
      scrolled := automaticallyScrollsToMostRecentMessage;
    }

    /** Hide the typing indicator (also what the auto-hide timer does). */
    method HideTypingIndicator()
      modifies this`showTypingIndicator
      ensures !showTypingIndicator
    {
      if !showTypingIndicator {
        return;
      }
      showTypingIndicator := false;
    }

    /** The typing-indicator change handler for an event naming `userIDs`
        (canonical record-ID strings, read with `parse`). */
    method OnTypingIndicator(userIDs: seq<string>, parse: string -> Option<RecordID>) returns (scrolled: bool)
      modifies this`showTypingIndicator
      ensures showTypingIndicator == FlagAfter(old(showTypingIndicator), ActionFor(userIDs, senderId, parse))
      ensures scrolled <==> !old(showTypingIndicator) && showTypingIndicator && automaticallyScrollsToMostRecentMessage
    {
      scrolled := false;
      if |userIDs| == 0 {
        HideTypingIndicator();
      } else if |userIDs| == 1 {
        match parse(userIDs[0]) {
          case Some(typingID) =>
            if typingID.name != senderId {
              scrolled := DisplayTypingIndicator();
            }
          case None =>
        }
      } else {
        scrolled := DisplayTypingIndicator();
      }
    }

    /** The message change handler: apply a real-time `.create`, `.update` or
        `.delete` of `m` to the list; a `.create` also marks `m` read and
        moves the last-read pointer to it. */
    method OnMessageChange(event: ChangeEvent, m: Message) returns (requests: ReadRequests)
      modifies this`messages
      ensures messages == ApplyChange(old(messages), event, m)
      ensures requests == if event == Create then ReadRequests([m], Some(m)) else NoReadRequests
    {
      var idx := IndexOfName(messages, m.id);
      requests := NoReadRequests;
      match event {
        case Create =>
          match idx {
            case Some(i) => messages := messages[i := m];
            case None => messages := messages + [m];
          }
          requests := ReadRequests([m], Some(m));
        case Update =>
          if idx.Some? {
            messages := messages[idx.value := m];
          }
        case Delete =>
          if idx.Some? {
            messages := messages[..idx.value] + messages[idx.value + 1..];
          }
      }
    }

    /** Pressing send: with a conversation, a pending message (record name
        `newId`, created by the current user) is appended at once. */
    method PressSend(text: string, date: int, newId: string) returns (pending: Option<Message>)
      modifies this`messages
      ensures conversation.None? ==> pending.None? && messages == old(messages)
      ensures conversation.Some? ==>
                pending == Some(Message(newId, senderId, Some(text), date)) &&
                messages == old(messages) + [pending.value]
    {
      if conversation.None? {
        return None;
      }
      var msg := Message(newId, senderId, Some(text), date);
      messages := messages + [msg];
      pending := Some(msg);
    }

    /** The send completion: on success the pending message's slot gets the
        server's copy; on failure, or when the pending message is gone,
        nothing changes. */
    method OnSendCompleted(pending: Message, response: Response<Message>)
      modifies this`messages
      ensures messages == if response.Fetched? then ConfirmSent(old(messages), pending, response.value)
                          else old(messages)
    {
      if !response.Fetched? {
        return;
      }
      var idx := IndexOf(messages, pending);
      if idx.None? {
        return;
      }
      messages := messages[idx.value := response.value];
    }

    /** The query a message fetch issues; none without a conversation. */
    method MessagesRequest(before: Option<int>) returns (q: Option<MessageQuery>)
      ensures q.None? <==> conversation.None?
      ensures q.Some? ==> q.value.conversationId == conversation.value.id &&
                          q.value.limit == messagesFetchLimit && q.value.before == before
    {
      if conversation.None? {
        return None;
      }
      q := Some(MessageQuery(conversation.value.id, messagesFetchLimit, before));
    }

    /** The message fetch completion: errors go to the caller unchanged; a
        page (newest first) is merged in front of the list; the first page
        also triggers read marking. */
    method OnMessagesFetched(response: Response<seq<Message>>) returns (r: Result<seq<Message>>, requests: ReadRequests)
      modifies this`messages
      ensures response.Failed? ==> r == Err(Backend(response.error))
      ensures response.Missing? ==> r == Err(BadResponse)
      ensures !response.Fetched? ==> messages == old(messages) && requests == NoReadRequests
      ensures response.Fetched? ==>
                messages == Prepended(old(messages), response.value) && r == Ok(messages) &&
                requests == FirstPageRequests(old(messages) == [], response.value)
    {
      requests := NoReadRequests;
      match response {
        case Failed(e) =>
          r := Err(Backend(e));
        case Missing =>
          r := Err(BadResponse);
        case Fetched(page) =>
          requests := FirstPageRequests(|messages| == 0, page);
          var newMessages := Reversed(page);
          newMessages := newMessages + messages;
          messages := newMessages;
          r := Ok(newMessages);
      }
    }

    /** The participant fetch request: one "user" record ID per participant;
        none without a conversation. */
    method ParticipantsRequest() returns (ids: Option<seq<RecordID>>)
      ensures ids.None? <==> conversation.None?
      ensures ids.Some? ==>
                |ids.value| == |conversation.value.participantIds| &&
                forall i :: 0 <= i < |ids.value| ==>
                  ids.value[i] == RecordID("user", conversation.value.participantIds[i])
    {
      if conversation.None? {
        return None;
      }
      var pids := conversation.value.participantIds;
      ids := Some(seq(|pids|, i requires 0 <= i < |pids| => RecordID("user", pids[i])));
    }

    /** The participant fetch completion: errors go to the caller unchanged;
        fetched records are merged into `participants` under their record
        names and returned; the current user's fetched name becomes the
        display name. */
    method OnParticipantsFetched(response: Response<map<RecordID, Record>>) returns (r: Result<seq<Record>>, ghost handled: seq<RecordID>)
      modifies this`participants, this`senderDisplayName
      ensures response.Failed? ==> r == Err(Backend(response.error))
      ensures response.Missing? ==> r == Err(BadResponse)
      ensures !response.Fetched? ==>
                participants == old(participants) && senderDisplayName == old(senderDisplayName)
      ensures response.Fetched? ==>
                MergedFrom(old(participants), response.value, participants) &&
                senderDisplayName == DisplayNameAfter(participants, senderId, old(senderDisplayName))
      ensures response.Fetched? ==>
                r.Ok? && |r.value| == |response.value| &&
                (forall v :: v in r.value ==> v in response.value.Values) &&
                (forall k :: k in response.value ==> response.value[k] in r.value)
      // One record per fetched key, in the loop's iteration order `handled`.
      ensures response.Fetched? ==>
                ListedOnce(response.value, handled, r.value) &&
                (forall k :: k in response.value ==> k in handled)
    {
      handled := [];
      match response {
        case Failed(e) =>
          r := Err(Backend(e));
        case Missing =>
          r := Err(BadResponse);
        case Fetched(participantMap) =>
          var fetched: seq<Record> := [];
          var todo := participantMap.Keys;
          MergedOverNothing(participants, participantMap);
          assert participantMap.Keys - todo == {};
          while todo != {}
            invariant todo <= participantMap.Keys
            invariant senderDisplayName == old(senderDisplayName)
            invariant MergedOver(old(participants), participantMap, participantMap.Keys - todo, participants)
            invariant ListedOnce(participantMap, handled, fetched)
            invariant forall i :: 0 <= i < |handled| ==> handled[i] !in todo
            invariant forall k :: k in participantMap && k !in todo ==> k in handled
            decreases |todo|
          {
            var k :| k in todo;
            MergedOverStep(old(participants), participantMap, participantMap.Keys - todo, participants, k);
            ListedOnceStep(participantMap, handled, fetched, k);
            participants := participants[k.name := participantMap[k]];
            fetched := fetched + [participantMap[k]];
            handled := handled + [k];
            assert participantMap.Keys - (todo - {k}) == (participantMap.Keys - todo) + {k};
            todo := todo - {k};
          }
          assert participantMap.Keys - todo == participantMap.Keys;
          ListedOnceCovers(participantMap, handled, fetched);
          if senderId in participants && participants[senderId].displayName.Some? {
            senderDisplayName := participants[senderId].displayName.value;
          }
          r := Ok(fetched);
      }
    }
  }
}
