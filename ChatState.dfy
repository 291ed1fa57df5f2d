/** The chat's state as its hooks hold it (the conversation list, the selected id, the
    reformulation preference, the busy flag, local storage and the toasts shown) and every handler
    that changes it. A handler reads the values of the render it was created in, so the "old"
    selection and preference are the ones it acts on; the effects React runs after the render that
    follows a change (the storage writes) are part of the handler here. Timers become separate
    steps: the reply is delivered by `DeliverReply`, the busy flag is reset by `FinishWaiting`. */
module ChatState {
  import opened ChatTypes
  import opened ListOps
  import opened ChatActions
  import opened ChatStorage

  /** A toast; only the fact that it was shown is kept. */
  datatype Notice =
    | NothingToReformulate
    | ConversationDeleted
    | HistoryCleared
    | ReformulationDisabled
    | ReformulationEnabled

  /** A reply scheduled by a send and not yet delivered: what the send's timer captured, namely
      the id selected when the send ran, the question and the preference at that time. */
  datatype PendingReply = PendingReply(targetId: string, question: string, alwaysConfirm: bool)

  /** `conversations.find(c => c.id === id)?.messages || []`: nothing is shown when no
      conversation carries the selected id (the empty id included, unless a conversation has it). */
  function CurrentMessages(cs: seq<Conversation>, id: string): (r: seq<Message>)
    ensures !HasId(cs, id) ==> r == []
  {
    var k := FindIndex(cs, (c: Conversation) => c.id == id);
    if k == -1 then [] else cs[k].messages
  }

  /** The messages shown are those of the first conversation carrying the selected id. */
  lemma CurrentMessagesOfFirstMatch(cs: seq<Conversation>, id: string)
    ensures forall k :: 0 <= k < |cs| && cs[k].id == id && (forall j :: 0 <= j < k ==> cs[j].id != id) ==>
      CurrentMessages(cs, id) == cs[k].messages
  {
  }

  class ChatStore {
    var conversations: seq<Conversation>
    var currentId: string
    var alwaysConfirm: bool
    var isWaiting: bool
    var storage: Storage
    var notices: seq<Notice>

    /** Every conversation holds at least one message: a welcome message or a question. */
    ghost predicate Valid()
      reads this
    {
      NoEmptyThread(conversations)
    }

    /** What `Date.now()` is taken to produce for a new conversation: an id no conversation has
        and that is not the selected one. */
    predicate FreshId(id: string)
      reads this
    {
      id != "" && id != currentId && !HasId(conversations, id)
    }

    /** The messages on screen. */
    function Messages(): seq<Message>
      reads this
    {
      CurrentMessages(conversations, currentId)
    }

    /** Mounting: the state starts empty with the preference on, the load effect restores the
        preference and the user-bearing conversations (selecting the first), and the save effects
        of the renders that follow write both keys back. */
    constructor Mount(saved: Storage)
      ensures Valid()
      ensures var loaded := LoadConversations(Read(saved, ConversationsKey));
        conversations == (if loaded.Some? then loaded.value else []) &&
        currentId == (if loaded.Some? then RestoredCurrentId(loaded.value, "") else "")
      ensures alwaysConfirm == LoadAlwaysConfirm(Read(saved, SettingsKey), true)
      ensures !isWaiting && notices == []
      ensures storage == SaveSettings(SaveConversations(saved, conversations), alwaysConfirm)
      ensures |conversations| > 0 ==> storage[ConversationsKey] == ConversationList(conversations)
    {
      conversations := [];
      currentId := "";
      alwaysConfirm := true;
      isWaiting := false;
      notices := [];
      storage := saved;
      new;
      alwaysConfirm := LoadAlwaysConfirm(Read(saved, SettingsKey), alwaysConfirm);
      var loaded := LoadConversations(Read(saved, ConversationsKey));
      if loaded.Some? {
        RestoredAreKept(Read(saved, ConversationsKey));
        conversations := loaded.value;
        currentId := RestoredCurrentId(loaded.value, currentId);
      }
      storage := SaveConversations(storage, conversations);
      storage := SaveSettings(storage, alwaysConfirm);
    }

    /** `createNewConversation`: a new conversation is put first and selected; its id is returned. */
    method CreateNewConversation(newId: string, clock: Clock) returns (id: string)
      requires Valid() && FreshId(newId)
      modifies this
      ensures Valid()
      ensures conversations == [NewConversation(newId, clock)] + old(conversations)
      ensures currentId == newId && id == newId
      ensures Messages() == NewConversation(newId, clock).messages
      ensures storage == SaveConversations(old(storage), conversations)
      ensures alwaysConfirm == old(alwaysConfirm) && isWaiting == old(isWaiting) && notices == old(notices)
    {
      conversations := [NewConversation(newId, clock)] + conversations;
      currentId := newId;
      storage := SaveConversations(storage, conversations);
      id := newId;
      CurrentMessagesOfFirstMatch(conversations, currentId);
    }

    /** The `createNewConversation` the view calls: the base operation, returning its id. */
    method StartNewConversation(newId: string, clock: Clock) returns (id: string)
      requires Valid() && FreshId(newId)
      modifies this
      ensures Valid()
      ensures conversations == [NewConversation(newId, clock)] + old(conversations)
      ensures currentId == newId && id == newId
      ensures storage == SaveConversations(old(storage), conversations)
      ensures alwaysConfirm == old(alwaysConfirm) && isWaiting == old(isWaiting) && notices == old(notices)
    {
      id := CreateNewConversation(newId, clock);
    }

    /** The base `handleSendMessage`: with nothing selected a conversation is created and
        selected first; the question is then appended to every conversation carrying the id that
        was selected when the send began, and the reply is scheduled for that same id. */
    method SendMessageBase(text: string, newConvId: string, msgId: string, clock: Clock)
      returns (reply: PendingReply)
      requires Valid()
      requires currentId == "" ==> FreshId(newConvId)
      modifies this
      ensures Valid()
      ensures old(currentId) == "" ==>
        currentId == newConvId &&
        conversations == EditMatching([NewConversation(newConvId, clock)] + old(conversations), "",
          QuestionEdit(text, msgId, clock))
      ensures old(currentId) != "" ==>
        currentId == old(currentId) &&
        conversations == EditMatching(old(conversations), old(currentId), QuestionEdit(text, msgId, clock))
      ensures reply == PendingReply(old(currentId), text, old(alwaysConfirm))
      ensures storage == SaveConversations(old(storage), conversations)
      ensures alwaysConfirm == old(alwaysConfirm) && isWaiting == old(isWaiting) && notices == old(notices)
      // With nothing selected the question reaches no conversation: only the new, empty one is added.
      ensures old(currentId) == "" && !HasId(old(conversations), "") ==>
        conversations == [NewConversation(newConvId, clock)] + old(conversations)
    {
      var sentTo := currentId;
      var edit := QuestionEdit(text, msgId, clock);
      var base := conversations;
      if sentTo == "" {
        // `createNewConversation`: the new conversation is put first and selected
        var created := NewConversation(newConvId, clock);
        base := [created] + conversations;
        PrependKeepsThreads(created, conversations);
        if !HasId(conversations, "") {
          QuestionWithoutSelectionIsLost(created, conversations, edit);
        }
        currentId := newConvId;
      }
      conversations := EditMatching(base, sentTo, edit);
      EditKeepsThreads(base, sentTo, edit);
      storage := SaveConversations(storage, conversations);
      reply := PendingReply(sentTo, text, alwaysConfirm);
    }

    /** The `handleSendMessage` the view calls: the busy flag is raised, then the base send runs. */
    method SendMessage(text: string, newConvId: string, msgId: string, clock: Clock)
      returns (reply: PendingReply)
      requires Valid()
      requires currentId == "" ==> FreshId(newConvId)
      modifies this
      ensures Valid()
      ensures isWaiting
      ensures old(currentId) == "" ==>
        currentId == newConvId &&
        conversations == EditMatching([NewConversation(newConvId, clock)] + old(conversations), "",
          QuestionEdit(text, msgId, clock))
      ensures old(currentId) != "" ==>
        currentId == old(currentId) &&
        conversations == EditMatching(old(conversations), old(currentId), QuestionEdit(text, msgId, clock))
      ensures reply == PendingReply(old(currentId), text, old(alwaysConfirm))
      ensures storage == SaveConversations(old(storage), conversations)
      ensures alwaysConfirm == old(alwaysConfirm) && notices == old(notices)
    {
      isWaiting := true;
      reply := SendMessageBase(text, newConvId, msgId, clock);
    }

    /** The send's timer firing: one reply is appended to the conversations carrying the id the
        send captured, its text built from the question and the preference the send captured. */
    method DeliverReply(reply: PendingReply, botMsgId: string, clock: Clock)
      requires Valid()
      modifies this
      ensures Valid()
      ensures conversations == EditMatching(old(conversations), reply.targetId,
        AddBotMessage(Message(botMsgId, BotReplyText(reply.question, reply.alwaysConfirm), false, clock.time)))
      ensures storage == SaveConversations(old(storage), conversations)
      ensures currentId == old(currentId) && alwaysConfirm == old(alwaysConfirm)
      ensures isWaiting == old(isWaiting) && notices == old(notices)
    {
      var msg := Message(botMsgId, BotReplyText(reply.question, reply.alwaysConfirm), false, clock.time);
      conversations := EditMatching(conversations, reply.targetId, AddBotMessage(msg));
      storage := SaveConversations(storage, conversations);
    }

    /** The busy flag's timer firing. */
    method FinishWaiting()
      modifies this
      ensures !isWaiting
      ensures conversations == old(conversations) && currentId == old(currentId)
      ensures alwaysConfirm == old(alwaysConfirm) && storage == old(storage) && notices == old(notices)
    {
      isWaiting := false;
    }

    /** The base `handleReformulate`, given the messages on screen: with nothing selected, no
        message or no question, a toast and nothing else; otherwise the last question is sent again
        inside a reformulation request. */
    method ReformulateBase(currentMessages: seq<Message>, msgId: string, clock: Clock)
      returns (reply: Option<PendingReply>)
      requires Valid()
      modifies this
      ensures Valid()
      ensures old(currentId) == "" || |currentMessages| == 0 || LastUserText(currentMessages).None? ==>
        reply == None && notices == old(notices) + [NothingToReformulate] &&
        conversations == old(conversations) && currentId == old(currentId) && storage == old(storage)
      ensures old(currentId) != "" && |currentMessages| > 0 && LastUserText(currentMessages).Some? ==>
        var request := ReformulationRequest(LastUserText(currentMessages).value);
        reply == Some(PendingReply(old(currentId), request, old(alwaysConfirm))) &&
        conversations == EditMatching(old(conversations), old(currentId), QuestionEdit(request, msgId, clock)) &&
        currentId == old(currentId) && notices == old(notices) &&
        storage == SaveConversations(old(storage), conversations)
      ensures alwaysConfirm == old(alwaysConfirm) && isWaiting == old(isWaiting)
    {
      if currentId == "" || |currentMessages| == 0 {
        notices := notices + [NothingToReformulate];
        return None;
      }
      match LastUserText(currentMessages)
      case None =>
        notices := notices + [NothingToReformulate];
        reply := None;
      case Some(question) =>
        var r := SendMessageBase(ReformulationRequest(question), "", msgId, clock);
        reply := Some(r);
    }

    /** The `handleReformulate` the view calls: the base handler, given the messages on screen.
        Unlike a send from the input box it leaves the busy flag alone. */
    method Reformulate(msgId: string, clock: Clock) returns (reply: Option<PendingReply>)
      requires Valid()
      modifies this
      ensures Valid()
      ensures var shown := CurrentMessages(old(conversations), old(currentId));
        old(currentId) == "" || |shown| == 0 || LastUserText(shown).None? ==>
        reply == None && notices == old(notices) + [NothingToReformulate] &&
        conversations == old(conversations) && currentId == old(currentId) && storage == old(storage)
      ensures var shown := CurrentMessages(old(conversations), old(currentId));
        old(currentId) != "" && |shown| > 0 && LastUserText(shown).Some? ==>
        var request := ReformulationRequest(LastUserText(shown).value);
        reply == Some(PendingReply(old(currentId), request, old(alwaysConfirm))) &&
        conversations == EditMatching(old(conversations), old(currentId), QuestionEdit(request, msgId, clock)) &&
        currentId == old(currentId) && notices == old(notices) &&
        storage == SaveConversations(old(storage), conversations)
      ensures alwaysConfirm == old(alwaysConfirm) && isWaiting == old(isWaiting)
    {
      reply := ReformulateBase(Messages(), msgId, clock);
    }

    /** `handleDeleteCurrentConversation`: the selected conversation is removed and a toast shown;
        the next selection is looked up in the list as it was before the removal, and when there is
        none a new conversation is created. */
    method DeleteCurrentConversation(newId: string, clock: Clock)
      requires Valid() && FreshId(newId)
      modifies this
      ensures Valid()
      ensures var next := NextAfterDelete(old(conversations), old(currentId));
        var kept := RemoveConversation(old(conversations), old(currentId));
        if next.Some? then conversations == kept && currentId == next.value
        else conversations == [NewConversation(newId, clock)] + kept && currentId == newId
      ensures HasId(conversations, currentId) && !HasId(conversations, old(currentId))
      ensures notices == old(notices) + [ConversationDeleted]
      ensures storage == SaveConversations(old(storage), conversations)
      ensures alwaysConfirm == old(alwaysConfirm) && isWaiting == old(isWaiting)
    {
      var next := NextAfterDelete(conversations, currentId);
      var kept := RemoveConversation(conversations, currentId);
      DeleteSelectsSurvivor(conversations, currentId, newId, clock);
      if next.Some? {
        currentId := next.value;
        conversations := kept;
      } else {
        // `createNewConversation`, whose functional update applies to the filtered list
        currentId := newId;
        conversations := [NewConversation(newId, clock)] + kept;
      }
      storage := SaveConversations(storage, conversations);
      notices := notices + [ConversationDeleted];
    }

    /** `handleClearHistory`: the list is emptied, the stored list removed, one new conversation
        created and selected, and a toast shown; the save effect then stores an empty list, since
        the new conversation has no question yet. */
    method ClearHistory(newId: string, clock: Clock)
      requires Valid() && FreshId(newId)
      modifies this
      ensures Valid()
      ensures conversations == [NewConversation(newId, clock)] && currentId == newId
      ensures storage == old(storage)[ConversationsKey := ConversationList([])]
      ensures notices == old(notices) + [HistoryCleared]
      ensures alwaysConfirm == old(alwaysConfirm) && isWaiting == old(isWaiting)
    {
      conversations := [];
      storage := storage - {ConversationsKey};
      var _ := CreateNewConversation(newId, clock);
      notices := notices + [HistoryCleared];
    }

    /** `handleSelectConversation`: the id is taken as given, without checking it. */
    method SelectConversation(id: string)
      modifies this
      ensures currentId == id
      ensures conversations == old(conversations) && alwaysConfirm == old(alwaysConfirm)
      ensures isWaiting == old(isWaiting) && storage == old(storage) && notices == old(notices)
    {
      currentId := id;
    }

    /** `handleToggleConfirmation`: the preference is flipped, a toast names the new state, and
        the settings effect writes it. */
    method ToggleConfirmation()
      modifies this
      ensures alwaysConfirm == !old(alwaysConfirm)
      ensures notices == old(notices) + [if old(alwaysConfirm) then ReformulationDisabled else ReformulationEnabled]
      ensures storage == SaveSettings(old(storage), alwaysConfirm)
      ensures conversations == old(conversations) && currentId == old(currentId) && isWaiting == old(isWaiting)
    {
      notices := notices + [if alwaysConfirm then ReformulationDisabled else ReformulationEnabled];
      alwaysConfirm := !alwaysConfirm;
      storage := SaveSettings(storage, alwaysConfirm);
    }
  }
}
