/** The list transformations behind the chat handlers: the conversation a "new conversation"
    builds, the per-conversation edits a send makes, the title rule, the search for the question
    to reformulate and the choice of the conversation shown after a delete. */
module ChatActions {
  import opened ChatTypes
  import opened ListOps
  import opened BotResponseUtils

  const NewTitle := "Nouvelle conversation"
  const WelcomeText := "Bonjour, je suis l'assistant virtuel de la DILA. Comment puis-je vous aider avec vos questions légales et administratives aujourd'hui ?"
  /** Titles longer than this many characters are cut. */
  const TitleLimit := 30
  const Ellipsis := "..."
  /** The words a reformulation request opens with, up to the opening quote of the question. It is
      written in three pieces so that the position of "reformuler" in it (right after the
      12 characters of "Pouvez-vous ") can be read off; `RequestMentionsRephrase` uses it. */
  const RequestOpening := "Pouvez-vous " + "reformuler" + " autrement : \""
  /** What precedes the question in a reply sent while the reformulation preference is on. */
  const ConfirmOpening := "Reformulation: "

  /** The conversation `createNewConversation` builds: the default title, the clock's date label,
      and one welcome message, which is not the user's. */
  function NewConversation(newId: string, clock: Clock): (c: Conversation)
    ensures c.id == newId && c.title == NewTitle && c.timestamp == clock.date
    ensures c.messages == [Message("welcome-" + newId, WelcomeText, false, clock.time)]
    ensures |c.messages| == 1 && !HasUserMessage(c)
  {
    Conversation(newId, NewTitle, [Message("welcome-" + newId, WelcomeText, false, clock.time)], clock.date)
  }

  /** The title shown for `title`: at most 30 characters, with "..." appended when it was cut. */
  function TruncateTitle(title: string): (r: string)
    ensures |r| <= TitleLimit + |Ellipsis|
    ensures |title| <= TitleLimit ==> r == title
    ensures |title| > TitleLimit ==> |r| == TitleLimit + |Ellipsis| && r[..TitleLimit] == title[..TitleLimit]
    ensures |title| > TitleLimit ==> r[TitleLimit..] == Ellipsis
  {
    if |title| > TitleLimit then title[..TitleLimit] + Ellipsis else title
  }

  /** A title that has been through the rule comes out of it unchanged. */
  lemma TruncateTitleIdempotent(title: string)
    ensures TruncateTitle(TruncateTitle(title)) == TruncateTitle(title)
  {
  }

  /** The edit a send makes to the conversation it targets. */
  datatype Edit =
    | AddUserMessage(msg: Message, date: string)  // the question, with the send's date label
    | AddBotMessage(msg: Message)                  // the reply, which leaves title and date alone

  /** The edit a send makes: the question as a user message stamped with the send's time. */
  function QuestionEdit(text: string, msgId: string, clock: Clock): (e: Edit)
    ensures e.AddUserMessage? && e.msg.isUser && e.msg.text == text && e.msg.id == msgId
    ensures e.msg.timestamp == clock.time && e.date == clock.date
  {
    AddUserMessage(Message(msgId, text, true, clock.time), clock.date)
  }

  /** One conversation after an edit: the message is appended; a question also refreshes the date
      and, if it is the first question, becomes the title; the title rule is applied on every question. */
  function ApplyEdit(c: Conversation, e: Edit): (r: Conversation)
    ensures r.id == c.id && r.messages == c.messages + [e.msg]
    ensures e.AddBotMessage? ==> r.title == c.title && r.timestamp == c.timestamp
  {
    match e
    case AddUserMessage(msg, date) =>
      var title := if HasUserMessage(c) then c.title else msg.text;
      c.(title := TruncateTitle(title), messages := c.messages + [msg], timestamp := date)
    case AddBotMessage(msg) =>
      c.(messages := c.messages + [msg])
  }

  /** The title rule of a send: the question becomes the title only when the conversation had no
      question before, the rule is applied to whichever title results, and the date is refreshed. */
  lemma QuestionTitle(c: Conversation, msg: Message, date: string)
    ensures var r := ApplyEdit(c, AddUserMessage(msg, date));
      r.timestamp == date && |r.title| <= TitleLimit + |Ellipsis| &&
      r.title == TruncateTitle(if HasUserMessage(c) then c.title else msg.text) &&
      (msg.isUser ==> HasUserMessage(r))
  {
    var r := ApplyEdit(c, AddUserMessage(msg, date));
    if msg.isUser {
      assert r.messages[|c.messages|] == msg;
    }
  }

  /** `prev.map(conv => conv.id === id ? edited : conv)`: every conversation carrying `id` is
      edited, every other one is kept as it is, and the order does not change. */
  function EditMatching(cs: seq<Conversation>, id: string, e: Edit): (r: seq<Conversation>)
    ensures |r| == |cs|
    ensures forall i :: 0 <= i < |cs| && cs[i].id == id ==> r[i] == ApplyEdit(cs[i], e)
    ensures forall i :: 0 <= i < |cs| && cs[i].id != id ==> r[i] == cs[i]
  {
    if cs == [] then []
    else [if cs[0].id == id then ApplyEdit(cs[0], e) else cs[0]] + EditMatching(cs[1..], id, e)
  }

  /** Messages are only ever appended: every conversation keeps its id, its earlier messages in
      order, and gains at most the one new message. */
  lemma EditIsAppendOnly(cs: seq<Conversation>, id: string, e: Edit)
    ensures var r := EditMatching(cs, id, e);
      forall i :: 0 <= i < |cs| ==>
        r[i].id == cs[i].id &&
        |cs[i].messages| <= |r[i].messages| <= |cs[i].messages| + 1 &&
        r[i].messages[..|cs[i].messages|] == cs[i].messages
  {
  }

  /** An edit never empties a conversation. */
  lemma EditKeepsThreads(cs: seq<Conversation>, id: string, e: Edit)
    requires NoEmptyThread(cs)
    ensures NoEmptyThread(EditMatching(cs, id, e))
  {
  }

  /** An edit aimed at an id no conversation carries changes nothing: this is where a question sent
      while no conversation is selected goes. */
  lemma EditOfMissingIdIsNoOp(cs: seq<Conversation>, id: string, e: Edit)
    requires !HasId(cs, id)
    ensures EditMatching(cs, id, e) == cs
  {
  }

  /** A question sent with nothing selected is aimed at the empty id; the conversation created for
      it has a real id, so when no stored conversation has the empty id the question is lost. */
  lemma QuestionWithoutSelectionIsLost(created: Conversation, cs: seq<Conversation>, e: Edit)
    requires created.id != "" && !HasId(cs, "")
    ensures EditMatching([created] + cs, "", e) == [created] + cs
  {
  }

  /** The text of the reply to `text`: the stub reply, preceded by the question itself when the
      reformulation preference was on at the time of sending. */
  function BotReplyText(text: string, alwaysConfirm: bool): (r: string)
    ensures |r| >= |GetBotResponse(text)|
    ensures r[|r| - |GetBotResponse(text)|..] == GetBotResponse(text)
    ensures !alwaysConfirm ==> r == GetBotResponse(text)
    ensures alwaysConfirm ==> |r| == |ConfirmOpening| + |text| + 2 + |GetBotResponse(text)|
    ensures alwaysConfirm ==> r[..|ConfirmOpening| + |text|] == ConfirmOpening + text
    ensures alwaysConfirm ==> r[|ConfirmOpening| + |text|..|ConfirmOpening| + |text| + 2] == "\n\n"
  {
    if alwaysConfirm then ConfirmOpening + text + "\n\n" + GetBotResponse(text) else GetBotResponse(text)
  }

  /** `[...messages].reverse().findIndex(m => m.isUser)`. */
  function ReversedUserIndex(ms: seq<Message>): int {
    FindIndex(Reverse(ms), (m: Message) => m.isUser)
  }

  /** Searching the reversed messages finds nothing exactly when there is no user message. */
  lemma ReversedUserIndexAbsent(ms: seq<Message>)
    ensures ReversedUserIndex(ms) == -1 <==> forall i :: 0 <= i < |ms| ==> !ms[i].isUser
  {
    var reversed := Reverse(ms);
    if ReversedUserIndex(ms) == -1 {
      forall i | 0 <= i < |ms| ensures !ms[i].isUser {
        assert reversed[|ms| - 1 - i] == ms[i];
      }
    }
  }

  /** What the search of the reversed messages finds is a user message with no user message
      after it. */
  lemma ReversedUserIndexFound(ms: seq<Message>)
    requires ReversedUserIndex(ms) >= 0
    ensures var k := ReversedUserIndex(ms);
      Reverse(ms)[k] == ms[|ms| - 1 - k] && ms[|ms| - 1 - k].isUser
    ensures var k := ReversedUserIndex(ms);
      forall j :: |ms| - 1 - k < j < |ms| ==> !ms[j].isUser
  {
    var reversed := Reverse(ms);
    var k := ReversedUserIndex(ms);
    assert reversed[k] == ms[|ms| - 1 - k];
    forall j | |ms| - 1 - k < j < |ms| ensures !ms[j].isUser {
      assert reversed[|ms| - 1 - j] == ms[j];
    }
  }

  /** The text of the last question in `ms`, found as the first user message of the reversed
      list: nothing exactly when there is no user message, and otherwise the text of a user
      message with no user message after it. */
  function LastUserText(ms: seq<Message>): (r: Option<string>)
    ensures r == None <==> forall i :: 0 <= i < |ms| ==> !ms[i].isUser
    ensures r.Some? ==>
      exists i :: 0 <= i < |ms| && ms[i].isUser && ms[i].text == r.value &&
        forall j :: i < j < |ms| ==> !ms[j].isUser
  {
    ReversedUserIndexAbsent(ms);
    var k := ReversedUserIndex(ms);
    if k == -1 then None
    else
      ReversedUserIndexFound(ms);
      Some(Reverse(ms)[k].text)
  }

  /** The question a reformulation sends: the earlier question, quoted, behind a fixed request. */
  function ReformulationRequest(question: string): (r: string)
    ensures |r| == |RequestOpening| + |question| + 1
    ensures r[..|RequestOpening|] == RequestOpening
    ensures r[|RequestOpening|..|r| - 1] == question
    ensures r[|r| - 1] == '"'
  {
    RequestOpening + question + "\""
  }

  /** The keyword is already in lower case. */
  lemma RephraseKeywordIsLower()
    ensures Lower("reformuler") == "reformuler"
  {
    var key := "reformuler";
    assert key[0] == 'r' && key[1] == 'e' && key[2] == 'f' && key[3] == 'o' && key[4] == 'r';
    assert key[5] == 'm' && key[6] == 'u' && key[7] == 'l' && key[8] == 'e' && key[9] == 'r';
  }

  /** The lower-cased request contains "reformuler", whatever the question. */
  lemma RequestMentionsRephrase(question: string)
    ensures MentionsRephrase(Lower(ReformulationRequest(question)))
  {
    var head, key, tail := "Pouvez-vous ", "reformuler", " autrement : \"" + question + "\"";
    var request := ReformulationRequest(question);
    assert request == head + key + tail by {
      assert RequestOpening == head + key + " autrement : \"";
    }
    LowerAppend(head + key, tail);
    LowerAppend(head, key);
    RephraseKeywordIsLower();
    var l := Lower(head) + key + Lower(tail);
    assert Lower(request) == l;
    assert l[|head|..|head| + |key|] == key;
    IncludesAt(l, key, |head|);
  }

  /** A reformulation request always names "reformuler", so it never gets the default reply;
      a greeting in the quoted question still takes precedence. */
  lemma ReformulationRequestReply(question: string)
    ensures ChosenReply(ReformulationRequest(question)) != Fallback
    ensures MentionsGreeting(Lower(question)) ==> ChosenReply(ReformulationRequest(question)) == Greeting
  {
    RequestMentionsRephrase(question);
    if MentionsGreeting(Lower(question)) {
      GreetingDominates(RequestOpening, question, "\"");
    }
  }

  /** `prev.filter(conv => conv.id !== id)`: never longer than the list, and the list itself when
      no conversation carries `id`. */
  function RemoveConversation(cs: seq<Conversation>, id: string): (r: seq<Conversation>)
    ensures |r| <= |cs|
    ensures !HasId(cs, id) ==> r == cs
  {
    var p := (c: Conversation) => c.id != id;
    if HasId(cs, id) then Filter(cs, p)
    else
      FilterIdentity(cs, p);
      Filter(cs, p)
  }

  /** Removing a conversation drops exactly the conversations carrying its id: what is left was
      there before under another id, still holds its messages, and no conversation keeps the id. */
  lemma RemoveConversationMembers(cs: seq<Conversation>, id: string)
    ensures forall c :: c in RemoveConversation(cs, id) ==> c in cs && c.id != id
    ensures forall c :: c in cs && c.id != id ==> c in RemoveConversation(cs, id)
    ensures !HasId(RemoveConversation(cs, id), id)
    ensures forall x :: HasId(RemoveConversation(cs, id), x) ==> HasId(cs, x)
    ensures NoEmptyThread(cs) ==> NoEmptyThread(RemoveConversation(cs, id))
  {
    var r := RemoveConversation(cs, id);
    FilterMembers(cs, (c: Conversation) => c.id != id);
    forall i | 0 <= i < |r| ensures r[i].id != id && r[i] in cs {
      assert r[i] in r;
    }
    forall x | HasId(r, x) ensures HasId(cs, x) {
      var i :| 0 <= i < |r| && r[i].id == x;
      var j :| 0 <= j < |cs| && cs[j] == r[i];
    }
    if NoEmptyThread(cs) {
      forall i | 0 <= i < |r| ensures |r[i].messages| > 0 {
        var j :| 0 <= j < |cs| && cs[j] == r[i];
      }
    }
  }

  /** The conversation a delete re-selects, looked up in the list as it was before the delete:
      the first one with another id when there were at least two, none otherwise. */
  function NextAfterDelete(cs: seq<Conversation>, id: string): (r: Option<string>)
    ensures r.Some? ==> |cs| > 1 && r.value != id && HasId(cs, r.value)
    ensures |cs| <= 1 ==> r == None
  {
    if |cs| > 1 then
      var k := FindIndex(cs, (c: Conversation) => c.id != id);
      if k == -1 then None else Some(cs[k].id)
    else None
  }

  /** The re-selected conversation survives the delete, and it is the first one that survives;
      none is re-selected exactly when there were fewer than two conversations or all carried `id`. */
  lemma NextAfterDeleteSurvives(cs: seq<Conversation>, id: string)
    ensures NextAfterDelete(cs, id).Some? ==>
      var r := RemoveConversation(cs, id);
      |r| > 0 && r[0].id == NextAfterDelete(cs, id).value && NextAfterDelete(cs, id).value != id
    ensures NextAfterDelete(cs, id) == None <==> |cs| <= 1 || forall i :: 0 <= i < |cs| ==> cs[i].id == id
  {
    var p := (c: Conversation) => c.id != id;
    var k := FindIndex(cs, p);
    if |cs| > 1 && k != -1 {
      FilterFromFirst(cs, p, k);
    }
  }

  /** After a delete the selection always lands on a conversation that exists and is not the
      deleted one: the re-selected survivor, or else the conversation created in its place (whose
      id is new); and no conversation is left without a message. */
  lemma DeleteSelectsSurvivor(cs: seq<Conversation>, id: string, newId: string, clock: Clock)
    requires NoEmptyThread(cs) && newId != id
    ensures var next := NextAfterDelete(cs, id);
      var kept := RemoveConversation(cs, id);
      next.Some? ==> NoEmptyThread(kept) && HasId(kept, next.value) && !HasId(kept, id)
    ensures var next := NextAfterDelete(cs, id);
      var r := [NewConversation(newId, clock)] + RemoveConversation(cs, id);
      next.None? ==> NoEmptyThread(r) && HasId(r, newId) && !HasId(r, id)
  {
    var kept := RemoveConversation(cs, id);
    RemoveConversationMembers(cs, id);
    NextAfterDeleteSurvives(cs, id);
    var created := NewConversation(newId, clock);
    HasIdPrepend(created, kept, id);
    HasIdPrepend(created, kept, newId);
    var r := [created] + kept;
    assert r[0] == created;
    assert forall i :: 1 <= i < |r| ==> r[i] == kept[i - 1];
  }
}
