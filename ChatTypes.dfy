/** The chat's value types: messages and conversations, and the clock readings handlers receive. */
module ChatTypes {

  datatype Option<T> = None | Some(value: T)

  /** One entry of a transcript; `isUser` separates the person's questions from the assistant's replies. */
  datatype Message = Message(id: string, text: string, isUser: bool, timestamp: string)

  /** A titled thread of messages, oldest message first. */
  datatype Conversation = Conversation(id: string, title: string, messages: seq<Message>, timestamp: string)

  /** The two locale-formatted readings of the clock a handler takes when it runs:
      `time` as an hour and minute label, `date` as a day, month, year, hour and minute label. */
  datatype Clock = Clock(time: string, date: string)

  /** `conv.messages.some(m => m.isUser)`. */
  predicate HasUserMessage(c: Conversation) {
    exists i :: 0 <= i < |c.messages| && c.messages[i].isUser
  }

  /** Every conversation of `cs` holds at least one message. */
  predicate NoEmptyThread(cs: seq<Conversation>) {
    forall i :: 0 <= i < |cs| ==> |cs[i].messages| > 0
  }

  /** Some conversation of `cs` carries the id `id`. */
  predicate HasId(cs: seq<Conversation>, id: string) {
    exists i :: 0 <= i < |cs| && cs[i].id == id
  }

  /** A conversation put in front of a list is found by its own id and hides no other. */
  lemma HasIdPrepend(c: Conversation, cs: seq<Conversation>, id: string)
    ensures HasId([c] + cs, id) <==> c.id == id || HasId(cs, id)
  {
    if c.id == id {
      assert ([c] + cs)[0] == c;
    }
    if HasId(cs, id) {
      var i :| 0 <= i < |cs| && cs[i].id == id;
      assert ([c] + cs)[i + 1] == cs[i];
    }
    if HasId([c] + cs, id) && c.id != id {
      var i :| 0 <= i < |[c] + cs| && ([c] + cs)[i].id == id;
      assert cs[i - 1] == ([c] + cs)[i];
    }
  }

  /** A conversation with a message put in front of a list keeps every conversation non-empty. */
  lemma PrependKeepsThreads(c: Conversation, cs: seq<Conversation>)
    requires |c.messages| > 0 && NoEmptyThread(cs)
    ensures NoEmptyThread([c] + cs)
  {
  }
}
