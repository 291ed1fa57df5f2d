/** What the chat keeps in the browser's local storage and what it restores from it. Storage is a
    map from key to the value a key parses to; serialisation itself is not modelled. */
module ChatStorage {
  import opened ChatTypes
  import opened ListOps

  const ConversationsKey := "dila-chat-conversations"
  const SettingsKey := "dila-chat-settings"

  /** The outcome of parsing what a key holds. */
  datatype Stored =
    | Unparseable                                   // the text is not JSON
    | ConversationList(list: seq<Conversation>)     // an array of conversations
    | SettingsRecord(alwaysConfirm: Option<bool>)   // an object; its `alwaysConfirm` field when that is a boolean

  type Storage = map<string, Stored>

  /** `localStorage.getItem(key)`, parsed: nothing when the key is absent. */
  function Read(storage: Storage, key: string): Option<Stored> {
    if key in storage then Some(storage[key]) else None
  }

  /** `conversations.filter(conv => conv.messages.some(m => m.isUser))`: the conversations worth
      keeping, those where the person asked something. */
  function UserBearing(cs: seq<Conversation>): (r: seq<Conversation>)
    ensures |r| <= |cs|
  {
    Filter(cs, HasUserMessage)
  }

  /** The kept conversations are exactly those of the list that have a user message. */
  lemma UserBearingMembers(cs: seq<Conversation>)
    ensures forall c :: c in UserBearing(cs) ==> c in cs && HasUserMessage(c)
    ensures forall c :: c in cs && HasUserMessage(c) ==> c in UserBearing(cs)
  {
    FilterMembers(cs, HasUserMessage);
  }

  /** Keeping the user-bearing conversations preserves their order: the kept part of a list is
      the kept part of its front followed by the kept part of its back. */
  lemma UserBearingAppend(front: seq<Conversation>, back: seq<Conversation>)
    ensures UserBearing(front + back) == UserBearing(front) + UserBearing(back)
  {
    FilterAppend(front, back, HasUserMessage);
  }

  /** The filter keeps a list intact exactly when each of its conversations has a user message,
      and applying it a second time changes nothing. */
  lemma UserBearingIdempotent(cs: seq<Conversation>)
    ensures UserBearing(cs) == cs <==> forall i :: 0 <= i < |cs| ==> HasUserMessage(cs[i])
    ensures UserBearing(UserBearing(cs)) == UserBearing(cs)
  {
    FilterIdentity(cs, HasUserMessage);
    FilterIdempotent(cs, HasUserMessage);
  }

  /** The conversations the mount effect restores: the user-bearing part of a stored list, in
      its order, or nothing (the state is left as it is) when the key is absent or does not hold
      a list. */
  function LoadConversations(saved: Option<Stored>): (r: Option<seq<Conversation>>)
    ensures r.Some? <==> saved.Some? && saved.value.ConversationList?
    ensures saved.Some? && saved.value.ConversationList? ==> r == Some(UserBearing(saved.value.list))
  {
    match saved
    case Some(ConversationList(list)) => Some(UserBearing(list))
    case _ => None
  }

  /** The restored conversations are exactly the stored ones that have a question; so the
      filter the save effect applies keeps the restored list as it is. */
  lemma RestoredAreKept(saved: Option<Stored>)
    requires LoadConversations(saved).Some?
    ensures var loaded := LoadConversations(saved).value;
      forall c :: c in loaded <==> c in saved.value.list && HasUserMessage(c)
    ensures var loaded := LoadConversations(saved).value;
      (forall i :: 0 <= i < |loaded| ==> HasUserMessage(loaded[i])) && UserBearing(loaded) == loaded
  {
    var loaded := LoadConversations(saved).value;
    UserBearingMembers(saved.value.list);
    forall i | 0 <= i < |loaded| ensures HasUserMessage(loaded[i]) {
      assert loaded[i] in loaded;
    }
    UserBearingIdempotent(saved.value.list);
  }

  /** The selection after loading: the head of the restored list, or the selection as it was
      when nothing was restored. */
  function RestoredCurrentId(loaded: seq<Conversation>, current: string): (r: string)
    ensures |loaded| > 0 ==> r == loaded[0].id && HasId(loaded, r)
    ensures |loaded| == 0 ==> r == current
  {
    if |loaded| > 0 then loaded[0].id else current
  }

  /** The preference after loading: a stored boolean wins, anything else leaves `current`. */
  function LoadAlwaysConfirm(saved: Option<Stored>, current: bool): (r: bool)
    ensures (saved.Some? && saved.value.SettingsRecord? && saved.value.alwaysConfirm.Some?) ==>
      r == saved.value.alwaysConfirm.value
    ensures !(saved.Some? && saved.value.SettingsRecord? && saved.value.alwaysConfirm.Some?) ==> r == current
  {
    match saved
    case Some(SettingsRecord(Some(b))) => b
    case _ => current
  }

  /** The effect run whenever the conversations change: nothing is written for an empty list,
      otherwise the conversations key receives the user-bearing ones; no other key is touched. */
  function SaveConversations(storage: Storage, cs: seq<Conversation>): (r: Storage)
    ensures |cs| == 0 ==> r == storage
    ensures |cs| > 0 ==> ConversationsKey in r && r[ConversationsKey] == ConversationList(UserBearing(cs))
  {
    if |cs| > 0 then storage[ConversationsKey := ConversationList(UserBearing(cs))] else storage
  }

  /** Saving the conversations writes their key only, and only when there is something to write. */
  lemma SaveConversationsFrame(storage: Storage, cs: seq<Conversation>)
    ensures var r := SaveConversations(storage, cs);
      r.Keys == (if |cs| > 0 then storage.Keys + {ConversationsKey} else storage.Keys) &&
      (forall k :: k in storage && k != ConversationsKey ==> r[k] == storage[k]) &&
      (|cs| == 0 ==> r == storage)
  {
  }

  /** A later save of a non-empty list overwrites an earlier one. */
  lemma SaveOverwrites(storage: Storage, earlier: seq<Conversation>, later: seq<Conversation>)
    requires |later| > 0
    ensures SaveConversations(SaveConversations(storage, earlier), later) == SaveConversations(storage, later)
  {
  }

  /** The effect run whenever the preference changes: the settings key receives it. */
  function SaveSettings(storage: Storage, alwaysConfirm: bool): (r: Storage)
    ensures SettingsKey in r && r[SettingsKey] == SettingsRecord(Some(alwaysConfirm))
  {
    storage[SettingsKey := SettingsRecord(Some(alwaysConfirm))]
  }

  /** Saving the preference writes the settings key only. */
  lemma SaveSettingsFrame(storage: Storage, alwaysConfirm: bool)
    ensures var r := SaveSettings(storage, alwaysConfirm);
      r.Keys == storage.Keys + {SettingsKey} &&
      forall k :: k in storage && k != SettingsKey ==> r[k] == storage[k]
  {
  }

  /** Saving a non-empty list and loading it back yields exactly its user-bearing conversations,
      in order; a list whose conversations all have a user message comes back unchanged. */
  lemma SaveThenLoad(storage: Storage, cs: seq<Conversation>)
    requires |cs| > 0
    ensures LoadConversations(Read(SaveConversations(storage, cs), ConversationsKey)) == Some(UserBearing(cs))
    ensures (forall i :: 0 <= i < |cs| ==> HasUserMessage(cs[i])) ==>
      LoadConversations(Read(SaveConversations(storage, cs), ConversationsKey)) == Some(cs)
  {
    UserBearingIdempotent(cs);
  }

  /** Saving a preference and loading it back yields the preference, whatever the default. */
  lemma SettingsRoundTrip(storage: Storage, alwaysConfirm: bool, default: bool)
    ensures LoadAlwaysConfirm(Read(SaveSettings(storage, alwaysConfirm), SettingsKey), default) == alwaysConfirm
  {
  }
}
