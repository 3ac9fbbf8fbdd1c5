/** The in-memory chat store: chats, their messages, and the list
    transforms the UI applies to the whole collection when it replaces it. */
module ChatStore {

  datatype Option<T> = None | Some(value: T)

  datatype Role = User | Assistant

  /** One turn of a conversation; `timestamp` is a wall-clock time in
      milliseconds supplied by the caller. */
  datatype Message = Message(id: string, role: Role, content: string, timestamp: int)

  /** A conversation thread; `createdAt` is supplied by the caller. */
  datatype Chat = Chat(id: string, title: string, messages: seq<Message>, createdAt: int)

  /** Adds `m` at the end of the message list of every chat whose id is
      `chatId`; every other chat is left as it is, and the list keeps its
      length and order. */
  function AppendMessage(chats: seq<Chat>, chatId: string, m: Message): (r: seq<Chat>)
    ensures |r| == |chats|
    ensures forall k :: 0 <= k < |chats| && chats[k].id != chatId ==> r[k] == chats[k]
    ensures forall k :: 0 <= k < |chats| && chats[k].id == chatId ==>
              r[k] == chats[k].(messages := chats[k].messages + [m])
  {
    if chats == [] then []
    else
      var c := chats[0];
      [if c.id == chatId then c.(messages := c.messages + [m]) else c]
        + AppendMessage(chats[1..], chatId, m)
  }

  /** Replaces every message whose id is `id` by `m`, keeping the count and
      the order of the list and every other message. */
  function ReplaceById(msgs: seq<Message>, id: string, m: Message): (r: seq<Message>)
    ensures |r| == |msgs|
    ensures forall k :: 0 <= k < |msgs| && msgs[k].id != id ==> r[k] == msgs[k]
    ensures forall k :: 0 <= k < |msgs| && msgs[k].id == id ==> r[k] == m
  {
    if msgs == [] then []
    else [if msgs[0].id == id then m else msgs[0]] + ReplaceById(msgs[1..], id, m)
  }

  /** Replace-by-id inside the chat(s) whose id equals `chatId`; a missing
      (null) `chatId` matches no chat. */
  function ReplaceInChat(chats: seq<Chat>, chatId: Option<string>, msgId: string, m: Message): (r: seq<Chat>)
    ensures |r| == |chats|
    ensures forall k :: 0 <= k < |chats| && Some(chats[k].id) != chatId ==> r[k] == chats[k]
    ensures forall k :: 0 <= k < |chats| && Some(chats[k].id) == chatId ==>
              r[k] == chats[k].(messages := ReplaceById(chats[k].messages, msgId, m))
  {
    if chats == [] then []
    else
      var c := chats[0];
      [if Some(c.id) == chatId then c.(messages := ReplaceById(c.messages, msgId, m)) else c]
        + ReplaceInChat(chats[1..], chatId, msgId, m)
  }

  /** The position of the first chat whose id is `id`, as a lookup by id
      returns the first match. */
  function FindChat(chats: seq<Chat>, id: Option<string>): (r: Option<nat>)
    ensures r.None? ==> forall k :: 0 <= k < |chats| ==> Some(chats[k].id) != id
    ensures r.Some? ==> r.value < |chats| && Some(chats[r.value].id) == id
    ensures r.Some? ==> forall k :: 0 <= k < r.value ==> Some(chats[k].id) != id
  {
    if chats == [] then None
    else if Some(chats[0].id) == id then Some(0)
    else match FindChat(chats[1..], id)
      case None => None
      case Some(k) => Some(k + 1)
  }

  /** The messages shown for the active chat: those of the first chat with
      that id, or none when no chat has it. */
  function ActiveMessages(chats: seq<Chat>, active: Option<string>): seq<Message>
  {
    match FindChat(chats, active)
    case None => []
    case Some(k) => chats[k].messages
  }

  /** The view of the active chat is the messages of the first chat carrying
      the active id. */
  lemma ActiveMessagesFirstMatch(chats: seq<Chat>, active: Option<string>, k: nat)
    requires k < |chats| && Some(chats[k].id) == active
    requires forall j :: 0 <= j < k ==> Some(chats[j].id) != active
    ensures ActiveMessages(chats, active) == chats[k].messages
  {
    var found := FindChat(chats, active);
    assert found.Some? && found.value == k;
  }

  /** With no chat carrying the active id the view is empty. */
  lemma ActiveMessagesNoMatch(chats: seq<Chat>, active: Option<string>)
    requires forall k :: 0 <= k < |chats| ==> Some(chats[k].id) != active
    ensures ActiveMessages(chats, active) == []
  {
  }

  /** True when no message of `msgs` carries `id`. */
  predicate FreshId(msgs: seq<Message>, id: string)
  {
    forall k :: 0 <= k < |msgs| ==> msgs[k].id != id
  }

  /** The lookup by id only looks at ids: two lists with the same ids in the
      same order find the same chat. */
  lemma {:induction false} FindChatSameIds(a: seq<Chat>, b: seq<Chat>, id: Option<string>)
    requires |a| == |b|
    requires forall k :: 0 <= k < |a| ==> a[k].id == b[k].id
    ensures FindChat(a, id) == FindChat(b, id)
  {
    if a != [] {
      FindChatSameIds(a[1..], b[1..], id);
    }
  }

  /** Appending to the active chat shows up in the active view as exactly
      one more message at the end; when no chat has the id, the view stays
      empty. */
  lemma AppendShowsInActive(chats: seq<Chat>, chatId: string, m: Message)
    ensures FindChat(chats, Some(chatId)).Some? ==>
              ActiveMessages(AppendMessage(chats, chatId, m), Some(chatId))
                == ActiveMessages(chats, Some(chatId)) + [m]
    ensures FindChat(chats, Some(chatId)).None? ==>
              AppendMessage(chats, chatId, m) == chats
  {
    var r := AppendMessage(chats, chatId, m);
    FindChatSameIds(chats, r, Some(chatId));
    if FindChat(chats, Some(chatId)).None? {
      assert forall k :: 0 <= k < |chats| ==> r[k] == chats[k];
    }
  }

  /** Replacing a freshly appended placeholder by id yields the old list with
      the replacement at the end: nothing before it is touched. */
  lemma ReplaceAppended(msgs: seq<Message>, placeholder: Message, m: Message)
    requires FreshId(msgs, placeholder.id)
    ensures ReplaceById(msgs + [placeholder], placeholder.id, m) == msgs + [m]
  {
    var r := ReplaceById(msgs + [placeholder], placeholder.id, m);
    assert forall k :: 0 <= k < |msgs| ==> (msgs + [placeholder])[k] == msgs[k];
    assert r[|msgs|] == m;
  }

  /** Replacing in the active chat shows up in the active view as the
      replace-by-id of its messages. */
  lemma ReplaceShowsInActive(chats: seq<Chat>, chatId: string, msgId: string, m: Message)
    ensures ActiveMessages(ReplaceInChat(chats, Some(chatId), msgId, m), Some(chatId))
              == if FindChat(chats, Some(chatId)).Some?
                 then ReplaceById(ActiveMessages(chats, Some(chatId)), msgId, m)
                 else []
  {
    FindChatSameIds(chats, ReplaceInChat(chats, Some(chatId), msgId, m), Some(chatId));
  }
}
