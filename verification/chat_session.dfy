/** The state the message pane and the sidebar update step by step, as an
    object: the application's chat list and active id, the pane's input,
    loading flag and typing marker, and the interval handle with the
    variables its callback updates on every tick. Each handler is proved to
    do what the matching function of `ChatInterface` or `Sidebar` says. */
module ChatSession {
  import opened ChatStore
  import opened ChatInterface
  import Sidebar

  class Session {
    var chats: seq<Chat>
    var activeChat: Option<string>
    var input: string
    var isLoading: bool
    var currentlyTyping: Option<Typing>
    // the interval handle is set exactly when `timerActive` holds; the
    // fields below it are the variables its callback captures and updates
    var timerActive: bool
    var fullText: string
    var messageId: string
    var targetChat: string
    var i: nat
    var currentText: string

    /** The abstract state; the callback's variables only matter while the
        interval runs. */
    function Snapshot(): Pane
      reads this
    {
      Pane(chats, activeChat, input, isLoading, currentlyTyping,
           if timerActive then Some(Reveal(fullText, messageId, targetChat, i, currentText)) else None)
    }

    predicate Valid()
      reads this
    {
      Inv(Snapshot())
    }

    function Store(): Sidebar.Store
      reads this
    {
      Sidebar.Store(chats, activeChat)
    }

    constructor ()
      ensures Valid()
      ensures Snapshot() == Pane([], None, "", false, None, None)
    {
      chats, activeChat := [], None;
      input, isLoading, currentlyTyping := "", false, None;
      timerActive := false;
      fullText, messageId, targetChat, i, currentText := "", "", "", 0, "";
    }

    /** Typing into the input box. */
    method SetInput(text: string)
      requires Valid()
      modifies this
      ensures Valid()
      ensures Snapshot() == old(Snapshot()).(input := text)
    {
      input := text;
    }

    /** The sidebar's "new chat" button. */
    method NewChat(click: Sidebar.Click)
      requires Valid()
      modifies this
      ensures Valid()
      ensures Store() == Sidebar.CreateNewChat(old(Store()), click)
      ensures Snapshot() == old(Snapshot()).(chats := chats, activeChat := activeChat)
    {
      var next := Sidebar.CreateNewChat(Store(), click);
      chats := next.chats;
      activeChat := next.activeChat;
    }

    /** The sidebar's click on a listed chat. */
    method SelectChat(id: string)
      requires Valid()
      modifies this
      ensures Valid()
      ensures Store() == Sidebar.SelectChat(old(Store()), id)
      ensures Snapshot() == old(Snapshot()).(activeChat := Some(id))
    {
      activeChat := Some(id);
    }

    /** Send: returns the request to post, or nothing when the send is a
        no-op. */
    method SendMessage(userId: string, now: int) returns (request: Option<ChatRequest>)
      requires Valid()
      modifies this
      ensures Valid()
      ensures Sent(Snapshot(), request) == ChatInterface.SendMessage(old(Snapshot()), userId, now)
    {
      ghost var expected := ChatInterface.SendMessage(Snapshot(), userId, now);
      TrimEmptyIffBlank(input);
      if Trim(input) == "" || !Truthy(activeChat) {
        return None;
      }
      var userMessage := Message(userId, User, input, now);
      chats := AppendMessage(chats, activeChat.value, userMessage);
      request := Some(ChatRequest(input, activeChat.value));
      input := "";
      isLoading := true;
      assert Snapshot() == expected.pane;
    }

    /** Starts a reveal, replacing any interval handle held before. */
    method TypeMessage(text: string, id: string, chatId: string)
      modifies this
      ensures Valid()
      ensures Snapshot() == StartTyping(old(Snapshot()), text, id, chatId)
    {
      fullText, messageId, targetChat := text, id, chatId;
      i := 0;
      currentText := "";
      currentlyTyping := Some(Typing(id, ""));
      timerActive := true;
    }

    /** The chat endpoint answered `data` to `req`. */
    method ReceiveChatReply(req: ChatRequest, data: string, stamp: string, now: int)
      modifies this
      ensures Valid()
      ensures Snapshot() == ChatInterface.ReceiveChatReply(old(Snapshot()), req, data, stamp, now)
    {
      var assistantMessage := Message(PlaceholderId(stamp), Assistant, "", now);
      chats := AppendMessage(chats, req.chatId, assistantMessage);
      TypeMessage(data, assistantMessage.id, req.chatId);
    }

    /** A request failed. */
    method RequestFailed()
      requires Valid()
      modifies this
      ensures Valid()
      ensures Snapshot() == ChatInterface.RequestFailed(old(Snapshot()))
    {
      isLoading := false;
    }

    /** One interval callback. */
    method Tick(now: int)
      requires Valid()
      modifies this
      ensures Valid()
      ensures Snapshot() == ChatInterface.Tick(old(Snapshot()), now)
    {
      if timerActive {
        if i < |fullText| {
          currentText := currentText + [fullText[i]];
          currentlyTyping := Some(Typing(messageId, currentText));
          i := i + 1;
        } else {
          timerActive := false;
          var finalMessage := Message(messageId, Assistant, fullText, now);
          chats := ReplaceInChat(chats, Some(targetChat), messageId, finalMessage);
          currentlyTyping := None;
          isLoading := false;
        }
      }
    }

    /** The "stop" button. */
    method StopTyping(now: int)
      requires Valid()
      modifies this
      ensures Valid()
      ensures Snapshot() == Stop(old(Snapshot()), now)
    {
      if timerActive {
        timerActive := false;
        if currentlyTyping.Some? {
          var t := currentlyTyping.value;
          var finalMessage := Message(t.id, Assistant, t.content, now);
          chats := ReplaceInChat(chats, activeChat, t.id, finalMessage);
          currentlyTyping := None;
          isLoading := false;
        }
      }
    }

    /** A file was chosen; returns what became of it. */
    method UploadFile(files: Option<seq<FileInfo>>) returns (outcome: UploadOutcome)
      requires Valid()
      modifies this
      ensures Valid()
      ensures Uploaded(Snapshot(), outcome) == Upload(old(Snapshot()), files)
    {
      if files.None? || !Truthy(activeChat) {
        return Ignored;
      }
      if files.value == [] {
        return NoFile;
      }
      var file := files.value[0];
      if file.mimeType != PDF_MIME {
        return Alerted;
      }
      isLoading := true;
      outcome := Posted(PdfRequest(file, activeChat.value));
    }

    /** The PDF endpoint answered `data` to `req`. */
    method ReceivePdfReply(req: PdfRequest, data: string, stamp: string, now: int)
      modifies this
      ensures Valid()
      ensures Snapshot() == ChatInterface.ReceivePdfReply(old(Snapshot()), req, data, stamp, now)
    {
      var assistantMessage := Message(PlaceholderId(stamp), Assistant, "", now);
      chats := AppendMessage(chats, req.chatId, assistantMessage);
      TypeMessage(PdfReplyText(data), assistantMessage.id, req.chatId);
    }
  }
}
