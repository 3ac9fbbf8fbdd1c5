/** The message pane as a state machine: sending, the reply placeholder, the
    character-by-character reveal driven by an interval timer, stopping it,
    the PDF upload checks, and which content a message displays.

    The timer is an explicit `Tick`; while it runs, the interval's captured
    variables (the full text, the target ids, the index and the accumulated
    text) are the `Reveal` held in `timer`. */
module ChatInterface {
  import opened ChatStore

  // ---------------------------------------------------------------------
  // Blank input: the string's trim is empty

  /** The characters a JavaScript trim removes: white space and line
      terminators. */
  predicate IsJsWhitespace(c: char)
  {
    c == '\t' || c == '\n' || c == '\U{000B}' || c == '\U{000C}' || c == '\r' ||
    c == ' ' || c == '\U{00A0}' || c == '\U{1680}' ||
    ('\U{2000}' <= c <= '\U{200A}') ||
    c == '\U{2028}' || c == '\U{2029}' || c == '\U{202F}' || c == '\U{205F}' ||
    c == '\U{3000}' || c == '\U{FEFF}'
  }

  /** Drops the leading white space. */
  function TrimStart(s: string): (r: string)
    ensures |r| <= |s| && r == s[|s| - |r|..]
    ensures forall k :: 0 <= k < |s| - |r| ==> IsJsWhitespace(s[k])
    ensures r != [] ==> !IsJsWhitespace(r[0])
  {
    if s != [] && IsJsWhitespace(s[0]) then TrimStart(s[1..]) else s
  }

  /** Drops the trailing white space. */
  function TrimEnd(s: string): (r: string)
    ensures |r| <= |s| && r == s[..|r|]
    ensures forall k :: |r| <= k < |s| ==> IsJsWhitespace(s[k])
    ensures r != [] ==> !IsJsWhitespace(r[|r| - 1])
  {
    if s != [] && IsJsWhitespace(s[|s| - 1]) then TrimEnd(s[..|s| - 1]) else s
  }

  function Trim(s: string): string
  {
    TrimEnd(TrimStart(s))
  }

  predicate IsBlank(s: string)
  {
    forall k :: 0 <= k < |s| ==> IsJsWhitespace(s[k])
  }

  /** The trimmed input is empty exactly when every character is white
      space. */
  lemma TrimEmptyIffBlank(s: string)
    ensures Trim(s) == "" <==> IsBlank(s)
  {
  }

  // ---------------------------------------------------------------------
  // State

  /** The "currently typing" marker: the message being revealed and the text
      revealed so far. */
  datatype Typing = Typing(id: string, content: string)

  /** A running interval: the text to reveal, the target message and chat,
      the index of the next character and the accumulated text. */
  datatype Reveal = Reveal(fullText: string, messageId: string, chatId: string, i: nat, currentText: string)

  /** The application's chat list and active chat id, with the pane's input
      box, loading flag, typing marker and timer. */
  datatype Pane = Pane(chats: seq<Chat>, activeChat: Option<string>, input: string,
                       isLoading: bool, typing: Option<Typing>, timer: Option<Reveal>)

  /** JavaScript truthiness of a nullable id: null and the empty string are
      false. */
  predicate Truthy(active: Option<string>)
  {
    active.Some? && active.value != ""
  }

  /** The reveal's invariant: the marker exists exactly while the timer runs,
      and then it shows the accumulated text, which is the first `i`
      characters of the full text. */
  predicate Inv(p: Pane)
  {
    match p.timer
    case None => p.typing.None?
    case Some(r) =>
      r.i <= |r.fullText| && r.currentText == r.fullText[..r.i] &&
      p.typing == Some(Typing(r.messageId, r.currentText))
  }

  // ---------------------------------------------------------------------
  // Sending

  /** The body of the request to the chat endpoint. */
  datatype ChatRequest = ChatRequest(message: string, chatId: string)

  datatype Sent = Sent(pane: Pane, request: Option<ChatRequest>)

  /** Send: with a blank input or no active chat nothing happens and nothing
      is requested; otherwise the input becomes a user message at the end of
      the active chat, the input is cleared, loading starts and the untrimmed
      input is posted with the chat id. */
  function SendMessage(p: Pane, id: string, now: int): (r: Sent)
    ensures r.request.None? <==> IsBlank(p.input) || !Truthy(p.activeChat)
    ensures r.request.None? ==> r.pane == p
    ensures r.request.Some? ==>
              r.request.value == ChatRequest(p.input, p.activeChat.value) &&
              r.pane.chats == AppendMessage(p.chats, p.activeChat.value, Message(id, User, p.input, now)) &&
              r.pane.input == "" && r.pane.isLoading &&
              r.pane.activeChat == p.activeChat && r.pane.typing == p.typing && r.pane.timer == p.timer
    ensures Inv(p) ==> Inv(r.pane)
  {
    TrimEmptyIffBlank(p.input);
    if Trim(p.input) == "" || !Truthy(p.activeChat) then Sent(p, None)
    else
      var userMessage := Message(id, User, p.input, now);
      Sent(p.(chats := AppendMessage(p.chats, p.activeChat.value, userMessage),
              input := "", isLoading := true),
           Some(ChatRequest(p.input, p.activeChat.value)))
  }

  /** A failed request only ends loading. */
  function RequestFailed(p: Pane): (r: Pane)
    ensures !r.isLoading
    ensures r.(isLoading := p.isLoading) == p
  {
    p.(isLoading := false)
  }

  // ---------------------------------------------------------------------
  // The reveal

  /** Starting a reveal sets the marker to the target with empty content and
      starts the timer at index 0. */
  function StartTyping(p: Pane, fullText: string, messageId: string, chatId: string): (r: Pane)
    ensures Inv(r)
    ensures r.typing == Some(Typing(messageId, ""))
    ensures r.timer.Some? && r.timer.value.i == 0 && r.timer.value.fullText == fullText
    ensures r.timer.value.messageId == messageId && r.timer.value.chatId == chatId
    ensures r.(typing := p.typing, timer := p.timer) == p
  {
    p.(typing := Some(Typing(messageId, "")), timer := Some(Reveal(fullText, messageId, chatId, 0, "")))
  }

  /** The id of a reply placeholder created at clock reading `stamp`. */
  function PlaceholderId(stamp: string): string
  {
    "typing-" + stamp
  }

  /** A reply for `chatId` arrived: an empty assistant placeholder is put at
      the end of that chat and the reveal of `text` into it starts. */
  function ReplyArrived(p: Pane, chatId: string, text: string, stamp: string, now: int): (r: Pane)
    ensures Inv(r)
    ensures r.chats == AppendMessage(p.chats, chatId, Message(PlaceholderId(stamp), Assistant, "", now))
    ensures r.typing == Some(Typing(PlaceholderId(stamp), ""))
    ensures r.timer == Some(Reveal(text, PlaceholderId(stamp), chatId, 0, ""))
    ensures r.(chats := p.chats, typing := p.typing, timer := p.timer) == p
  {
    var placeholder := Message(PlaceholderId(stamp), Assistant, "", now);
    StartTyping(p.(chats := AppendMessage(p.chats, chatId, placeholder)), text, placeholder.id, chatId)
  }

  /** The chat endpoint's reply goes to the chat the request was sent for. */
  function ReceiveChatReply(p: Pane, req: ChatRequest, data: string, stamp: string, now: int): (r: Pane)
    ensures Inv(r)
    ensures r.chats == AppendMessage(p.chats, req.chatId, Message(PlaceholderId(stamp), Assistant, "", now))
    ensures r.typing == Some(Typing(PlaceholderId(stamp), ""))
    ensures r.timer == Some(Reveal(data, PlaceholderId(stamp), req.chatId, 0, ""))
    ensures r.(chats := p.chats, typing := p.typing, timer := p.timer) == p
  {
    ReplyArrived(p, req.chatId, data, stamp, now)
  }

  /** One interval tick. With no timer nothing happens. While characters
      remain, the next one is added to the accumulated text and the marker
      shows it; nothing else changes. When all are shown, the timer stops,
      the target message in the captured chat is stored with the full text
      (same id, role assistant), and marker and loading are cleared. */
  function Tick(p: Pane, now: int): (r: Pane)
    ensures p.timer.None? ==> r == p
    ensures Inv(p) ==> Inv(r)
    ensures r.activeChat == p.activeChat && r.input == p.input
    ensures p.timer.Some? && p.timer.value.i < |p.timer.value.fullText| ==>
              var t := p.timer.value;
              r.chats == p.chats && r.isLoading == p.isLoading &&
              r.timer == Some(t.(i := t.i + 1, currentText := t.currentText + [t.fullText[t.i]])) &&
              r.typing == Some(Typing(t.messageId, t.currentText + [t.fullText[t.i]]))
    ensures Inv(p) && p.timer.Some? && p.timer.value.i < |p.timer.value.fullText| ==>
              var t := p.timer.value;
              r.typing == Some(Typing(t.messageId, t.fullText[..t.i + 1]))
    ensures p.timer.Some? && p.timer.value.i >= |p.timer.value.fullText| ==>
              var t := p.timer.value;
              r.timer.None? && r.typing.None? && !r.isLoading &&
              r.chats == ReplaceInChat(p.chats, Some(t.chatId), t.messageId,
                                       Message(t.messageId, Assistant, t.fullText, now))
  {
    match p.timer
    case None => p
    case Some(t) =>
      if t.i < |t.fullText| then
        var currentText := t.currentText + [t.fullText[t.i]];
        p.(typing := Some(Typing(t.messageId, currentText)),
           timer := Some(t.(i := t.i + 1, currentText := currentText)))
      else
        var finalMessage := Message(t.messageId, Assistant, t.fullText, now);
        p.(chats := ReplaceInChat(p.chats, Some(t.chatId), t.messageId, finalMessage),
           typing := None, isLoading := false, timer := None)
  }

  /** `k` ticks in a row, all at clock reading `now`. */
  function Ticks(p: Pane, k: nat, now: int): (r: Pane)
    ensures Inv(p) ==> Inv(r)
  {
    if k == 0 then p else Tick(Ticks(p, k - 1, now), now)
  }

  /** Stop. With no timer nothing happens. Otherwise the timer stops and, when
      a marker exists, the marked message in the chat active NOW is stored
      with the accumulated text, and marker and loading are cleared. */
  function Stop(p: Pane, now: int): (r: Pane)
    ensures p.timer.None? ==> r == p
    ensures r.timer.None?
    ensures Inv(p) ==> Inv(r) && r.typing.None?
    ensures p.timer.Some? && p.typing.Some? ==>
              var t := p.typing.value;
              !r.isLoading &&
              r.chats == ReplaceInChat(p.chats, p.activeChat, t.id, Message(t.id, Assistant, t.content, now))
    ensures r.activeChat == p.activeChat && r.input == p.input
  {
    if p.timer.None? then p
    else
      match p.typing
      case None => p.(timer := None)
      case Some(t) =>
        var finalMessage := Message(t.id, Assistant, t.content, now);
        p.(timer := None,
           chats := ReplaceInChat(p.chats, p.activeChat, t.id, finalMessage),
           typing := None, isLoading := false)
  }

  /** The content a message displays: the marker's text for the message being
      revealed, its stored content for every other. */
  function MessageContent(typing: Option<Typing>, m: Message): (r: string)
    ensures typing.Some? && typing.value.id == m.id ==> r == typing.value.content
    ensures typing.None? || typing.value.id != m.id ==> r == m.content
  {
    if typing.Some? && typing.value.id == m.id then typing.value.content else m.content
  }

  // ---------------------------------------------------------------------
  // PDF upload

  /** The part of a chosen file the handler looks at. */
  datatype FileInfo = FileInfo(name: string, mimeType: string)

  /** The multipart form posted to the PDF endpoint. */
  datatype PdfRequest = PdfRequest(file: FileInfo, chatId: string)

  /** Ignored: no file list or no active chat. NoFile: the list is empty, so
      reading the first file's type throws before anything else happens.
      Alerted: the first file is not a PDF. Posted: the form was sent. */
  datatype UploadOutcome = Ignored | NoFile | Alerted | Posted(request: PdfRequest)

  datatype Uploaded = Uploaded(pane: Pane, outcome: UploadOutcome)

  const PDF_MIME: string := "application/pdf"
  const PDF_FALLBACK: string := "PDF processed successfully"

  /** File chosen: only the first file counts, it must be declared as a PDF,
      and every refusal happens before any state change or request. */
  function Upload(p: Pane, files: Option<seq<FileInfo>>): (r: Uploaded)
    ensures !r.outcome.Posted? ==> r.pane == p
    ensures r.outcome.Ignored? <==> files.None? || !Truthy(p.activeChat)
    ensures r.outcome.NoFile? <==> files.Some? && Truthy(p.activeChat) && files.value == []
    ensures r.outcome.Alerted? <==>
              files.Some? && Truthy(p.activeChat) && files.value != [] && files.value[0].mimeType != PDF_MIME
    ensures r.outcome.Posted? ==>
              files.Some? && files.value != [] && files.value[0].mimeType == PDF_MIME &&
              r.outcome.request == PdfRequest(files.value[0], p.activeChat.value) &&
              r.pane == p.(isLoading := true)
  {
    if files.None? || !Truthy(p.activeChat) then Uploaded(p, Ignored)
    else if files.value == [] then Uploaded(p, NoFile)
    else if files.value[0].mimeType != PDF_MIME then Uploaded(p, Alerted)
    else Uploaded(p.(isLoading := true), Posted(PdfRequest(files.value[0], p.activeChat.value)))
  }

  /** The text revealed for a PDF reply: the body, or the fallback when the
      body is empty. */
  function PdfReplyText(data: string): (t: string)
    ensures t != ""
    ensures data != "" ==> t == data
    ensures data == "" ==> t == PDF_FALLBACK
  {
    if data == "" then PDF_FALLBACK else data
  }

  /** The PDF endpoint's reply goes to the chat the form was sent for. */
  function ReceivePdfReply(p: Pane, req: PdfRequest, data: string, stamp: string, now: int): (r: Pane)
    ensures Inv(r)
    ensures r.chats == AppendMessage(p.chats, req.chatId, Message(PlaceholderId(stamp), Assistant, "", now))
    ensures r.typing == Some(Typing(PlaceholderId(stamp), ""))
    ensures r.timer.Some? && r.timer.value.fullText == PdfReplyText(data) && r.timer.value.fullText != ""
    ensures r.timer == Some(Reveal(PdfReplyText(data), PlaceholderId(stamp), req.chatId, 0, ""))
    ensures r.(chats := p.chats, typing := p.typing, timer := p.timer) == p
  {
    ReplyArrived(p, req.chatId, PdfReplyText(data), stamp, now)
  }
}
