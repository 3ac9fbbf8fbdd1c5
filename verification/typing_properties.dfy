/** What the message pane's reveal promises over several steps: the marker
    is always a prefix of the reply, a full run stores the reply exactly,
    stopping stores exactly what was revealed, and the send/reply flow adds
    exactly one user and one assistant message. */
module TypingProperties {
  import opened ChatStore
  import opened ChatInterface

  /** A tick with characters left reveals exactly the next one. */
  lemma TickAdvances(p: Pane, now: int)
    requires Inv(p) && p.timer.Some? && p.timer.value.i < |p.timer.value.fullText|
    ensures var t := p.timer.value;
            var n := t.i + 1;
            Tick(p, now) ==
              p.(typing := Some(Typing(t.messageId, t.fullText[..n])),
                 timer := Some(t.(i := n, currentText := t.fullText[..n])))
  {
    var t := p.timer.value;
    assert t.fullText[..t.i] + [t.fullText[t.i]] == t.fullText[..t.i + 1];
  }

  /** While characters remain, `k` ticks reveal exactly `k` more characters:
      the accumulated text and the marker are the first `i + k` characters of
      the reply, and nothing else changes. */
  lemma {:induction false} TicksReveal(p: Pane, k: nat, now: int)
    requires Inv(p) && p.timer.Some?
    requires p.timer.value.i + k <= |p.timer.value.fullText|
    ensures var t := p.timer.value;
            var n := t.i + k;
            Ticks(p, k, now) ==
              p.(typing := Some(Typing(t.messageId, t.fullText[..n])),
                 timer := Some(t.(i := n, currentText := t.fullText[..n])))
  {
    if k > 0 {
      TicksReveal(p, k - 1, now);
      TickAdvances(Ticks(p, k - 1, now), now);
    }
  }

  /** Revealing a text of length N: after N ticks the marker shows the whole
      text and no message has been stored yet; tick N + 1 stores the text
      exactly into the target message of the captured chat and ends the
      reveal; later ticks change nothing. */
  lemma RevealCompletes(q: Pane, text: string, id: string, chatId: string, now: int)
    ensures var p := StartTyping(q, text, id, chatId);
            Ticks(p, |text|, now).typing == Some(Typing(id, text)) &&
            Ticks(p, |text|, now).chats == q.chats
    ensures var done := Ticks(StartTyping(q, text, id, chatId), |text| + 1, now);
            done == q.(chats := ReplaceInChat(q.chats, Some(chatId), id, Message(id, Assistant, text, now)),
                       isLoading := false, typing := None, timer := None) &&
            Tick(done, now) == done
  {
    var p := StartTyping(q, text, id, chatId);
    TicksReveal(p, |text|, now);
    assert text[..|text|] == text;
  }

  /** Stopping after `k` productive ticks, with the reveal's chat still
      active, stores exactly the first `k` characters (not the whole text) and
      ends the reveal; a second stop changes nothing. */
  lemma StopFinalizesPrefix(q: Pane, text: string, id: string, chatId: string, k: nat, now: int)
    requires k <= |text|
    requires q.activeChat == Some(chatId)
    ensures var stopped := Stop(Ticks(StartTyping(q, text, id, chatId), k, now), now);
            stopped == q.(chats := ReplaceInChat(q.chats, Some(chatId), id, Message(id, Assistant, text[..k], now)),
                          isLoading := false, typing := None, timer := None) &&
            Stop(stopped, now) == stopped
  {
    var p := StartTyping(q, text, id, chatId);
    TicksReveal(p, k, now);
    var revealed := Ticks(p, k, now);
    assert revealed.typing == Some(Typing(id, text[..k])) && revealed.timer.Some?;
    assert revealed.chats == q.chats && revealed.activeChat == Some(chatId);
    var stopped := Stop(revealed, now);
    assert stopped.chats == ReplaceInChat(q.chats, Some(chatId), id, Message(id, Assistant, text[..k], now));
  }

  /** During a reveal the target message displays the accumulated text, a
      prefix of the reply; every other message displays its stored content. */
  lemma DisplayedDuringReveal(p: Pane, m: Message)
    requires Inv(p)
    ensures p.timer.Some? && m.id == p.timer.value.messageId ==>
              var t := p.timer.value;
              MessageContent(p.typing, m) == t.fullText[..t.i] &&
              MessageContent(p.typing, m) <= t.fullText
    ensures p.timer.None? || m.id != p.timer.value.messageId ==>
              MessageContent(p.typing, m) == m.content
  {
  }

  /** Stopping with the reveal's chat active loses nothing that was on
      screen: each message of that chat is stored with the content it
      displayed just before the stop. */
  lemma StopKeepsDisplayed(p: Pane, now: int, c: nat, j: nat)
    requires Inv(p) && p.timer.Some? && p.activeChat == Some(p.timer.value.chatId)
    requires c < |p.chats| && p.chats[c].id == p.timer.value.chatId
    requires j < |p.chats[c].messages|
    ensures var m := p.chats[c].messages[j];
            var stored := Stop(p, now).chats[c].messages[j];
            stored.content == MessageContent(p.typing, m) &&
            stored.id == m.id
  {
  }

  /** What the code does when the user switches chats during a reveal and
      then stops: the stop looks in the chat active now, so when that chat has
      no message with the placeholder's id the chat list is unchanged, the
      marker and the timer are gone, and no later tick ever stores the
      revealed text; the placeholder keeps its old content. */
  lemma StopAfterSwitchStoresNothing(p: Pane, now: int, k: nat)
    requires Inv(p) && p.timer.Some?
    requires forall c :: 0 <= c < |p.chats| && Some(p.chats[c].id) == p.activeChat ==>
               FreshId(p.chats[c].messages, p.timer.value.messageId)
    ensures Stop(p, now).chats == p.chats
    ensures Stop(p, now).typing.None? && Stop(p, now).timer.None?
    ensures Ticks(Stop(p, now), k, now) == Stop(p, now)
  {
    var t := p.typing.value;
    var r := ReplaceInChat(p.chats, p.activeChat, t.id, Message(t.id, Assistant, t.content, now));
    forall c | 0 <= c < |p.chats| ensures r[c] == p.chats[c] {
      if Some(p.chats[c].id) == p.activeChat {
        assert r[c].messages == p.chats[c].messages;
      }
    }
    StoppedStaysIdle(Stop(p, now), k, now);
  }

  /** With no timer, any number of ticks changes nothing. */
  lemma {:induction false} StoppedStaysIdle(p: Pane, k: nat, now: int)
    requires p.timer.None?
    ensures Ticks(p, k, now) == p
  {
    if k > 0 {
      StoppedStaysIdle(p, k - 1, now);
    }
  }

  /** A reply for an existing chat, revealed to the end, leaves that chat's
      messages as they were plus one assistant message holding the reply,
      provided the placeholder id is new there; every other chat is
      unchanged. */
  lemma ReplyRoundTrip(q: Pane, chatId: string, text: string, stamp: string, t0: int, now: int)
    requires FindChat(q.chats, Some(chatId)).Some?
    requires FreshId(ActiveMessages(q.chats, Some(chatId)), PlaceholderId(stamp))
    ensures var r := Ticks(ReplyArrived(q, chatId, text, stamp, t0), |text| + 1, now);
            ActiveMessages(r.chats, Some(chatId)) ==
              ActiveMessages(q.chats, Some(chatId)) + [Message(PlaceholderId(stamp), Assistant, text, now)] &&
            |r.chats| == |q.chats| &&
            (forall c :: 0 <= c < |q.chats| && q.chats[c].id != chatId ==> r.chats[c] == q.chats[c]) &&
            r.typing.None? && r.timer.None? && !r.isLoading
  {
    var id := PlaceholderId(stamp);
    var placeholder := Message(id, Assistant, "", t0);
    var final := Message(id, Assistant, text, now);
    var appended := AppendMessage(q.chats, chatId, placeholder);
    var q1 := q.(chats := appended);
    assert ReplyArrived(q, chatId, text, stamp, t0) == StartTyping(q1, text, id, chatId);
    RevealCompletes(q1, text, id, chatId, now);
    var replaced := ReplaceInChat(appended, Some(chatId), id, final);
    var r := Ticks(ReplyArrived(q, chatId, text, stamp, t0), |text| + 1, now);
    assert r.chats == replaced && r.typing.None? && r.timer.None? && !r.isLoading;
    AppendShowsInActive(q.chats, chatId, placeholder);
    FindChatSameIds(q.chats, appended, Some(chatId));
    ReplaceShowsInActive(appended, chatId, id, final);
    ReplaceAppended(ActiveMessages(q.chats, Some(chatId)), placeholder, final);
    assert ActiveMessages(replaced, Some(chatId)) == ActiveMessages(q.chats, Some(chatId)) + [final];
  }

  /** A send with a non-blank input in an existing active chat shows the
      user's message at the end of that chat and requests the reply. */
  lemma SendShowsInActive(p: Pane, userId: string, t0: int)
    requires !IsBlank(p.input) && Truthy(p.activeChat)
    requires FindChat(p.chats, p.activeChat).Some?
    ensures var sent := SendMessage(p, userId, t0);
            sent.request == Some(ChatRequest(p.input, p.activeChat.value)) &&
            FindChat(sent.pane.chats, p.activeChat).Some? &&
            ActiveMessages(sent.pane.chats, p.activeChat) ==
              ActiveMessages(p.chats, p.activeChat) + [Message(userId, User, p.input, t0)]
  {
    var chatId := p.activeChat.value;
    var sent := SendMessage(p, userId, t0);
    var userMessage := Message(userId, User, p.input, t0);
    assert sent.pane.chats == AppendMessage(p.chats, chatId, userMessage);
    AppendShowsInActive(p.chats, chatId, userMessage);
    FindChatSameIds(p.chats, sent.pane.chats, p.activeChat);
  }

  /** The chat endpoint's reply, revealed to the end, adds exactly one
      assistant message holding the reply to the chat the request was sent
      for, and ends loading and the marker. */
  lemma ChatReplyRoundTrip(q: Pane, req: ChatRequest, data: string, stamp: string, t0: int, now: int)
    requires FindChat(q.chats, Some(req.chatId)).Some?
    requires FreshId(ActiveMessages(q.chats, Some(req.chatId)), PlaceholderId(stamp))
    ensures var r := Ticks(ReceiveChatReply(q, req, data, stamp, t0), |data| + 1, now);
            ActiveMessages(r.chats, Some(req.chatId)) ==
              ActiveMessages(q.chats, Some(req.chatId)) + [Message(PlaceholderId(stamp), Assistant, data, now)] &&
            !r.isLoading && r.typing.None?
  {
    assert ReceiveChatReply(q, req, data, stamp, t0) == ReplyArrived(q, req.chatId, data, stamp, t0);
    ReplyRoundTrip(q, req.chatId, data, stamp, t0, now);
  }

  /** A send with a non-blank input in an existing active chat, followed by
      the reply revealed to the end, adds exactly two messages to that chat:
      the user's input, then the assistant's reply. */
  lemma SendThenReply(p: Pane, userId: string, t0: int, data: string, stamp: string, t1: int, now: int)
    requires !IsBlank(p.input) && Truthy(p.activeChat)
    requires FindChat(p.chats, p.activeChat).Some?
    requires FreshId(ActiveMessages(p.chats, p.activeChat), PlaceholderId(stamp))
    requires userId != PlaceholderId(stamp)
    ensures var sent := SendMessage(p, userId, t0);
            sent.request == Some(ChatRequest(p.input, p.activeChat.value)) &&
            var r := Ticks(ReceiveChatReply(sent.pane, sent.request.value, data, stamp, t1), |data| + 1, now);
            ActiveMessages(r.chats, p.activeChat) ==
              ActiveMessages(p.chats, p.activeChat) +
              [Message(userId, User, p.input, t0), Message(PlaceholderId(stamp), Assistant, data, now)] &&
            !r.isLoading && r.typing.None?
  {
    var sent := SendMessage(p, userId, t0);
    var userMessage := Message(userId, User, p.input, t0);
    var final := Message(PlaceholderId(stamp), Assistant, data, now);
    var before := ActiveMessages(p.chats, p.activeChat);
    SendShowsInActive(p, userId, t0);
    var req := sent.request.value;
    assert Some(req.chatId) == p.activeChat;
    assert FreshId(before + [userMessage], PlaceholderId(stamp));
    ChatReplyRoundTrip(sent.pane, req, data, stamp, t1, now);
    assert (before + [userMessage]) + [final] == before + [userMessage, final];
  }

  /** A PDF reply is never revealed as empty text: a full run stores the
      body, or the fallback text when the body is empty. */
  lemma PdfReplyRoundTrip(q: Pane, req: PdfRequest, data: string, stamp: string, t0: int, now: int)
    requires FindChat(q.chats, Some(req.chatId)).Some?
    requires FreshId(ActiveMessages(q.chats, Some(req.chatId)), PlaceholderId(stamp))
    ensures var r := Ticks(ReceivePdfReply(q, req, data, stamp, t0), |PdfReplyText(data)| + 1, now);
            ActiveMessages(r.chats, Some(req.chatId)) ==
              ActiveMessages(q.chats, Some(req.chatId)) +
              [Message(PlaceholderId(stamp), Assistant, if data == "" then PDF_FALLBACK else data, now)]
  {
    ReplyRoundTrip(q, req.chatId, PdfReplyText(data), stamp, t0, now);
  }

  /** The worked example: revealing "Hello" shows "Hel" after three ticks;
      stopping then stores "Hel"; stopping again changes nothing. */
  lemma HelloExample(now: int)
    ensures var placeholder := Message("typing-1", Assistant, "", 0);
            var q := Pane([Chat("1", "New Chat 1", [placeholder], 0)], Some("1"), "", true, None, None);
            var p := Ticks(StartTyping(q, "Hello", "typing-1", "1"), 3, now);
            var stopped := Stop(p, now);
            MessageContent(p.typing, placeholder) == "Hel" &&
            stopped.chats == [Chat("1", "New Chat 1", [Message("typing-1", Assistant, "Hel", now)], 0)] &&
            Stop(stopped, now) == stopped
  {
    var placeholder := Message("typing-1", Assistant, "", 0);
    var q := Pane([Chat("1", "New Chat 1", [placeholder], 0)], Some("1"), "", true, None, None);
    var p := StartTyping(q, "Hello", "typing-1", "1");
    TicksReveal(p, 3, now);
    assert "Hello"[..3] == "Hel";
    var final := Message("typing-1", Assistant, "Hel", now);
    assert ReplaceById([placeholder], "typing-1", final) == [final];
    var stored := ReplaceInChat(q.chats, Some("1"), "typing-1", final);
    assert stored[0] == Chat("1", "New Chat 1", [final], 0);
    assert Stop(Ticks(p, 3, now), now).chats == stored;
  }
}
