/**
 * Whole sessions of the chat component, each run from the first render: what the
 * user sees and what went out at the end. Each one pins down one behaviour of the
 * controller that only shows across several events.
 */
module ChatScenarios {
  import opened Options
  import opened ChatModel
  import opened ChatRoom

  /** The server's interim notice, without its framing. */
  const Thinking: string := "Je réfléchis..."

  /**
   * One question, as the server answers it: first the framed interim notice, then
   * the framed answer. The transcript gains the question and two bot messages, the
   * typing indicator is already off after the notice, the question goes out once on
   * the first socket, and the history is requested three times (on mount and after
   * each frame).
   */
  method GreetingExchange(now: string, answer: string)
      returns (messages: seq<Message>, typingAfterNotice: bool, typingAtEnd: bool, sent: seq<Frame>, historyRequests: nat)
    ensures messages == [BotMessage(WelcomeText, now), UserMessage("Bonjour", now),
                         BotMessage(Thinking, now), BotMessage(answer, now)]
    ensures !typingAfterNotice && !typingAtEnd
    ensures sent == [Frame(0, "Bonjour")]
    ensures historyRequests == 3
  {
    var c := new Component(now);
    c.RunEffect(Some("jwt"));
    c.OnOpen(0);
    c.Type("Bonjour");
    c.HandleSend(now);
    assert c.state.isTyping;
    StripFramed(Thinking);
    c.OnMessage(0, ServerFrame(Thinking), now);
    typingAfterNotice := c.state.isTyping;
    StripFramed(answer);
    c.OnMessage(0, ServerFrame(answer), now);
    messages, typingAtEnd, sent, historyRequests := c.state.messages, c.state.isTyping, c.env.sent, c.env.historyRequests;
  }

  /** The Enter key sends a second question while the first is still unanswered. */
  method EnterSendsWhileTyping(now: string) returns (sent: seq<Frame>)
    ensures sent == [Frame(0, "Un"), Frame(0, "Deux")]
  {
    var c := new Component(now);
    c.RunEffect(Some("jwt"));
    c.OnOpen(0);
    c.Type("Un");
    c.HandleSend(now);
    c.Type("Deux");
    c.HandleSend(now);
    sent := c.env.sent;
  }

  /** The send button, pressed in the same situation, sends nothing the second time. */
  method ButtonWaitsForAnswer(now: string) returns (sent: seq<Frame>, input: string)
    ensures sent == [Frame(0, "Un")] && input == "Deux"
  {
    var c := new Component(now);
    c.RunEffect(Some("jwt"));
    c.OnOpen(0);
    c.Type("Un");
    c.ClickSend(now);
    c.Type("Deux");
    c.ClickSend(now);
    sent, input := c.env.sent, c.state.inputValue;
  }

  /**
   * A transport error and the close that follows: the header shows the error, then
   * "disconnected", one 3000 ms timer is pending, and when it fires a second socket
   * is created while the status goes back to `connecting`.
   */
  method ErrorThenReconnect(now: string)
      returns (afterError: WsStatus, afterClose: WsStatus, delays: seq<nat>, afterTimer: WsStatus, sockets: seq<ReadyState>)
    ensures afterError == Error && afterClose == Disconnected && afterTimer == Connecting
    ensures delays == [ReconnectDelayMs]
    ensures sockets == [SocketClosed, SocketConnecting]
  {
    var c := new Component(now);
    c.RunEffect(Some("jwt"));
    c.OnOpen(0);
    c.OnError(0);
    afterError := c.state.wsStatus;
    c.OnClose(0);
    afterClose := c.state.wsStatus;
    delays := c.env.reconnectDelays;
    c.OnReconnectTimer(0);
    afterTimer, sockets := c.state.wsStatus, c.env.sockets;
  }

  /**
   * Teardown does not stop reconnection: the cleanup cancels the (absent) timer and
   * closes the socket, the close event then schedules a new timer, and that timer
   * opens a new socket after the component is gone. The screen state is frozen.
   */
  method TeardownStillReconnects(now: string)
      returns (status: WsStatus, delays: seq<nat>, pending: set<nat>, sockets: seq<ReadyState>, current: Option<nat>)
    ensures status == Connected
    ensures delays == [ReconnectDelayMs] && pending == {}
    ensures sockets == [SocketClosed, SocketConnecting] && current == Some(1)
  {
    var c := new Component(now);
    c.RunEffect(Some("jwt"));
    c.OnOpen(0);
    c.Unmount();
    c.OnClose(0);
    assert c.env.pendingReconnects == {0};
    c.OnReconnectTimer(0);
    status, delays, pending := c.state.wsStatus, c.env.reconnectDelays, c.env.pendingReconnects;
    sockets, current := c.env.sockets, c.socketRef;
  }

  /**
   * Without a stored token the component goes to the login page; the header keeps
   * showing "connecting", no socket exists and no history is requested.
   */
  method MissingToken(now: string)
      returns (status: WsStatus, navigations: seq<string>, sockets: seq<ReadyState>, historyRequests: nat)
    ensures status == Connecting && navigations == ["/"]
    ensures sockets == [] && historyRequests == 0
  {
    var c := new Component(now);
    c.RunEffect(None);
    status, navigations, sockets, historyRequests := c.state.wsStatus, c.env.navigations, c.env.sockets, c.env.historyRequests;
  }

  /** An empty stored token is treated like a missing one. */
  method EmptyToken(now: string)
      returns (status: WsStatus, navigations: seq<string>, sockets: seq<ReadyState>, historyRequests: nat)
    ensures status == Connecting && navigations == ["/"]
    ensures sockets == [] && historyRequests == 0
  {
    var c := new Component(now);
    c.RunEffect(Some(""));
    status, navigations, sockets, historyRequests := c.state.wsStatus, c.env.navigations, c.env.sockets, c.env.historyRequests;
  }

  /**
   * After a failed upload the file stays held: the modal's close button does
   * nothing and the drop zone no longer opens the file dialog, so the dialog is
   * stuck until the page is left.
   */
  method FailedUploadIsStuck(now: string, file: File)
      returns (status: UploadStatus, held: Option<File>, modalShown: bool, pickerOpen: bool)
    requires IsPdf(file)
    ensures status == Failed && held == Some(file)
    ensures modalShown && !pickerOpen
  {
    var c := new Component(now);
    c.OpenUploadModal();
    c.OpenPicker();
    c.SelectFile(Some(file));
    c.OnUploadFailed();
    c.CloseUploadModal();
    c.OpenPicker();
    status, held, modalShown, pickerOpen := c.state.uploadStatus, c.state.uploadingFile, c.state.showUploadModal, c.env.pickerOpen;
  }

  /**
   * A successful upload: `uploading` with the file held, then `success`, and when
   * the 2000 ms timer fires the modal is closed, the status is back to `idle`, and
   * the file is released, so the next upload can start.
   */
  method SuccessfulUpload(now: string, file: File)
      returns (during: UploadStatus, after: UploadStatus, held: Option<File>, modalShown: bool,
               requests: seq<File>, resetDelays: seq<nat>)
    requires IsPdf(file)
    ensures during == Success && after == Idle && held == None && !modalShown
    ensures requests == [file] && resetDelays == [UploadResetDelayMs]
  {
    var c := new Component(now);
    c.OpenUploadModal();
    c.OpenPicker();
    c.SelectFile(Some(file));
    c.OnUploadSucceeded();
    during := c.state.uploadStatus;
    c.OnUploadResetTimer();
    after, held, modalShown := c.state.uploadStatus, c.state.uploadingFile, c.state.showUploadModal;
    requests, resetDelays := c.env.uploadRequests, c.env.uploadResetDelays;
  }
}
