/**
 * The session controller hidden in the `ChatRoom` component: its React state, its
 * two refs (the current socket and the last reconnect timer), and one method per
 * callback or handler. The browser is part of the state too: every socket the
 * component created with its ready state, the pending timers, the file dialog, and
 * logs of what went out (frames sent, history and upload requests, navigations).
 *
 * React drops a state update made after the component has unmounted, so every
 * callback that can run late writes the React state only while `mounted`; its
 * other effects (timers, sockets, requests) take place regardless.
 */
module ChatRoom {
  import opened Options
  import opened ChatModel

  /** The ready state of a browser WebSocket; `SocketClosing` also covers "failed, close event pending". */
  datatype ReadyState = SocketConnecting | SocketOpen | SocketClosing | SocketClosed

  /** One text frame handed to `socket.send`: which socket (by creation order) and what. */
  datatype Frame = Frame(socket: nat, data: string)

  /** The delays, in milliseconds, of the two `setTimeout` calls. */
  const ReconnectDelayMs: nat := 3000
  const UploadResetDelayMs: nat := 2000

  /** The eight modelled `useState` cells of the component (`sidebarOpen` belongs to the sidebar toggle); each setter replaces one component. */
  datatype UiState = UiState(
    wsStatus: WsStatus,
    messages: seq<Message>,
    isTyping: bool,
    history: seq<HistoryItem>,
    inputValue: string,
    uploadStatus: UploadStatus,
    uploadingFile: Option<File>,
    showUploadModal: bool)

  /**
   * What the component sees of the browser and of the servers: the sockets it
   * created (indexed by creation order), the delay of every reconnect timer it set
   * (indexed by timer id) and the ids still pending, the delay of every upload-reset
   * timer it set and how many of those are still pending,
   * whether the file dialog is open, whether the component is on screen, and the
   * logs of frames sent, history requests (issued and unanswered), upload requests
   * (issued and unanswered) and navigations.
   */
  datatype Env = Env(
    sockets: seq<ReadyState>,
    reconnectDelays: seq<nat>,
    pendingReconnects: set<nat>,
    uploadResetDelays: seq<nat>,
    pendingUploadResets: nat,
    pickerOpen: bool,
    mounted: bool,
    sent: seq<Frame>,
    historyRequests: nat,
    historyPending: nat,
    uploadRequests: seq<File>,
    uploadPending: nat,
    navigations: seq<string>)

  /** `!token`: no stored token, or the empty string, which JavaScript also treats as false. */
  predicate NoToken(token: Option<string>)
  {
    token.None? || token.value == ""
  }

  /** `socketRef.current?.readyState === WebSocket.OPEN`. */
  predicate IsOpen(sockets: seq<ReadyState>, socketRef: Option<nat>)
  {
    socketRef.Some? && socketRef.value < |sockets| && sockets[socketRef.value] == SocketOpen
  }

  /**
   * The upload workflow while the component is on screen: a file is held exactly
   * when the status is not idle, the one request in flight belongs to `uploading`,
   * the one pending reset timer to `success`, and the dialog opens from `idle` only.
   */
  ghost predicate UploadConsistent(s: UiState, env: Env)
  {
    && (s.uploadStatus == Idle <==> s.uploadingFile.None?)
    && env.uploadPending == (if s.uploadStatus == Uploading then 1 else 0)
    && env.pendingUploadResets == (if s.uploadStatus == Success then 1 else 0)
    && (env.pickerOpen ==> s.uploadStatus == Idle)
  }

  /**
   * The transcript is never empty (the history entries keep its first message), the
   * refs name a socket and a timer that exist, and so does every pending timer.
   */
  ghost predicate Invariant(s: UiState, socketRef: Option<nat>, reconnectTimeoutRef: Option<nat>, env: Env)
  {
    && |s.messages| >= 1
    && (socketRef.Some? ==> socketRef.value < |env.sockets|)
    && (reconnectTimeoutRef.Some? ==> reconnectTimeoutRef.value < |env.reconnectDelays|)
    && (forall t :: t in env.pendingReconnects ==> t < |env.reconnectDelays|)
    && (env.mounted ==> UploadConsistent(s, env))
  }

  class Component {
    /** The React state. */
    var state: UiState
    /** `socketRef.current`: the socket last created, by index into `env.sockets`. */
    var socketRef: Option<nat>
    /** `reconnectTimeoutRef.current`: the reconnect timer last set, by id. */
    var reconnectTimeoutRef: Option<nat>
    /** The browser and the logs. */
    var env: Env

    ghost predicate Valid()
      reads this
    {
      Invariant(state, socketRef, reconnectTimeoutRef, env)
    }

    predicate CurrentOpen()
      reads this
    {
      IsOpen(env.sockets, socketRef)
    }

    /** The first render: the welcome message, status `connecting`, nothing else yet. */
    constructor (now: string)
      ensures Valid()
      ensures state == UiState(Connecting, [BotMessage(WelcomeText, now)], false, [], "", Idle, None, false)
      ensures socketRef == None && reconnectTimeoutRef == None
      ensures env == Env([], [], {}, [], 0, false, true, [], 0, 0, [], 0, [])
    {
      state := UiState(Connecting, [BotMessage(WelcomeText, now)], false, [], "", Idle, None, false);
      socketRef := None;
      reconnectTimeoutRef := None;
      env := Env([], [], {}, [], 0, false, true, [], 0, 0, [], 0, []);
    }

    // -------------------------------------------------------------------------
    // The connection effect

    /** `fetchHistory()`: one request to the history endpoint. */
    method FetchHistory()
      modifies this`env
      ensures env == old(env).(historyRequests := old(env.historyRequests) + 1,
                               historyPending := old(env.historyPending) + 1)
    {
      env := env.(historyRequests := env.historyRequests + 1, historyPending := env.historyPending + 1);
    }

    /**
     * `connectWebSocket`: nothing when the current socket is open; otherwise status
     * `connecting` and a new socket, which becomes the current one.
     */
    method ConnectWebSocket()
      requires Valid()
      modifies this`state, this`socketRef, this`env
      ensures Valid()
      ensures old(CurrentOpen()) ==> state == old(state) && socketRef == old(socketRef) && env == old(env)
      ensures !old(CurrentOpen()) ==>
        && state == (if old(env.mounted) then old(state).(wsStatus := Connecting) else old(state))
        && socketRef == Some(|old(env.sockets)|)
        && env == old(env).(sockets := old(env.sockets) + [SocketConnecting])
    {
      if CurrentOpen() {
        return;
      }
      if env.mounted {
        state := state.(wsStatus := Connecting);
      }
      env := env.(sockets := env.sockets + [SocketConnecting]);
      socketRef := Some(|env.sockets| - 1);
    }

    /**
     * The mount effect: without a stored token (none, or an empty one) it navigates
     * to the login page and does nothing else (the status stays `connecting` from the
     * first render, or whatever it was); with one it requests the history and then
     * connects.
     */
    method RunEffect(token: Option<string>)
      requires Valid() && env.mounted
      modifies this`state, this`socketRef, this`env
      ensures Valid()
      ensures NoToken(token) ==>
        state == old(state) && socketRef == old(socketRef) && env == old(env).(navigations := old(env.navigations) + ["/"])
      ensures !NoToken(token) && old(CurrentOpen()) ==>
        && state == old(state) && socketRef == old(socketRef)
        && env == old(env).(historyRequests := old(env.historyRequests) + 1,
                            historyPending := old(env.historyPending) + 1)
      ensures !NoToken(token) && !old(CurrentOpen()) ==>
        && state == old(state).(wsStatus := Connecting)
        && socketRef == Some(|old(env.sockets)|)
        && env == old(env).(historyRequests := old(env.historyRequests) + 1,
                            historyPending := old(env.historyPending) + 1,
                            sockets := old(env.sockets) + [SocketConnecting])
    {
      if NoToken(token) {
        env := env.(navigations := env.navigations + ["/"]);
        return;
      }
      FetchHistory();
      ConnectWebSocket();
    }

    /** The effect's cleanup: cancel the last reconnect timer, then close the current socket. */
    method Cleanup()
      requires Valid()
      modifies this`env
      ensures Valid()
      ensures env == old(env).(
        pendingReconnects := if old(reconnectTimeoutRef).Some?
          then old(env.pendingReconnects) - {old(reconnectTimeoutRef).value}
          else old(env.pendingReconnects),
        sockets := if old(socketRef).Some? && old(env.sockets)[old(socketRef).value] in {SocketConnecting, SocketOpen}
          then old(env.sockets)[old(socketRef).value := SocketClosing]
          else old(env.sockets))
    {
      if reconnectTimeoutRef.Some? {
        env := env.(pendingReconnects := env.pendingReconnects - {reconnectTimeoutRef.value});
      }
      if socketRef.Some? && env.sockets[socketRef.value] in {SocketConnecting, SocketOpen} {
        env := env.(sockets := env.sockets[socketRef.value := SocketClosing]);
      }
    }

    /** Unmounting runs the cleanup; from then on React ignores the component's state updates. */
    method Unmount()
      requires Valid() && env.mounted
      modifies this`env
      ensures Valid()
      ensures env == old(env).(
        pendingReconnects := if old(reconnectTimeoutRef).Some?
          then old(env.pendingReconnects) - {old(reconnectTimeoutRef).value}
          else old(env.pendingReconnects),
        sockets := if old(socketRef).Some? && old(env.sockets)[old(socketRef).value] in {SocketConnecting, SocketOpen}
          then old(env.sockets)[old(socketRef).value := SocketClosing]
          else old(env.sockets),
        mounted := false)
    {
      Cleanup();
      env := env.(mounted := false);
    }

    // -------------------------------------------------------------------------
    // The socket's handlers; `id` is the socket the browser delivers the event on

    /** `onopen`: the handshake completed. */
    method OnOpen(id: nat)
      requires Valid() && id < |env.sockets| && env.sockets[id] == SocketConnecting
      modifies this`state, this`env
      ensures Valid()
      ensures state == if old(env.mounted) then old(state).(wsStatus := Connected) else old(state)
      ensures env == old(env).(sockets := old(env.sockets)[id := SocketOpen])
    {
      env := env.(sockets := env.sockets[id := SocketOpen]);
      if env.mounted {
        state := state.(wsStatus := Connected);
      }
    }

    /**
     * `onmessage`: typing stops, the payload less its " : " is appended as one
     * incoming bot message, and the history is requested again.
     */
    method OnMessage(id: nat, data: string, now: string)
      requires Valid() && id < |env.sockets| && env.sockets[id] == SocketOpen
      modifies this`state, this`env
      ensures Valid()
      ensures state == if old(env.mounted)
        then old(state).(isTyping := false, messages := old(state.messages) + [BotMessage(StripPrefix(data), now)])
        else old(state)
      ensures env == old(env).(historyRequests := old(env.historyRequests) + 1,
                               historyPending := old(env.historyPending) + 1)
    {
      if env.mounted {
        state := state.(isTyping := false, messages := state.messages + [BotMessage(StripPrefix(data), now)]);
      }
      FetchHistory();
    }

    /** `onerror`: status `error` and typing stops; the browser then delivers `close`. */
    method OnError(id: nat)
      requires Valid() && id < |env.sockets| && env.sockets[id] != SocketClosed
      modifies this`state, this`env
      ensures Valid()
      ensures state == if old(env.mounted) then old(state).(wsStatus := Error, isTyping := false) else old(state)
      ensures env == old(env).(sockets := old(env.sockets)[id := SocketClosing])
    {
      env := env.(sockets := env.sockets[id := SocketClosing]);
      if env.mounted {
        state := state.(wsStatus := Error, isTyping := false);
      }
    }

    /**
     * `onclose`: status `disconnected` and one new reconnect timer of 3000 ms, which
     * the ref now holds. Nothing counts attempts, so this happens on every close,
     * also on the close that the cleanup itself causes.
     */
    method OnClose(id: nat)
      requires Valid() && id < |env.sockets| && env.sockets[id] != SocketClosed
      modifies this`state, this`reconnectTimeoutRef, this`env
      ensures Valid()
      ensures state == if old(env.mounted) then old(state).(wsStatus := Disconnected) else old(state)
      ensures reconnectTimeoutRef == Some(|old(env.reconnectDelays)|)
      ensures env == old(env).(
        sockets := old(env.sockets)[id := SocketClosed],
        reconnectDelays := old(env.reconnectDelays) + [ReconnectDelayMs],
        pendingReconnects := old(env.pendingReconnects) + {|old(env.reconnectDelays)|})
    {
      if env.mounted {
        state := state.(wsStatus := Disconnected);
      }
      var t := |env.reconnectDelays|;
      env := env.(sockets := env.sockets[id := SocketClosed],
                  reconnectDelays := env.reconnectDelays + [ReconnectDelayMs],
                  pendingReconnects := env.pendingReconnects + {t});
      reconnectTimeoutRef := Some(t);
    }

    /** A reconnect timer fires and calls `connectWebSocket`. */
    method OnReconnectTimer(t: nat)
      requires Valid() && t in env.pendingReconnects
      modifies this`state, this`socketRef, this`env
      ensures Valid()
      ensures old(CurrentOpen()) ==>
        && state == old(state) && socketRef == old(socketRef)
        && env == old(env).(pendingReconnects := old(env.pendingReconnects) - {t})
      ensures !old(CurrentOpen()) ==>
        && state == (if old(env.mounted) then old(state).(wsStatus := Connecting) else old(state))
        && socketRef == Some(|old(env.sockets)|)
        && env == old(env).(pendingReconnects := old(env.pendingReconnects) - {t},
                            sockets := old(env.sockets) + [SocketConnecting])
    {
      env := env.(pendingReconnects := env.pendingReconnects - {t});
      ConnectWebSocket();
    }

    // -------------------------------------------------------------------------
    // History requests

    /** `fetchHistory` succeeded: the list is replaced as a whole by the response. */
    method OnHistoryLoaded(items: seq<HistoryItem>)
      requires Valid() && env.historyPending > 0
      modifies this`state, this`env
      ensures Valid()
      ensures state == if old(env.mounted) then old(state).(history := items) else old(state)
      ensures env == old(env).(historyPending := old(env.historyPending) - 1)
    {
      env := env.(historyPending := env.historyPending - 1);
      if env.mounted {
        state := state.(history := items);
      }
    }

    /** `fetchHistory` failed: the error is logged and the list is kept. */
    method OnHistoryFailed()
      requires Valid() && env.historyPending > 0
      modifies this`env
      ensures Valid()
      ensures env == old(env).(historyPending := old(env.historyPending) - 1)
    {
      env := env.(historyPending := env.historyPending - 1);
    }

    // -------------------------------------------------------------------------
    // The user's actions (only while the component is on screen)

    /** The input's `onChange`. */
    method Type(value: string)
      requires Valid() && env.mounted
      modifies this`state
      ensures Valid()
      ensures state == old(state).(inputValue := value)
    {
      state := state.(inputValue := value);
    }

    /**
     * `handleSend`, which the Enter key calls directly: nothing happens when the input
     * is white space only or the current socket is missing or not open; otherwise the
     * input, untrimmed, is appended as one outgoing user message, sent once on the
     * current socket, and the input clears while typing starts. `isTyping` is not
     * consulted, so a second question can be sent while the first is pending.
     */
    method HandleSend(now: string)
      requires Valid() && env.mounted
      modifies this`state, this`env
      ensures Valid()
      ensures (IsBlank(old(state.inputValue)) || !old(CurrentOpen())) ==>
        state == old(state) && env == old(env)
      ensures !IsBlank(old(state.inputValue)) && old(CurrentOpen()) ==>
        && state == old(state).(messages := old(state.messages) + [UserMessage(old(state.inputValue), now)],
                                inputValue := "", isTyping := true)
        && env == old(env).(sent := old(env.sent) + [Frame(socketRef.value, old(state.inputValue))])
    {
      if IsBlank(state.inputValue) || !CurrentOpen() {
        return;
      }
      var text := state.inputValue;
      state := state.(messages := state.messages + [UserMessage(text, now)], inputValue := "", isTyping := true);
      env := env.(sent := env.sent + [Frame(socketRef.value, text)]);
    }

    /** The send button: disabled while the input is blank or a reply is pending. */
    method ClickSend(now: string)
      requires Valid() && env.mounted
      modifies this`state, this`env
      ensures Valid()
      ensures (old(state.isTyping) || IsBlank(old(state.inputValue)) || !old(CurrentOpen())) ==>
        state == old(state) && env == old(env)
      ensures !old(state.isTyping) && !IsBlank(old(state.inputValue)) && old(CurrentOpen()) ==>
        && state == old(state).(messages := old(state.messages) + [UserMessage(old(state.inputValue), now)],
                                inputValue := "", isTyping := true)
        && env == old(env).(sent := old(env.sent) + [Frame(socketRef.value, old(state.inputValue))])
    {
      if !IsBlank(state.inputValue) && !state.isTyping {
        HandleSend(now);
      }
    }

    /** "Nouvelle discussion": the transcript becomes a single incoming bot greeting. */
    method NewDiscussion(now: string)
      requires Valid() && env.mounted
      modifies this`state
      ensures Valid()
      ensures state == old(state).(messages := [BotMessage(ResetText, now)])
    {
      state := state.(messages := [BotMessage(ResetText, now)]);
    }

    /**
     * Clicking the sidebar entry at position `i` (newest first): the transcript
     * becomes the first message, the entry's question and its answer, the last two
     * without timestamps.
     */
    method SelectHistoryItem(i: nat)
      requires Valid() && env.mounted && i < |state.history|
      modifies this`state
      ensures Valid()
      ensures var item := old(state.history)[|old(state.history)| - 1 - i];
        state == old(state).(messages := [old(state.messages)[0], UserMessage(item.question, ""), BotMessage(item.answer, "")])
    {
      DisplayOrderAt(state.history, i);
      var item := DisplayOrder(state.history)[i];
      var welcomeMsg := state.messages[0];
      state := state.(messages := [welcomeMsg, UserMessage(item.question, ""), BotMessage(item.answer, "")]);
    }

    // -------------------------------------------------------------------------
    // The upload workflow

    /** "Entraîner avec un PDF" opens the modal. */
    method OpenUploadModal()
      requires Valid() && env.mounted
      modifies this`state
      ensures Valid()
      ensures state == old(state).(showUploadModal := true)
    {
      state := state.(showUploadModal := true);
    }

    /** The modal's close button (shown with the modal) works only while no file is held. */
    method CloseUploadModal()
      requires Valid() && env.mounted && state.showUploadModal
      modifies this`state
      ensures Valid()
      ensures state == if old(state.uploadingFile).None? then old(state).(showUploadModal := false) else old(state)
    {
      if state.uploadingFile.None? {
        state := state.(showUploadModal := false);
      }
    }

    /** Clicking the drop zone (shown with the modal) opens the file dialog, but only from `idle`. */
    method OpenPicker()
      requires Valid() && env.mounted && state.showUploadModal
      modifies this`env
      ensures Valid()
      ensures env == if old(state.uploadStatus) == Idle then old(env).(pickerOpen := true) else old(env)
    {
      if state.uploadStatus == Idle {
        env := env.(pickerOpen := true);
      }
    }

    /**
     * The dialog returns a selection (`None` when the list is empty): a PDF starts
     * an upload of that file; anything else changes nothing.
     */
    method SelectFile(file: Option<File>)
      requires Valid() && env.mounted && env.pickerOpen
      modifies this`state, this`env
      ensures Valid()
      ensures file.Some? && IsPdf(file.value) ==>
        && state == old(state).(uploadingFile := file, uploadStatus := Uploading)
        && env == old(env).(pickerOpen := false, uploadRequests := old(env.uploadRequests) + [file.value],
                            uploadPending := old(env.uploadPending) + 1)
      ensures !(file.Some? && IsPdf(file.value)) ==>
        state == old(state) && env == old(env).(pickerOpen := false)
    {
      env := env.(pickerOpen := false);
      if file.Some? && IsPdf(file.value) {
        state := state.(uploadingFile := file, uploadStatus := Uploading);
        env := env.(uploadRequests := env.uploadRequests + [file.value], uploadPending := env.uploadPending + 1);
      }
    }

    /** The upload request succeeded: status `success` and one 2000 ms reset timer. */
    method OnUploadSucceeded()
      requires Valid() && env.uploadPending > 0
      modifies this`state, this`env
      ensures Valid()
      ensures state == if old(env.mounted) then old(state).(uploadStatus := Success) else old(state)
      ensures env == old(env).(uploadPending := old(env.uploadPending) - 1,
                               uploadResetDelays := old(env.uploadResetDelays) + [UploadResetDelayMs],
                               pendingUploadResets := old(env.pendingUploadResets) + 1)
    {
      env := env.(uploadPending := env.uploadPending - 1,
                  uploadResetDelays := env.uploadResetDelays + [UploadResetDelayMs],
                  pendingUploadResets := env.pendingUploadResets + 1);
      if env.mounted {
        state := state.(uploadStatus := Success);
      }
    }

    /** The upload request failed: status `error`, and the file stays held. */
    method OnUploadFailed()
      requires Valid() && env.uploadPending > 0
      modifies this`state, this`env
      ensures Valid()
      ensures state == if old(env.mounted) then old(state).(uploadStatus := Failed) else old(state)
      ensures env == old(env).(uploadPending := old(env.uploadPending) - 1)
    {
      env := env.(uploadPending := env.uploadPending - 1);
      if env.mounted {
        state := state.(uploadStatus := Failed);
      }
    }

    /** The reset timer fires: the modal closes, the status returns to `idle`, the file is released. */
    method OnUploadResetTimer()
      requires Valid() && env.pendingUploadResets > 0
      modifies this`state, this`env
      ensures Valid()
      ensures state == if old(env.mounted)
        then old(state).(showUploadModal := false, uploadStatus := Idle, uploadingFile := None)
        else old(state)
      ensures env == old(env).(pendingUploadResets := old(env.pendingUploadResets) - 1)
    {
      env := env.(pendingUploadResets := env.pendingUploadResets - 1);
      if env.mounted {
        state := state.(showUploadModal := false, uploadStatus := Idle, uploadingFile := None);
      }
    }
  }
}
