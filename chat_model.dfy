/**
 * The values the chat client works with and the pure computations on them: the
 * transcript messages, the history entries, the connection and upload statuses,
 * the strip of the server's " : " framing, the blank-input test of `trim()`, the
 * most-recent-first order of the history sidebar and the status indicator.
 */
module ChatModel {
  import Text

  // ---------------------------------------------------------------------------
  // Values

  datatype Sender = User | Bot
  datatype Direction = Outgoing | Incoming

  /** One transcript entry; `timestamp` is the opaque clock reading, or "" for none. */
  datatype Message = Message(message: string, sender: Sender, direction: Direction, timestamp: string)

  /** A past question and its answer, as the history endpoint returns them. */
  datatype HistoryItem = HistoryItem(question: string, answer: string)

  datatype WsStatus = Connecting | Connected | Error | Disconnected
  datatype UploadStatus = Idle | Uploading | Success | Failed

  /** A file picked in the upload dialog: its name and its MIME type. */
  datatype File = File(name: string, mimeType: string)

  predicate IsPdf(f: File)
  {
    f.mimeType == "application/pdf"
  }

  /** The greeting the transcript starts with, and the one "new discussion" puts back. */
  const WelcomeText: string :=
    "Bonjour ! Je suis Cauris AI, votre assistant académique intelligent. Comment puis-je vous accompagner dans vos travaux aujourd'hui ?"
  const ResetText: string := "Discussion réinitialisée. Comment puis-je vous aider ?"

  function BotMessage(text: string, timestamp: string): Message
  {
    Message(text, Bot, Incoming, timestamp)
  }

  function UserMessage(text: string, timestamp: string): Message
  {
    Message(text, User, Outgoing, timestamp)
  }

  // ---------------------------------------------------------------------------
  // The server's framing and the client's strip

  /** The backend sends every frame as " : " followed by its text (its interim notice and its answer). */
  const FramePrefix: string := " : "

  function ServerFrame(text: string): string
  {
    FramePrefix + text
  }

  /** `replace(/^ : /, "")`: one leading " : " removed when present. */
  function StripPrefix(payload: string): (r: string)
    ensures r == payload || payload == FramePrefix + r
    ensures |payload| >= |FramePrefix| && payload[..|FramePrefix|] == FramePrefix ==> payload == FramePrefix + r
  {
    if |payload| >= 3 && payload[..3] == FramePrefix then payload[3..] else payload
  }

  /** Stripping undoes the server's framing. */
  lemma StripFramed(text: string)
    ensures StripPrefix(ServerFrame(text)) == text
  {
    assert ServerFrame(text)[..3] == FramePrefix;
  }

  /**
   * The strip removes exactly one copy of the prefix or nothing: a payload that does
   * not start with " : " is displayed as it came, and a payload framed twice keeps
   * its inner frame.
   */
  lemma StripAtMostOnce(payload: string)
    ensures StripPrefix(payload) != payload <==>
      (|payload| >= |FramePrefix| && payload[..|FramePrefix|] == FramePrefix)
    ensures StripPrefix(ServerFrame(ServerFrame(payload))) == ServerFrame(payload)
  {
    var p := payload;
    if |p| >= 3 && p[..3] == FramePrefix {
      assert p == p[..3] + p[3..];
      assert |p[3..]| < |p|;
    }
    StripFramed(ServerFrame(payload));
  }

  // ---------------------------------------------------------------------------
  // The blank test of the send guard

  /**
   * `!inputValue.trim()`: nothing but white space, as JavaScript's `trim` counts it,
   * checked one character at a time from the front.
   */
  predicate IsBlank(input: string)
  {
    input == [] || (Text.IsSpace(Text.JavaScript, input[0]) && IsBlank(input[1..]))
  }

  /** The character-by-character test is the same as "every character is white space". */
  lemma {:induction false} BlankIffAllSpace(input: string)
    ensures IsBlank(input) <==> Text.AllSpace(input, Text.JavaScript)
  {
    if input != [] {
      BlankIffAllSpace(input[1..]);
      if Text.AllSpace(input, Text.JavaScript) {
        assert forall i :: 0 <= i < |input| - 1 ==> input[1..][i] == input[i + 1];
      }
      if IsBlank(input) {
        assert forall i :: 1 <= i < |input| ==> input[i] == input[1..][i - 1];
      }
    }
  }

  /** The input is blank exactly when `trim()` leaves the empty string. */
  lemma BlankIffTrimEmpty(input: string)
    ensures IsBlank(input) <==> Text.Trim(input, Text.JavaScript) == []
  {
    BlankIffAllSpace(input);
    Text.TrimEmptyIff(input, Text.JavaScript);
  }

  // ---------------------------------------------------------------------------
  // The history sidebar

  /** `history.slice().reverse()`: the sidebar lists the newest entry first. */
  function DisplayOrder(history: seq<HistoryItem>): (r: seq<HistoryItem>)
    ensures |r| == |history|
  {
    if history == [] then [] else [history[|history| - 1]] + DisplayOrder(history[..|history| - 1])
  }

  /** Position `i` of the sidebar shows entry `|history| - 1 - i`. */
  lemma {:induction false} DisplayOrderAt(history: seq<HistoryItem>, i: nat)
    requires i < |history|
    ensures |DisplayOrder(history)| == |history|
    ensures DisplayOrder(history)[i] == history[|history| - 1 - i]
  {
    if i > 0 {
      DisplayOrderAt(history[..|history| - 1], i - 1);
    } else if |history| > 1 {
      DisplayOrderAt(history[..|history| - 1], 0);
    }
  }

  /** The sidebar lists every entry, and nothing else. */
  lemma {:induction false} DisplayOrderSameEntries(history: seq<HistoryItem>)
    ensures multiset(DisplayOrder(history)) == multiset(history)
  {
    if history != [] {
      var init := history[..|history| - 1];
      DisplayOrderSameEntries(init);
      assert history == init + [history[|history| - 1]];
    }
  }

  // ---------------------------------------------------------------------------
  // The status indicator in the header

  datatype Dot = Emerald | Amber | Red

  function StatusDot(s: WsStatus): (d: Dot)
    ensures d == Emerald <==> s == Connected
    ensures d == Amber <==> s == Connecting
  {
    if s == Connected then Emerald else if s == Connecting then Amber else Red
  }

  function StatusLabel(s: WsStatus): string
  {
    if s == Connected then "Base de connaissance active"
    else if s == Connecting then "Connexion en cours..."
    else "Déconnecté du serveur"
  }

  /**
   * The header tells "connected" and "connecting" apart from each other and from the
   * rest, but shows a transport error exactly like a closed connection.
   */
  lemma IndicatorDistinguishes(s: WsStatus, t: WsStatus)
    ensures (StatusLabel(s) == StatusLabel(t)) <==> (s == t || (s in {Error, Disconnected} && t in {Error, Disconnected}))
    ensures (StatusDot(s) == StatusDot(t)) <==> (StatusLabel(s) == StatusLabel(t))
  {
    assert "Base de connaissance active"[0] != "Connexion en cours..."[0];
    assert "Base de connaissance active"[0] != "Déconnecté du serveur"[0];
    assert "Connexion en cours..."[1] != "Déconnecté du serveur"[1];
  }
}
