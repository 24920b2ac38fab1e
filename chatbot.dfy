/**
 * The assistant chat widget: the message list it keeps, the request it
 * sends for each submitted line, and how the reply (or a failure) is
 * appended.
 */
module Chatbot {
  import opened Wrappers
  import opened Text

  /** A line in the widget; `role` is "user" or "model". */
  datatype BotMessage = BotMessage(role: string, text: string)

  /** One entry of the history sent to the assistant endpoint. */
  datatype Part = Part(text: string)
  datatype HistoryEntry = HistoryEntry(role: string, parts: seq<Part>)

  /** The body posted to `/api/chatbot/chat`. */
  datatype ChatRequest = ChatRequest(message: string, history: seq<HistoryEntry>)

  const Greeting := BotMessage("model", "Hi! I am your Pet-Paal assistant. How can I help you today?")
  const Apology := "Sorry, I encountered an error. Please try again later."

  /** Any role other than "user" is sent as "model". */
  function RoleFor(role: string): (r: string)
    ensures r == "user" || r == "model"
    ensures r == role <==> role == "user" || role == "model"
  {
    if role == "user" then "user" else "model"
  }

  /** One message in the assistant's history format. */
  function Entry(m: BotMessage): HistoryEntry {
    HistoryEntry(RoleFor(m.role), [Part(m.text)])
  }

  /** `messages.map(...)`: the message list in the assistant's history format, one entry per message. */
  function History(ms: seq<BotMessage>): (h: seq<HistoryEntry>)
    ensures |h| == |ms|
    ensures forall i :: 0 <= i < |ms| ==> h[i].role == RoleFor(ms[i].role) && h[i].parts == [Part(ms[i].text)]
  {
    if ms == [] then [] else [Entry(ms[0])] + History(ms[1..])
  }

  /** Converting a longer list converts its parts independently. */
  lemma HistoryAppend(a: seq<BotMessage>, b: seq<BotMessage>)
    ensures History(a + b) == History(a) + History(b)
  {
    var l, r := History(a + b), History(a) + History(b);
    assert |l| == |r|;
    forall i | 0 <= i < |l|
      ensures l[i] == r[i]
    {
      if i < |a| {
        assert (a + b)[i] == a[i];
      } else {
        assert (a + b)[i] == b[i - |a|];
      }
    }
  }

  /** Roles that the widget itself writes are sent unchanged. */
  predicate WellFormed(ms: seq<BotMessage>) {
    forall i :: 0 <= i < |ms| ==> ms[i].role == "user" || ms[i].role == "model"
  }

  lemma WellFormedAppend(ms: seq<BotMessage>, m: BotMessage)
    requires WellFormed(ms) && (m.role == "user" || m.role == "model")
    ensures WellFormed(ms + [m])
  {
    forall i | 0 <= i < |ms + [m]|
      ensures (ms + [m])[i].role == "user" || (ms + [m])[i].role == "model"
    {
      if i < |ms| {
        assert (ms + [m])[i] == ms[i];
      }
    }
  }

  lemma HistoryKeepsRoles(ms: seq<BotMessage>)
    requires WellFormed(ms)
    ensures forall i :: 0 <= i < |ms| ==> History(ms)[i] == HistoryEntry(ms[i].role, [Part(ms[i].text)])
  {
  }

  class ChatbotWidget {
    var messages: seq<BotMessage>
    var input: string
    var loading: bool
    /** Requests posted so far, oldest first. */
    var requests: seq<ChatRequest>

    /** The list starts with the greeting, and every role is one the widget writes. */
    ghost predicate Valid()
      reads this
    {
      |messages| > 0 && messages[0] == Greeting && WellFormed(messages)
    }

    constructor()
      ensures Valid()
      ensures messages == [Greeting] && input == "" && !loading && requests == []
    {
      messages := [Greeting];
      input := "";
      loading := false;
      requests := [];
    }

    method Type(text: string)
      modifies this
      ensures input == text
      ensures messages == old(messages) && loading == old(loading) && requests == old(requests)
    {
      input := text;
    }

    /**
     * The first half of handleSubmit. A blank input does nothing;
     * otherwise the line is appended as the user's, the input cleared,
     * loading set, and the request posted with the untrimmed line and the
     * history of the messages as they were before it.
     */
    method BeginSubmit() returns (posted: bool)
      requires Valid()
      modifies this
      ensures Valid()
      ensures posted <==> Trim(old(input)) != ""
      ensures !posted ==>
        messages == old(messages) && input == old(input) && loading == old(loading) && requests == old(requests)
      ensures posted ==>
        && messages == old(messages) + [BotMessage("user", old(input))]
        && input == "" && loading
        && requests == old(requests) + [ChatRequest(old(input), History(old(messages)))]
    {
      if Trim(input) == "" {
        return false;
      }
      var request := ChatRequest(input, History(messages));
      var line := BotMessage("user", input);
      WellFormedAppend(messages, line);
      messages := messages + [line];
      input := "";
      loading := true;
      requests := requests + [request];
      return true;
    }

    /**
     * The second half: the reply's text is appended as the model's, or the
     * apology when the request failed; loading ends either way.
     */
    method FinishSubmit(reply: Option<string>)
      requires Valid()
      modifies this
      ensures Valid()
      ensures messages == old(messages) + [BotMessage("model", if reply.Some? then reply.value else Apology)]
      ensures !loading && input == old(input) && requests == old(requests)
    {
      var text := if reply.Some? then reply.value else Apology;
      var line := BotMessage("model", text);
      WellFormedAppend(messages, line);
      messages := messages + [line];
      loading := false;
    }
  }

  /**
   * The history posted with a line, followed by that line, is exactly the
   * history of the list once the line is shown: nothing is lost or
   * reordered, and the line itself is not sent twice.
   */
  lemma RequestThenLineIsHistory(before: seq<BotMessage>, line: string)
    ensures History(before) + [HistoryEntry("user", [Part(line)])] == History(before + [BotMessage("user", line)])
  {
    HistoryAppend(before, [BotMessage("user", line)]);
  }

  /** Every request's history, taken from a valid widget, opens with the greeting as the model's. */
  lemma HistoryOpensWithGreeting(ms: seq<BotMessage>)
    requires |ms| > 0 && ms[0] == Greeting
    ensures |History(ms)| == |ms| && History(ms)[0] == HistoryEntry("model", [Part(Greeting.text)])
  {
  }
}
