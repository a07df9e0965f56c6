/**
 One chat turn. A non-blank message sent while no turn is in progress is
 appended as the user's message; the conversational agent is asked for a
 reply; if it answers, its text is the reply (a default text when it is
 empty), and if it fails the message is classified: a likely phone number
 gets the direct lookup against the cached roster, a request for HR or a
 contact gets the HR contact, anything else a "trouble connecting" reply.
 Exactly one model reply follows each user message.

 The agent is outside the model: its answer for the turn is an input.
 */
module Chat {
  import opened Types
  import opened JsText
  import opened Phone
  import opened Lookup

  /** What the agent's `sendMessage` did: returned a text (possibly undefined) or threw. */
  datatype AgentOutcome = AgentOk(text: Option<string>) | AgentFailed

  const Greeting := "\U{1F44B} Hello! I'm your Recruitment Assistant at **Evolv Clothing**.\n\nI can help you check your interview status. Please provide the **phone number** you used during your application."
  const DefaultReply := "I'm sorry, I couldn't find that information."
  /** Markdown italics. */
  function Italic(text: string): string {
    "*" + text + "*"
  }

  const SystemNote := Italic("System Note: The AI assistant is currently experiencing high load. Performing direct lookup...") + "\n\n"
  const HrIntro := "You can reach our HR team directly:\n\n"
  const TroubleReply := "I'm having trouble connecting to my brain right now! \U{1F9E0}\U{1F4A8}\n\nIf you want to check your status, please just type your **phone number** directly and I'll try to find it in our records."

  function HrReply(): string {
    HrIntro + Line("Name", HrName) + HrContactTail()
  }

  /** The lower-cased message mentions `hr` or `contact`. */
  predicate AsksForHr(message: string) {
    Contains(ToLower(message), "hr") || Contains(ToLower(message), "contact")
  }

  /** The reply when the agent failed. */
  function FallbackReply(message: string, roster: seq<Candidate>): string {
    if IsLikelyPhoneNumber(message) then SystemNote + DirectLookup(roster, message)
    else if AsksForHr(message) then HrReply()
    else TroubleReply
  }

  /** The model reply a turn appends; it is never empty. */
  function TurnReply(message: string, outcome: AgentOutcome, roster: seq<Candidate>): (reply: string)
    ensures reply != ""
  {
    match outcome
    case AgentOk(text) => if text.Some? && text.value != "" then text.value else DefaultReply
    case AgentFailed => FallbackReply(message, roster)
  }

  /** The fallback as written, where the direct lookup may throw. */
  function FallbackReplyAsWritten(message: string, roster: seq<Candidate>): Outcome<string> {
    if IsLikelyPhoneNumber(message) then
      match DirectLookupAsWritten(roster, message)
      case Threw => Threw
      case Returned(found) => Returned(SystemNote + found)
    else if AsksForHr(message) then Returned(HrReply())
    else Returned(TroubleReply)
  }

  function TurnReplyAsWritten(message: string, outcome: AgentOutcome, roster: seq<Candidate>): Outcome<string> {
    match outcome
    case AgentOk(text) => Returned(if text.Some? && text.value != "" then text.value else DefaultReply)
    case AgentFailed => FallbackReplyAsWritten(message, roster)
  }

  /** On success the agent's text is the reply, verbatim; an empty or undefined text gives the default. */
  lemma AgentReplyVerbatim(message: string, text: Option<string>, roster: seq<Candidate>)
    ensures text.Some? && text.value != "" ==> TurnReply(message, AgentOk(text), roster) == text.value
    ensures (text.None? || text.value == "") ==> TurnReply(message, AgentOk(text), roster) == DefaultReply
  {
  }

  /**
   On failure the phone test comes first: a message with 7 to 15 digits gets
   the direct lookup even when it also mentions HR or a contact, and that
   reply is never the HR reply.
   */
  lemma PhoneCheckTakesPrecedence(message: string, roster: seq<Candidate>)
    requires IsLikelyPhoneNumber(message)
    ensures TurnReply(message, AgentFailed, roster) == SystemNote + DirectLookup(roster, message)
    ensures StartsWith(TurnReply(message, AgentFailed, roster), SystemNote)
    ensures TurnReply(message, AgentFailed, roster) != HrReply()
  {
    var reply := TurnReply(message, AgentFailed, roster);
    var found := DirectLookup(roster, message);
    assert reply == SystemNote + found;
    assert reply[0] == SystemNote[0] == '*';
    assert reply[..|SystemNote|] == SystemNote;
    assert HrReply()[0] == 'Y';
  }

  /** A message that is not a phone number gets a reply that does not depend on the roster. */
  lemma NonPhoneReplyIgnoresRoster(message: string, roster1: seq<Candidate>, roster2: seq<Candidate>)
    requires !IsLikelyPhoneNumber(message)
    ensures TurnReply(message, AgentFailed, roster1) == TurnReply(message, AgentFailed, roster2)
    ensures TurnReply(message, AgentFailed, roster1) == if AsksForHr(message) then HrReply() else TroubleReply
  {
  }

  lemma ToLowerAppend(a: string, b: string)
    ensures ToLower(a + b) == ToLower(a) + ToLower(b)
  {
  }

  /**
   A digit-free message that mentions `HR` in capitals, such as `can I get HR
   contact`, gets the HR contact reply whatever the roster holds.
   */
  lemma HrRequestGetsHrReply(before: string, after: string, roster: seq<Candidate>)
    requires forall i :: 0 <= i < |before| ==> !IsDigit(before[i])
    requires forall i :: 0 <= i < |after| ==> !IsDigit(after[i])
    ensures TurnReply(before + "HR" + after, AgentFailed, roster) == HrReply()
  {
    var message := before + "HR" + after;
    forall i | 0 <= i < |message| ensures !IsDigit(message[i]) {
      if i < |before| {
        assert message[i] == before[i];
      } else if i >= |before| + 2 {
        assert message[i] == after[i - |before| - 2];
      }
    }
    NormalizeNoDigits(message);
    ToLowerAppend(before + "HR", after);
    ToLowerAppend(before, "HR");
    assert ToLower("HR") == "hr";
    ContainsInfix(ToLower(before), "hr", ToLower(after));
  }

  /** As written and corrected agree on every roster whose candidates all have a phone. */
  lemma AsWrittenAgreesWithPhones(message: string, outcome: AgentOutcome, roster: seq<Candidate>)
    requires forall j :: 0 <= j < |roster| ==> roster[j].phone.Some?
    ensures TurnReplyAsWritten(message, outcome, roster) == Returned(TurnReply(message, outcome, roster))
  {
    if outcome.AgentFailed? && IsLikelyPhoneNumber(message) {
      Lookup.AsWrittenAgreesWithPhones(roster, message);
    }
  }

  /**
   As written, when the agent fails and the cache came from a sheet without
   a phone column, a phone-number message makes the lookup throw: the turn
   ends with no reply at all.
   */
  lemma MissingPhoneColumnDropsReply(c: Candidate, message: string)
    requires c.phone.None? && IsLikelyPhoneNumber(message)
    ensures TurnReplyAsWritten(message, AgentFailed, [c]) == Threw
    ensures TurnReply(message, AgentFailed, [c]) == SystemNote + NotFoundReply(message)
  {
    MissingPhoneThrows(c, message);
  }

  /** A turn accepted and waiting for the agent: the trimmed message and the roster the callback captured. */
  datatype PendingTurn = PendingTurn(userMessage: string, roster: seq<Candidate>)

  /**
   A well-formed conversation: the greeting, then user and model messages
   alternating, none of them empty; a turn is in progress exactly when the
   last message is the user's.
   */
  ghost predicate WellFormedLog(messages: seq<Message>, loading: bool) {
    && |messages| >= 1
    && messages[0] == Message(Model, Greeting)
    && (forall i :: 1 <= i < |messages| ==> messages[i].role == if i % 2 == 1 then User else Model)
    && (forall i :: 0 <= i < |messages| ==> messages[i].text != "")
    && (loading <==> |messages| % 2 == 0)
  }

  lemma UserMessageKeepsLog(messages: seq<Message>, text: string)
    requires WellFormedLog(messages, false) && text != ""
    ensures WellFormedLog(messages + [Message(User, text)], true)
  {
  }

  lemma ReplyKeepsLog(messages: seq<Message>, text: string)
    requires WellFormedLog(messages, true) && text != ""
    ensures WellFormedLog(messages + [Message(Model, text)], false)
  {
  }

  /** The chat component's state. */
  class ChatSession {
    var messages: seq<Message>
    var input: string
    var isLoading: bool
    var cachedCandidates: seq<Candidate>

    ghost predicate Valid()
      reads this
    {
      WellFormedLog(messages, isLoading)
    }

    constructor ()
      ensures Valid()
      ensures messages == [Message(Model, Greeting)] && input == "" && !isLoading && cachedCandidates == []
    {
      messages := [Message(Model, Greeting)];
      input := "";
      isLoading := false;
      cachedCandidates := [];
    }

    /** Typing, or a quick-reply button filling the input. */
    method SetInput(text: string)
      requires Valid()
      modifies this`input
      ensures Valid() && input == text
    {
      input := text;
    }

    /** The session-start prefetch delivering its roster. */
    method SetCachedCandidates(roster: seq<Candidate>)
      requires Valid()
      modifies this`cachedCandidates
      ensures Valid() && cachedCandidates == roster
    {
      cachedCandidates := roster;
    }

    /**
     The part of `handleSend` before the agent call: a blank input or a turn
     already in progress changes nothing; otherwise the input is cleared, the
     trimmed message is appended and the turn is in progress.
     */
    method BeginSend() returns (turn: Option<PendingTurn>)
      requires Valid()
      modifies this`input, this`messages, this`isLoading
      ensures Valid()
      ensures old(Trim(input) == "" || isLoading) ==>
        turn.None? && messages == old(messages) && input == old(input) && isLoading == old(isLoading)
      ensures old(Trim(input) != "" && !isLoading) ==>
        && turn == Some(PendingTurn(old(Trim(input)), cachedCandidates))
        && input == "" && isLoading
        && messages == old(messages) + [Message(User, old(Trim(input)))]
    {
      if Trim(input) == "" || isLoading {
        return None;
      }
      var userMessage := Trim(input);
      UserMessageKeepsLog(messages, userMessage);
      input := "";
      messages := messages + [Message(User, userMessage)];
      isLoading := true;
      turn := Some(PendingTurn(userMessage, cachedCandidates));
    }

    /** The part of `handleSend` after the agent call: one model reply, then the turn is over. */
    method CompleteSend(turn: PendingTurn, outcome: AgentOutcome)
      requires Valid() && isLoading
      requires messages[|messages| - 1] == Message(User, turn.userMessage)
      modifies this`messages, this`isLoading
      ensures Valid() && !isLoading
      ensures messages == old(messages) + [Message(Model, TurnReply(turn.userMessage, outcome, turn.roster))]
    {
      var userMessage := turn.userMessage;
      var reply: string;
      match outcome {
        case AgentOk(response) =>
          reply := if response.Some? && response.value != "" then response.value else DefaultReply;
        case AgentFailed =>
          if IsLikelyPhoneNumber(userMessage) {
            var fallbackResponse := DirectLookup(turn.roster, userMessage);
            reply := SystemNote + fallbackResponse;
          } else if Contains(ToLower(userMessage), "hr") || Contains(ToLower(userMessage), "contact") {
            reply := HrReply();
          } else {
            reply := TroubleReply;
          }
      }
      assert reply == TurnReply(userMessage, outcome, turn.roster);
      ReplyKeepsLog(messages, reply);
      messages := messages + [Message(Model, reply)];
      isLoading := false;
    }

    /**
     `CompleteSend` with the lookup as written: when it throws, the `finally`
     still clears the loading flag but no reply is appended, so the user's
     message stays unanswered.
     */
    method CompleteSendAsWritten(turn: PendingTurn, outcome: AgentOutcome)
      requires Valid() && isLoading
      requires messages[|messages| - 1] == Message(User, turn.userMessage)
      modifies this`messages, this`isLoading
      ensures !isLoading
      ensures TurnReplyAsWritten(turn.userMessage, outcome, turn.roster) == Threw ==>
        messages == old(messages) && !Valid()
      ensures TurnReplyAsWritten(turn.userMessage, outcome, turn.roster).Returned? ==>
        messages == old(messages) + [Message(Model, TurnReplyAsWritten(turn.userMessage, outcome, turn.roster).value)]
    {
      var reply := TurnReplyAsWritten(turn.userMessage, outcome, turn.roster);
      if reply.Returned? {
        messages := messages + [Message(Model, reply.value)];
      }
      isLoading := false;
    }

    /**
     `handleSend` when the agent's answer for the turn is `outcome`: either
     nothing changes, or the input is cleared and exactly one user message and
     one model reply are appended, with the loading flag off again.
     */
    method HandleSend(outcome: AgentOutcome)
      requires Valid()
      modifies this`input, this`messages, this`isLoading
      ensures Valid()
      ensures old(Trim(input) == "" || isLoading) ==>
        messages == old(messages) && input == old(input) && isLoading == old(isLoading)
      ensures old(Trim(input) != "" && !isLoading) ==>
        && input == "" && !isLoading
        && messages == old(messages) + [Message(User, old(Trim(input))),
                                        Message(Model, TurnReply(old(Trim(input)), outcome, cachedCandidates))]
    {
      var turn := BeginSend();
      if turn.Some? {
        CompleteSend(turn.value, outcome);
      }
    }
  }
}
