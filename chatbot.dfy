/**
 * The chat widget of components/chatbot.tsx: a first-match FAQ lookup and
 * the transcript it feeds. Message identifiers, timestamps, scrolling and
 * focus are not modelled; a reply's one-second delay is a queue of replies
 * that are due, delivered in the order they were scheduled.
 */
module Chatbot {
  import opened Wrappers
  import opened Strings
  import opened Types
  import opened Store

  const Fallback := "I'm sorry, I don't have an answer for that question. Please contact our support team for more assistance."
  const Welcome := "Hello! I'm Pet Connect, your virtual assistant. How can I help you today?"

  datatype Sender = User | Bot
  datatype Message = Message(text: string, sender: Sender)

  /** The search predicate: the lower-cased question contains the lower-cased input, or the other way round. */
  predicate Matches(faq: ChatbotFaq, userInput: string) {
    Contains(Lower(faq.question), userInput) || Contains(userInput, Lower(faq.question))
  }

  /** `k` is the position of the first FAQ, in list order, that matches. */
  ghost predicate FirstMatch(faqs: seq<ChatbotFaq>, userInput: string, k: nat) {
    k < |faqs| && Matches(faqs[k], userInput) && forall j :: 0 <= j < k ==> !Matches(faqs[j], userInput)
  }

  /** The first FAQ at or after position `i` that matches, or none when no FAQ from `i` on matches. */
  function FindFrom(faqs: seq<ChatbotFaq>, userInput: string, i: nat): (r: Option<nat>)
    requires i <= |faqs|
    ensures r.Some? ==>
      (i <= r.value < |faqs| && Matches(faqs[r.value], userInput)
       && forall j :: i <= j < r.value ==> !Matches(faqs[j], userInput))
    ensures r.None? ==> forall j :: i <= j < |faqs| ==> !Matches(faqs[j], userInput)
    decreases |faqs| - i
  {
    if i == |faqs| then None
    else if Matches(faqs[i], userInput) then Some(i)
    else FindFrom(faqs, userInput, i + 1)
  }

  /** `faqs.find(…)`, as a position: the first matching FAQ, or none when no FAQ matches. */
  function FindFaq(faqs: seq<ChatbotFaq>, userInput: string): (r: Option<nat>)
    ensures r.Some? ==> FirstMatch(faqs, userInput, r.value)
    ensures r.None? ==> forall j :: 0 <= j < |faqs| ==> !Matches(faqs[j], userInput)
  {
    FindFrom(faqs, userInput, 0)
  }

  /**
   * The text of the bot's reply to `input`: the answer of the first FAQ
   * matching the lower-cased, untrimmed input, or the fallback text.
   */
  function ReplyTo(faqs: seq<ChatbotFaq>, input: string): string {
    match FindFaq(faqs, Lower(input))
    case Some(k) => faqs[k].answer
    case None => Fallback
  }

  /** The reply is the answer of the first matching FAQ. */
  lemma ReplyIsFirstMatch(faqs: seq<ChatbotFaq>, input: string, k: nat)
    requires FirstMatch(faqs, Lower(input), k)
    ensures ReplyTo(faqs, input) == faqs[k].answer
  {
  }

  /** With no matching FAQ, and in particular with no FAQs at all, the reply is the fallback text. */
  lemma NoMatchFallback(faqs: seq<ChatbotFaq>, input: string)
    requires forall j :: 0 <= j < |faqs| ==> !Matches(faqs[j], Lower(input))
    ensures ReplyTo(faqs, input) == Fallback
  {
  }

  /** Inputs that differ only in letter case get the same reply. */
  lemma CaseInsensitiveReply(faqs: seq<ChatbotFaq>, a: string, b: string)
    requires SameUpToCase(a, b)
    ensures ReplyTo(faqs, a) == ReplyTo(faqs, b)
  {
    LowerOfSameUpToCase(a, b);
  }

  /** The empty query is contained in every question, so it gets the first FAQ's answer. */
  lemma EmptyQueryFirstAnswer(faqs: seq<ChatbotFaq>)
    requires faqs != []
    ensures ReplyTo(faqs, "") == faqs[0].answer
  {
    ContainsEmpty(Lower(faqs[0].question));
    assert Lower("") == "";
    ReplyIsFirstMatch(faqs, "", 0);
  }

  /**
   * An input equal to the `k`-th question up to letter case is answered,
   * by that FAQ or by an earlier one.
   */
  lemma ExactQuestionAnswered(faqs: seq<ChatbotFaq>, input: string, k: nat)
    requires k < |faqs| && SameUpToCase(input, faqs[k].question)
    ensures FindFaq(faqs, Lower(input)).Some? && FindFaq(faqs, Lower(input)).value <= k
  {
    LowerOfSameUpToCase(input, faqs[k].question);
    ContainsSelf(Lower(input));
    assert Matches(faqs[k], Lower(input));
  }

  /** `s` has no upper-case letter. */
  predicate NoUpper(s: string) {
    forall i :: 0 <= i < |s| ==> !IsUpper(s[i])
  }

  /** A string without upper-case letters is its own lower-case form. */
  lemma {:induction false} LowerOfLowercase(s: string)
    requires NoUpper(s)
    ensures Lower(s) == s
  {
    if s != [] {
      LowerOfLowercase(s[1..]);
    }
  }

  /** First match wins: "fee" answers "fees" although the later question "fees" is an exact match. */
  lemma FirstMatchWinsExample(faqs: seq<ChatbotFaq>, q: string)
    requires faqs == [ChatbotFaq("1", "fee", "$50", None, ""), ChatbotFaq("2", "fees", "$75", None, "")]
    requires q == "fees"
    ensures ReplyTo(faqs, q) == "$50"
  {
    LowerOfLowercase(q);
    var fee := faqs[0].question;
    LowerOfLowercase(fee);
    assert OccursAt(q, fee, 0) by { assert q[0..3] == fee; }
    ReplyIsFirstMatch(faqs, q, 0);
  }

  /** The number of messages `sender` wrote. */
  function CountFrom(messages: seq<Message>, sender: Sender): nat {
    if messages == [] then 0
    else CountFrom(messages[..|messages| - 1], sender) + (if messages[|messages| - 1].sender == sender then 1 else 0)
  }

  /** 1 when the transcript opens with the welcome message, else 0. */
  function Greeting(messages: seq<Message>): nat {
    if messages != [] && messages[0].sender == Bot then 1 else 0
  }

  /** Appending a message counts it for its sender and keeps the head of a non-empty transcript. */
  lemma AppendMessage(ms: seq<Message>, m: Message)
    ensures CountFrom(ms + [m], User) == CountFrom(ms, User) + (if m.sender == User then 1 else 0)
    ensures CountFrom(ms + [m], Bot) == CountFrom(ms, Bot) + (if m.sender == Bot then 1 else 0)
    ensures ms != [] ==> (ms + [m])[0] == ms[0] && Greeting(ms + [m]) == Greeting(ms)
  {
    assert (ms + [m])[..|ms + [m]| - 1] == ms;
  }

  class ChatbotWidget {
    var isOpen: bool
    var messages: seq<Message>
    var input: string
    var faqs: seq<ChatbotFaq>
    var isLoading: bool
    /** Replies whose timer is set and has not fired yet, in firing order. */
    var due: seq<string>

    /**
     * The transcript invariant: a bot message at the head is the welcome
     * message, and every user message has exactly one reply, delivered or due.
     */
    ghost predicate Valid()
      reads this
    {
      (Greeting(messages) == 1 ==> messages[0] == Message(Welcome, Bot))
      && CountFrom(messages, User) + Greeting(messages) == CountFrom(messages, Bot) + |due|
    }

    constructor ()
      ensures Valid()
      ensures !isOpen && messages == [] && input == "" && faqs == [] && !isLoading && due == []
    {
      isOpen, messages, input, faqs, isLoading, due := false, [], "", [], false, [];
    }

    /** The FAQ fetch at mount: on an error the list stays as it was, otherwise it becomes `data || []`. */
    method LoadFaqs(reply: Reply<seq<ChatbotFaq>>)
      requires Valid()
      modifies this`faqs
      ensures Valid()
      ensures faqs == if reply.error.Some? then old(faqs) else reply.data.GetOr([])
    {
      if reply.error.None? {
        faqs := reply.data.GetOr([]);
      }
    }

    /** The launcher button opens or closes the window. */
    method Toggle()
      requires Valid()
      modifies this`isOpen
      ensures Valid()
      ensures isOpen == !old(isOpen)
    {
      isOpen := !isOpen;
    }

    /** Typing, or picking a suggested question, replaces the input. */
    method SetInput(value: string)
      requires Valid()
      modifies this`input
      ensures Valid()
      ensures input == value
    {
      input := value;
    }

    /** The welcome effect: an open window with an empty transcript gets the welcome message as its only message. */
    method ShowWelcome()
      requires Valid()
      modifies this`messages
      ensures Valid()
      ensures messages == if isOpen && old(messages) == [] then [Message(Welcome, Bot)] else old(messages)
    {
      if isOpen && |messages| == 0 {
        messages := [Message(Welcome, Bot)];
      }
    }

    /**
     * Sending: a blank input changes nothing; otherwise the trimmed input is
     * appended as a user message, the input is cleared, loading starts, and
     * the reply to the untrimmed input becomes due.
     */
    method SendMessage()
      requires Valid()
      modifies this`messages, this`input, this`isLoading, this`due
      ensures Valid()
      ensures Trim(old(input)) == [] ==>
        messages == old(messages) && input == old(input) && isLoading == old(isLoading) && due == old(due)
      ensures Trim(old(input)) != [] ==>
        messages == old(messages) + [Message(Trim(old(input)), User)] && input == "" && isLoading
        && due == old(due) + [ReplyTo(faqs, old(input))]
    {
      var text := Trim(input);
      if text == [] {
        return;
      }
      due := due + [ReplyTo(faqs, input)];
      AppendMessage(messages, Message(text, User));
      if messages == [] {
        assert Greeting(messages + [Message(text, User)]) == 0;
      }
      messages := messages + [Message(text, User)];
      input := "";
      isLoading := true;
    }

    /** A reply's timer fires: the reply is appended as a bot message and loading stops. */
    method DeliverReply()
      requires Valid() && due != []
      modifies this`messages, this`isLoading, this`due
      ensures Valid()
      ensures messages == old(messages) + [Message(old(due)[0], Bot)] && !isLoading && due == old(due)[1..]
    {
      assert messages != [];
      AppendMessage(messages, Message(due[0], Bot));
      messages := messages + [Message(due[0], Bot)];
      isLoading := false;
      due := due[1..];
    }
  }
}
