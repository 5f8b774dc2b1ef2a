/**
 * The chatbot demo of scripts/chatbot.js: choosing a reply for a user message
 * (`generateResponse`) and the message list that `addMessage`,
 * `showTypingIndicator` and `hideTypingIndicator` change in place.
 * `Math.random` is a parameter `roll` in [0, 1); the reply delay is left to
 * the host, which may deliver pending replies in any order.
 */
module Chatbot {
  import opened Wrappers
  import opened Strings

  /**
   * The replies the demo can give: one per entry of `this.responses`, named
   * after its key, and the four entries of `this.fallbackResponses`. The
   * reply strings themselves are not reproduced.
   */
  datatype Reply =
    | Offers | Cost | DemoQuestion | HowItWorks | Industries | Setup
    | Pricing | Demo | Hello | Hi | Help | Support | Contact
    | GreatQuestion | HumanExpert | LearnsFromYou | GreatPoint

  /** `this.responses`, in declared order: each key with its reply. */
  const Responses: seq<(string, Reply)> := [
    ("What services do you offer?", Offers),
    ("How much does it cost?", Cost),
    ("Can I get a demo?", DemoQuestion),
    ("How does it work?", HowItWorks),
    ("What industries do you serve?", Industries),
    ("Is it easy to setup?", Setup),
    ("pricing", Pricing),
    ("demo", Demo),
    ("hello", Hello),
    ("hi", Hi),
    ("help", Help),
    ("support", Support),
    ("contact", Contact)
  ]

  /** The keyword table built inside `generateResponse`: each keyword, then the `responses` key whose reply it gives. */
  const Keywords: seq<(string, string)> := [
    ("price", "pricing"), ("cost", "pricing"), ("expensive", "pricing"), ("money", "pricing"), ("plan", "pricing"),
    ("demo", "demo"), ("try", "demo"), ("test", "demo"),
    ("service", "What services do you offer?"), ("feature", "What services do you offer?"),
    ("work", "How does it work?"),
    ("setup", "Is it easy to setup?"), ("install", "Is it easy to setup?"),
    ("industry", "What industries do you serve?"), ("business", "What industries do you serve?"),
    ("contact", "contact"), ("support", "support"), ("help", "help")
  ]

  /** `this.fallbackResponses`. */
  const Fallbacks: seq<Reply> := [GreatQuestion, HumanExpert, LearnsFromYou, GreatPoint]

  lemma LowerLiteral(s: string, t: string)
    requires DottedCapitalI !in s
    requires |s| == |t| && forall k :: 0 <= k < |s| ==> LowerChar(s[k]) == t[k]
    ensures Lower(s) == t
  {
    LowerPointwise(s);
  }

  /**
   * A key does not occur in a message (both lower-cased) if, for each offset
   * where it could start, `probe` names a position where the two differ.
   */
  lemma AbsentByMismatch(message: string, key: string, probe: seq<nat>)
    requires DottedCapitalI !in message && DottedCapitalI !in key
    requires |key| <= |message| && |probe| == |message| - |key| + 1
    requires forall i :: 0 <= i < |probe| ==> probe[i] < |key| && LowerChar(message[i + probe[i]]) != LowerChar(key[probe[i]])
    ensures !Contains(Lower(message), Lower(key))
  {
    LowerPointwise(message);
    LowerPointwise(key);
    var m, p := Lower(message), Lower(key);
    forall i | 0 <= i <= |m| - |p|
      ensures !OccursAt(m, p, i)
    {
      var k := probe[i];
      assert m[i..i + |p|][k] == m[i + k] != p[k];
    }
  }

  /** A key longer than the message does not occur in it. */
  lemma AbsentByLength(message: string, key: string)
    requires DottedCapitalI !in message && |message| < |key|
    ensures !Contains(Lower(message), Lower(key))
  {
    LowerPointwise(message);
    if Contains(Lower(message), Lower(key)) {
      ContainsLength(Lower(message), Lower(key));
    }
  }

  /** `responses[key]`: the reply stored under `key`, or undefined. */
  function Lookup(key: string): (reply: Option<Reply>)
    ensures reply.Some? <==> exists i :: 0 <= i < |Responses| && Responses[i].0 == key
    ensures reply.Some? ==> exists i :: 0 <= i < |Responses| && Responses[i] == (key, reply.value)
  {
    LookupFrom(key, 0)
  }

  function LookupFrom(key: string, from: nat): (reply: Option<Reply>)
    requires from <= |Responses|
    ensures reply.Some? <==> exists i :: from <= i < |Responses| && Responses[i].0 == key
    ensures reply.Some? ==> exists i :: from <= i < |Responses| && Responses[i] == (key, reply.value)
    decreases |Responses| - from
  {
    if from == |Responses| then None
    else if Responses[from].0 == key then Some(Responses[from].1)
    else LookupFrom(key, from + 1)
  }

  /** The text entry i is searched for: its key lower-cased for `responses`, the keyword as written for `keywords`. */
  function Needle<V>(table: seq<(string, V)>, lowerKeys: bool, i: nat): string
    requires i < |table|
  {
    if lowerKeys then Lower(table[i].0) else table[i].0
  }

  /** The index of the first entry of `table`, from `from` on, whose needle occurs in `message`. */
  function FirstMatchFrom<V>(table: seq<(string, V)>, lowerKeys: bool, message: string, from: nat): (r: Option<nat>)
    requires from <= |table|
    ensures r.Some? ==> from <= r.value < |table| && Contains(message, Needle(table, lowerKeys, r.value))
    ensures r.Some? ==> forall j :: from <= j < r.value ==> !Contains(message, Needle(table, lowerKeys, j))
    ensures r.None? ==> forall j :: from <= j < |table| ==> !Contains(message, Needle(table, lowerKeys, j))
    decreases |table| - from
  {
    if from == |table| then None
    else if Contains(message, Needle(table, lowerKeys, from)) then Some(from)
    else FirstMatchFrom(table, lowerKeys, message, from + 1)
  }

  function FirstMatch<V>(table: seq<(string, V)>, lowerKeys: bool, message: string): Option<nat> {
    FirstMatchFrom(table, lowerKeys, message, 0)
  }

  /** The first match is the earliest entry that occurs. */
  lemma FirstMatchIs<V>(table: seq<(string, V)>, lowerKeys: bool, message: string, i: nat)
    requires i < |table| && Contains(message, Needle(table, lowerKeys, i))
    requires forall j :: 0 <= j < i ==> !Contains(message, Needle(table, lowerKeys, j))
    ensures FirstMatch(table, lowerKeys, message) == Some(i)
  {
  }

  /** One `for ... of Object.entries(...)` loop with its `break`: the first entry whose needle occurs. */
  method FindFirst<V>(table: seq<(string, V)>, lowerKeys: bool, message: string) returns (r: Option<nat>)
    ensures r == FirstMatch(table, lowerKeys, message)
  {
    r := None;
    var i := 0;
    while i < |table|
      invariant i <= |table|
      invariant FirstMatchFrom(table, lowerKeys, message, i) == FirstMatch(table, lowerKeys, message)
    {
      var needle := if lowerKeys then Lower(table[i].0) else table[i].0;
      if Contains(message, needle) {
        r := Some(i);
        break;
      }
      i := i + 1;
    }
  }

  /** `Math.floor(Math.random() * 4)`. */
  function FallbackIndex(roll: real): (k: nat)
    requires 0.0 <= roll < 1.0
    ensures k < |Fallbacks|
  {
    assert roll * 4.0 < 4.0;
    (roll * 4.0).Floor
  }

  /**
   * `generateResponse`: the reply of the first response key occurring in the
   * lower-cased message; failing that, the reply of the first keyword
   * occurring in it; failing that (or if that reply were undefined), a fallback.
   */
  function Respond(message: string, roll: real): Reply
    requires 0.0 <= roll < 1.0
  {
    var lower := Lower(message);
    var key := FirstMatch(Responses, true, lower);
    if key.Some? then Responses[key.value].1
    else
      var keyword := FirstMatch(Keywords, false, lower);
      var reply := if keyword.Some? then Lookup(Keywords[keyword.value].1) else None;
      if reply.Some? then reply.value else Fallbacks[FallbackIndex(roll)]
  }

  /** `generateResponse` step by step: the two searches, then the falsy-response fallback. */
  method GenerateResponse(message: string, roll: real) returns (response: Reply)
    requires 0.0 <= roll < 1.0
    ensures response == Respond(message, roll)
  {
    var lower := Lower(message);
    var found: Option<Reply> := None;
    var key := FindFirst(Responses, true, lower);
    if key.Some? {
      found := Some(Responses[key.value].1);
    }
    if found.None? {
      var keyword := FindFirst(Keywords, false, lower);
      if keyword.Some? {
        found := Lookup(Keywords[keyword.value].1);
      }
    }
    if found.None? {
      found := Some(Fallbacks[FallbackIndex(roll)]);
    }
    response := found.value;
  }

  /** Every keyword names a key that `responses` has, so a matched keyword always yields that key's reply. */
  lemma KeywordTargetsExist(j: nat)
    requires j < |Keywords|
    ensures Lookup(Keywords[j].1).Some?
  {
    var target := [6, 6, 6, 6, 6, 7, 7, 7, 0, 0, 3, 5, 5, 4, 4, 12, 11, 10];
    assert Responses[target[j]].0 == Keywords[j].1;
  }

  /** A message in which response key i occurs, and no earlier one, gets that key's reply. */
  lemma ResponseKeyWins(message: string, roll: real, i: nat)
    requires 0.0 <= roll < 1.0 && i < |Responses|
    requires Contains(Lower(message), Lower(Responses[i].0))
    requires forall j :: 0 <= j < i ==> !Contains(Lower(message), Lower(Responses[j].0))
    ensures Respond(message, roll) == Responses[i].1
  {
    FirstMatchIs(Responses, true, Lower(message), i);
  }

  /** Keywords are consulted only when no response key occurs; then the first occurring keyword decides. */
  lemma KeywordWins(message: string, roll: real, j: nat)
    requires 0.0 <= roll < 1.0 && j < |Keywords|
    requires forall i :: 0 <= i < |Responses| ==> !Contains(Lower(message), Lower(Responses[i].0))
    requires Contains(Lower(message), Keywords[j].0)
    requires forall k :: 0 <= k < j ==> !Contains(Lower(message), Keywords[k].0)
    ensures Lookup(Keywords[j].1).Some? && Respond(message, roll) == Lookup(Keywords[j].1).value
  {
    FirstMatchIs(Keywords, false, Lower(message), j);
    KeywordTargetsExist(j);
  }

  /** With neither a response key nor a keyword in the message, the reply is the fallback the roll picks. */
  lemma FallbackWhenNothingMatches(message: string, roll: real)
    requires 0.0 <= roll < 1.0
    requires forall i :: 0 <= i < |Responses| ==> !Contains(Lower(message), Lower(Responses[i].0))
    requires forall k :: 0 <= k < |Keywords| ==> !Contains(Lower(message), Keywords[k].0)
    ensures Respond(message, roll) == Fallbacks[FallbackIndex(roll)]
  {
    var m := Lower(message);
    assert forall i :: 0 <= i < |Responses| ==> !Contains(m, Needle(Responses, true, i));
    assert forall k :: 0 <= k < |Keywords| ==> !Contains(m, Needle(Keywords, false, k));
  }

  /**
   * The keywords 'demo', 'contact', 'support' and 'help' never decide a reply:
   * a message containing one of them contains the response key of the same
   * name, which is checked first.
   */
  lemma ShadowedKeywordsNeverDecide(message: string, k: nat)
    requires k in {5, 15, 16, 17}
    requires Contains(Lower(message), Keywords[k].0)
    ensures FirstMatch(Responses, true, Lower(message)).Some?
  {
    var same := if k == 5 then 7 else if k == 15 then 12 else if k == 16 then 11 else 10;
    LowerLiteral(Responses[same].0, Keywords[k].0);
    assert Contains(Lower(message), Needle(Responses, true, same));
  }

  /** No stored response is one of the fallbacks. */
  lemma StoredRepliesAreNotFallbacks()
    ensures forall i :: 0 <= i < |Responses| ==> Responses[i].1 !in Fallbacks
  {
  }

  /**
   * When a response key or a keyword occurs, the reply is a stored response
   * and never a fallback: fallbacks are given exactly when nothing matches.
   */
  lemma MatchedReplyIsStored(message: string, roll: real)
    requires 0.0 <= roll < 1.0
    requires FirstMatch(Responses, true, Lower(message)).Some? || FirstMatch(Keywords, false, Lower(message)).Some?
    ensures exists i :: 0 <= i < |Responses| && Respond(message, roll) == Responses[i].1
    ensures Respond(message, roll) !in Fallbacks
  {
    var lower := Lower(message);
    var key := FirstMatch(Responses, true, lower);
    var i: nat;
    if key.Some? {
      i := key.value;
    } else {
      var keyword := FirstMatch(Keywords, false, lower).value;
      KeywordTargetsExist(keyword);
      var reply := Lookup(Keywords[keyword].1);
      i :| 0 <= i < |Responses| && Responses[i] == (Keywords[keyword].1, reply.value);
    }
    assert Respond(message, roll) == Responses[i].1;
    StoredRepliesAreNotFallbacks();
  }

  /** Neither of the two longer earlier question keys occurs in "What industries do you serve?", once lower-cased. */
  lemma IndustriesQuestionClearOfLong(j: nat)
    requires j < 2
    ensures !Contains(Lower(Responses[4].0), Lower(Responses[j].0))
  {
    if j == 0 {
      AbsentByMismatch(Responses[4].0, Responses[0].0, [5, 0, 0]);
    } else {
      AbsentByMismatch(Responses[4].0, Responses[1].0, [0, 1, 0, 0, 0, 0, 0, 0]);
    }
  }

  /** "Can I get a demo?" does not occur in "What industries do you serve?", once both are lower-cased. */
  lemma IndustriesQuestionClearOfDemo()
    ensures !Contains(Lower(Responses[4].0), Lower(Responses[2].0))
  {
    AbsentByMismatch(Responses[4].0, Responses[2].0, [0, 0, 0, 0, 0, 0, 0, 0, 0, 0, 0, 0, 0]);
  }

  /** "How does it work?" does not occur in "What industries do you serve?", once both are lower-cased. */
  lemma IndustriesQuestionClearOfHowItWorks()
    ensures !Contains(Lower(Responses[4].0), Lower(Responses[3].0))
  {
    AbsentByMismatch(Responses[4].0, Responses[3].0, [0, 1, 0, 0, 0, 0, 0, 0, 0, 0, 0, 0, 0]);
  }

  /** No earlier question key occurs in a later one, once both are lower-cased. */
  lemma EarlierQuestionAbsent(i: nat, j: nat)
    requires j < i < 6
    ensures !Contains(Lower(Responses[i].0), Lower(Responses[j].0))
  {
    var message, key := Responses[i].0, Responses[j].0;
    if i == 4 && j < 2 {
      IndustriesQuestionClearOfLong(j);
    } else if i == 4 && j == 2 {
      IndustriesQuestionClearOfDemo();
    } else if i == 4 {
      IndustriesQuestionClearOfHowItWorks();
    } else if i == 3 && j == 2 {
      AbsentByMismatch(message, key, [0]);
    } else if i == 5 && (j == 2 || j == 3) {
      AbsentByMismatch(message, key, [0, 0, 0, 0]);
    } else {
      AbsentByLength(message, key);
    }
  }

  /** Each of the six question keys, sent as written, gets its own reply. */
  lemma QuestionsAnswerThemselves(i: nat, roll: real)
    requires i < 6 && 0.0 <= roll < 1.0
    ensures Respond(Responses[i].0, roll) == Responses[i].1
  {
    ContainsSelf(Lower(Responses[i].0));
    forall j | 0 <= j < i
      ensures !Contains(Lower(Responses[i].0), Lower(Responses[j].0))
    {
      EarlierQuestionAbsent(i, j);
    }
    ResponseKeyWins(Responses[i].0, roll, i);
  }

  /** U+0130 lower-cases to 'i' and a combining dot, so "H\U{130}" contains the key 'hi' and gets its reply. */
  lemma DottedCapitalIAnswersHi(roll: real)
    requires 0.0 <= roll < 1.0
    ensures Lower("H\U{130}") == "hi\U{307}"
    ensures Respond("H\U{130}", roll) == Hi
  {
    var m := Lower("H\U{130}");
    assert "H\U{130}"[1] == DottedCapitalI;
    var d := Decomposed("H\U{130}");
    assert d == "HI\U{307}";
    assert LowerChar('H') == 'h' && LowerChar('I') == 'i' && LowerChar('\U{307}') == '\U{307}';
    assert |m| == 3 && m[0] == LowerChar(d[0]) && m[1] == LowerChar(d[1]) && m[2] == LowerChar(d[2]);
    assert m == "hi\U{307}";
    LowerLiteral(Responses[9].0, "hi");
    assert OccursAt(m, "hi", 0);
    forall j | 0 <= j < 9
      ensures !Contains(m, Lower(Responses[j].0))
    {
      if Contains(m, Lower(Responses[j].0)) {
        ContainsLength(m, Lower(Responses[j].0));
      }
    }
    ResponseKeyWins("H\U{130}", roll, 9);
  }

  /** No response key occurs in "wor\U{212A}" once lower-cased. */
  lemma KelvinMessageMissesKeys(i: nat)
    requires i < |Responses|
    ensures !Contains(Lower("wor\U{212A}"), Lower(Responses[i].0))
  {
    if i == 7 || i == 10 {
      AbsentByMismatch("wor\U{212A}", Responses[i].0, [0]);
    } else if i == 9 {
      AbsentByMismatch("wor\U{212A}", Responses[i].0, [0, 0, 0]);
    } else {
      AbsentByLength("wor\U{212A}", Responses[i].0);
    }
  }

  /** None of the keywords before 'work' occurs in "wor\U{212A}" once lower-cased. */
  lemma KelvinMessageMissesEarlyKeywords(k: nat)
    requires k < 10
    ensures !Contains(Lower("wor\U{212A}"), Keywords[k].0)
  {
    var keyword := Keywords[k].0;
    LowerLiteral(keyword, keyword);
    if k == 1 || k == 4 || k == 5 || k == 7 {
      AbsentByMismatch("wor\U{212A}", keyword, [0]);
    } else if k == 6 {
      AbsentByMismatch("wor\U{212A}", keyword, [0, 0]);
    } else {
      AbsentByLength("wor\U{212A}", keyword);
    }
  }

  /** U+212A KELVIN SIGN lower-cases to 'k', so "wor\U{212A}" contains the keyword 'work' and gets the 'How does it work?' reply. */
  lemma KelvinSignAnswersWork(roll: real)
    requires 0.0 <= roll < 1.0
    ensures Lower("wor\U{212A}") == "work"
    ensures Respond("wor\U{212A}", roll) == HowItWorks
  {
    LowerLiteral("wor\U{212A}", "work");
    forall i | 0 <= i < |Responses|
      ensures !Contains(Lower("wor\U{212A}"), Lower(Responses[i].0))
    {
      KelvinMessageMissesKeys(i);
    }
    forall k | 0 <= k < 10
      ensures !Contains(Lower("wor\U{212A}"), Keywords[k].0)
    {
      KelvinMessageMissesEarlyKeywords(k);
    }
    ContainsSelf("work");
    KeywordWins("wor\U{212A}", roll, 10);
    assert Lookup(Keywords[10].1) == Some(HowItWorks);
  }

  /** An entry of `#chatbotMessages`: a user message, a bot reply, the opening greeting, or the typing indicator. */
  datatype Item = FromUser(text: string) | FromBot(reply: Reply) | Greeting | Typing

  function TypingCount(items: seq<Item>): nat {
    if items == [] then 0 else (if items[0] == Typing then 1 else 0) + TypingCount(items[1..])
  }

  /** The conversation shown: every entry except typing indicators, in order. */
  function Conversation(items: seq<Item>): seq<Item> {
    if items == [] then [] else (if items[0] == Typing then [] else [items[0]]) + Conversation(items[1..])
  }

  lemma {:induction false} AppendItem(items: seq<Item>, item: Item)
    ensures TypingCount(items + [item]) == TypingCount(items) + (if item == Typing then 1 else 0)
    ensures Conversation(items + [item]) == Conversation(items) + (if item == Typing then [] else [item])
    decreases |items|
  {
    if items != [] {
      assert (items + [item])[1..] == items[1..] + [item];
      AppendItem(items[1..], item);
    }
  }

  /** `hideTypingIndicator`: remove the first typing indicator, if there is one; the conversation is untouched. */
  function WithoutTyping(items: seq<Item>): (r: seq<Item>)
    ensures TypingCount(r) == if TypingCount(items) == 0 then 0 else TypingCount(items) - 1
    ensures Conversation(r) == Conversation(items)
    ensures TypingCount(items) == 0 ==> r == items
    ensures |r| == |items| - (if TypingCount(items) == 0 then 0 else 1)
  {
    if items == [] then []
    else if items[0] == Typing then items[1..]
    else [items[0]] + WithoutTyping(items[1..])
  }

  /**
   * The demo widget. `hasWindow`, `hasMessages` and `hasQuickReplies` say
   * whether `#chatbotWindow`, `#chatbotMessages` and `#quickReplies` exist;
   * without the window no handler is bound. `pending` holds the messages
   * whose reply `sendMessage` has scheduled and not yet delivered.
   */
  class ChatbotDemo {
    const hasWindow: bool
    const hasMessages: bool
    const hasQuickReplies: bool
    var items: seq<Item>
    var input: string
    var quickRepliesHidden: bool
    var pending: seq<string>
    var greetingPending: bool

    /** At most one typing indicator, and no entries without a container for them. */
    ghost predicate Valid()
      reads this
    {
      TypingCount(items) <= 1 && (!hasMessages ==> items == [])
    }

    /** `init`: with the window present, show the typing indicator and schedule the greeting. */
    constructor (hasWindow: bool, hasMessages: bool, hasQuickReplies: bool)
      ensures Valid()
      ensures this.hasWindow == hasWindow && this.hasMessages == hasMessages && this.hasQuickReplies == hasQuickReplies
      ensures items == (if hasWindow && hasMessages then [Typing] else [])
      ensures greetingPending == hasWindow && pending == [] && input == "" && !quickRepliesHidden
    {
      this.hasWindow, this.hasMessages, this.hasQuickReplies := hasWindow, hasMessages, hasQuickReplies;
      items, input, quickRepliesHidden, pending := [], "", false, [];
      greetingPending := hasWindow;
      if hasWindow && hasMessages {
        items := [Typing];
      }
    }

    /** `showTypingIndicator`: nothing if an indicator exists; otherwise append one when the container exists. */
    method ShowTypingIndicator()
      requires Valid()
      modifies this
      ensures Valid()
      ensures TypingCount(items) == (if hasMessages then 1 else 0)
      ensures Conversation(items) == Conversation(old(items))
      ensures TypingCount(old(items)) == 0 && hasMessages ==> items == old(items) + [Typing]
      ensures TypingCount(old(items)) != 0 || !hasMessages ==> items == old(items)
      ensures input == old(input) && pending == old(pending) && quickRepliesHidden == old(quickRepliesHidden) && greetingPending == old(greetingPending)
    {
      if TypingCount(items) == 0 && hasMessages {
        AppendItem(items, Typing);
        items := items + [Typing];
      }
    }

    /** `hideTypingIndicator`. */
    method HideTypingIndicator()
      requires Valid()
      modifies this
      ensures Valid()
      ensures items == WithoutTyping(old(items)) && TypingCount(items) == 0
      ensures input == old(input) && pending == old(pending) && quickRepliesHidden == old(quickRepliesHidden) && greetingPending == old(greetingPending)
    {
      items := WithoutTyping(items);
    }

    /** `addMessage`: append exactly one entry at the end when the container exists. */
    method AddMessage(item: Item)
      requires Valid() && item != Typing
      modifies this
      ensures Valid()
      ensures items == (if hasMessages then old(items) + [item] else old(items))
      ensures Conversation(items) == Conversation(old(items)) + (if hasMessages then [item] else [])
      ensures TypingCount(items) == TypingCount(old(items))
      ensures input == old(input) && pending == old(pending) && quickRepliesHidden == old(quickRepliesHidden) && greetingPending == old(greetingPending)
    {
      AppendItem(items, item);
      if hasMessages {
        items := items + [item];
      }
    }

    /** The greeting timer of `init`: hide the indicator, then greet. */
    method Greet()
      requires Valid() && greetingPending
      modifies this
      ensures Valid() && !greetingPending
      ensures Conversation(items) == Conversation(old(items)) + (if hasMessages then [Greeting] else [])
      ensures TypingCount(items) == 0
      ensures input == old(input) && pending == old(pending) && quickRepliesHidden == old(quickRepliesHidden)
    {
      HideTypingIndicator();
      AddMessage(Greeting);
      greetingPending := false;
    }

    /** `sendMessage`: show the user's message, hide the quick replies, show the indicator and schedule the reply. */
    method SendMessage(message: string)
      requires Valid()
      modifies this
      ensures Valid()
      ensures Conversation(items) == Conversation(old(items)) + (if hasMessages then [FromUser(message)] else [])
      ensures TypingCount(items) == (if hasMessages then 1 else 0)
      ensures quickRepliesHidden == (old(quickRepliesHidden) || hasQuickReplies)
      ensures pending == old(pending) + [message]
      ensures input == old(input) && greetingPending == old(greetingPending)
    {
      AddMessage(FromUser(message));
      if hasQuickReplies {
        quickRepliesHidden := true;
      }
      ShowTypingIndicator();
      pending := pending + [message];
    }

    /** `handleSendMessage` (send button or Enter): send the trimmed input unless it is blank, then clear the input. */
    method HandleSendMessage()
      requires Valid()
      modifies this
      ensures Valid()
      ensures !hasWindow || Trim(old(input)) == "" ==>
        items == old(items) && input == old(input) && pending == old(pending) && quickRepliesHidden == old(quickRepliesHidden)
      ensures hasWindow && Trim(old(input)) != "" ==>
        input == "" && pending == old(pending) + [Trim(old(input))] &&
        Conversation(items) == Conversation(old(items)) + (if hasMessages then [FromUser(Trim(old(input)))] else []) &&
        TypingCount(items) == (if hasMessages then 1 else 0) && quickRepliesHidden == (old(quickRepliesHidden) || hasQuickReplies)
      ensures greetingPending == old(greetingPending)
    {
      if hasWindow {
        var message := Trim(input);
        if message != "" {
          SendMessage(message);
          input := "";
        }
      }
    }

    /** A click on a quick-reply button: its `data-message` is sent as it is, without trimming. */
    method ClickQuickReply(message: string)
      requires Valid()
      modifies this
      ensures Valid()
      ensures hasWindow && hasQuickReplies ==>
        pending == old(pending) + [message] && quickRepliesHidden &&
        Conversation(items) == Conversation(old(items)) + (if hasMessages then [FromUser(message)] else []) &&
        TypingCount(items) == (if hasMessages then 1 else 0)
      ensures !(hasWindow && hasQuickReplies) ==>
        items == old(items) && pending == old(pending) && quickRepliesHidden == old(quickRepliesHidden)
      ensures input == old(input) && greetingPending == old(greetingPending)
    {
      if hasWindow && hasQuickReplies {
        SendMessage(message);
      }
    }

    /** The reply timer of pending message k (delays are random, so any pending reply may come first). */
    method DeliverReply(k: nat, roll: real)
      requires Valid() && k < |pending| && 0.0 <= roll < 1.0
      modifies this
      ensures Valid()
      ensures Conversation(items) == Conversation(old(items)) + (if hasMessages then [FromBot(Respond(old(pending)[k], roll))] else [])
      ensures TypingCount(items) == 0
      ensures pending == old(pending)[..k] + old(pending)[k + 1..]
      ensures input == old(input) && greetingPending == old(greetingPending) && quickRepliesHidden == old(quickRepliesHidden)
    {
      var message := pending[k];
      HideTypingIndicator();
      var reply := GenerateResponse(message, roll);
      AddMessage(FromBot(reply));
      pending := pending[..k] + pending[k + 1..];
    }
  }
}
