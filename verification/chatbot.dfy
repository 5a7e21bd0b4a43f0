/** The portfolio's chat assistant (public/ai-chatbot.js): the keyword dispatch that picks a
    reply and the widget state that the handlers update. A reply is identified by its topic;
    the long texts the knowledge base renders for each topic are not part of this model. */
module Chatbot {
  import opened Text

  datatype Topic =
    | Greeting | Skills | Projects | Experience | Education | Services | Contact | About
    | Availability | Achievements | Fallback

  datatype Rule = Rule(topic: Topic, keywords: seq<string>)

  /** The categories `generateResponse` tries, in its order. */
  const Rules: seq<Rule> := [
    Rule(Greeting, ["hi", "hello", "hey", "greetings"]),
    Rule(Skills, ["skill", "technology", "tech stack", "what can", "programming"]),
    Rule(Projects, ["project", "work", "portfolio", "built", "created"]),
    Rule(Experience, ["experience", "background", "years", "worked"]),
    Rule(Education, ["education", "university", "study", "degree", "student"]),
    Rule(Services, ["service", "offer", "do", "help", "hire"]),
    Rule(Contact, ["contact", "email", "phone", "reach", "get in touch"]),
    Rule(About, ["who", "about", "tell me"]),
    Rule(Availability, ["available", "hire", "freelance", "work"]),
    Rule(Achievements, ["achievement", "award", "accomplishment", "success"])
  ]

  /** `keywords.some(k => message.includes(k))`. */
  predicate MatchesPattern(message: string, keywords: seq<string>) {
    keywords != [] && (Contains(message, keywords[0]) || MatchesPattern(message, keywords[1..]))
  }

  /** The scan agrees with `some`: a keyword of the list occurs in the message. */
  lemma {:induction false} MatchesPatternIff(message: string, keywords: seq<string>)
    ensures MatchesPattern(message, keywords) <==> exists k :: k in keywords && Contains(message, k)
  {
    if keywords != [] {
      MatchesPatternIff(message, keywords[1..]);
      assert forall k :: k in keywords <==> k == keywords[0] || k in keywords[1..];
      if Contains(message, keywords[0]) {
        assert keywords[0] in keywords;
      }
    }
  }

  /** The topic of the first rule whose keywords match, or the fallback. */
  function FirstMatch(message: string, rules: seq<Rule>): Topic {
    if rules == [] then Fallback
    else if MatchesPattern(message, rules[0].keywords) then rules[0].topic
    else FirstMatch(message, rules[1..])
  }

  /** `generateResponse`: lower-case the input, then dispatch. */
  function GenerateResponse(message: string): Topic {
    FirstMatch(ToLower(message), Rules)
  }

  /** First match wins: with no rule for the fallback topic, the answer is the fallback
      exactly when no rule matches, and otherwise the topic of a matching rule with no
      matching rule before it. */
  lemma {:induction false} FirstMatchSpec(message: string, rules: seq<Rule>)
    requires forall j :: 0 <= j < |rules| ==> rules[j].topic != Fallback
    ensures FirstMatch(message, rules) == Fallback <==>
      forall j :: 0 <= j < |rules| ==> !MatchesPattern(message, rules[j].keywords)
    ensures FirstMatch(message, rules) != Fallback ==>
      exists j :: 0 <= j < |rules| && rules[j].topic == FirstMatch(message, rules) &&
        MatchesPattern(message, rules[j].keywords) &&
        forall l :: 0 <= l < j ==> !MatchesPattern(message, rules[l].keywords)
  {
    if rules != [] {
      var tail := rules[1..];
      assert forall j :: 1 <= j < |rules| ==> rules[j] == tail[j - 1];
      FirstMatchSpec(message, tail);
      var t := FirstMatch(message, rules);
      if MatchesPattern(message, rules[0].keywords) {
        assert rules[0].topic == t;
      } else if t != Fallback {
        var j :| 0 <= j < |tail| && tail[j].topic == t && MatchesPattern(message, tail[j].keywords) &&
          forall l :: 0 <= l < j ==> !MatchesPattern(message, tail[l].keywords);
        assert rules[j + 1].topic == t && MatchesPattern(message, rules[j + 1].keywords);
        assert forall l :: 1 <= l < j + 1 ==> rules[l] == tail[l - 1];
      }
    }
  }

  /** The dispatch does not depend on case. */
  lemma GenerateResponseIgnoresCase(message: string)
    ensures GenerateResponse(ToLower(message)) == GenerateResponse(message)
  {
    forall i | 0 <= i < |message| ensures ToLower(ToLower(message))[i] == ToLower(message)[i] {
      LowerCharFixes(message[i]);
    }
    assert ToLower(ToLower(message)) == ToLower(message);
  }

  /** Any input holding `hi` in any case gets the greeting, whatever else it asks. */
  lemma HiGreets(message: string)
    requires Contains(ToLower(message), "hi")
    ensures GenerateResponse(message) == Greeting
  {
  }

  /** For instance "this", which merely contains `hi`. */
  lemma ThisGreets()
    ensures GenerateResponse("this") == Greeting
  {
    ToLowerNoUpper("this");
    ContainsIff("this", "hi");
    assert OccursAt("this", "hi", 1);
  }

  /** `hire` and `work` also sit in the availability list, but the services and projects rules
      claim them first. */
  lemma HireAndWorkShadowed(message: string)
    requires Contains(ToLower(message), "hire") || Contains(ToLower(message), "work")
    ensures GenerateResponse(message) != Availability
  {
    var m := ToLower(message);
    EarlyTopics();
    if Contains(m, "work") {
      KeywordsOf(m, Rules[2].keywords, "work");
      RuleShadows(m, Rules, 2, Availability);
    } else {
      KeywordsOf(m, Rules[5].keywords, "hire");
      RuleShadows(m, Rules, 5, Availability);
    }
  }

  lemma EarlyTopics()
    ensures forall l :: 0 <= l <= 5 ==> Rules[l].topic != Availability
    ensures "work" in Rules[2].keywords && "hire" in Rules[5].keywords
  {
  }

  /** So the availability reply needs `available` or `freelance`. */
  lemma AvailabilityNeedsOwnKeyword(message: string)
    requires GenerateResponse(message) == Availability
    ensures !Contains(ToLower(message), "hire") && !Contains(ToLower(message), "work")
    ensures Contains(ToLower(message), "available") || Contains(ToLower(message), "freelance")
  {
    var m := ToLower(message);
    if Contains(m, "hire") || Contains(m, "work") {
      HireAndWorkShadowed(message);
    }
    var j := MatchedRule(m, Rules);
    AvailabilityRule(j);
    MatchesPatternIff(m, Rules[8].keywords);
  }

  lemma AvailabilityRule(j: int)
    requires 0 <= j < |Rules| && Rules[j].topic == Availability
    ensures j == 8
  {
  }

  /** A matching rule hides every later rule's topic. */
  lemma {:induction false} RuleShadows(m: string, rules: seq<Rule>, i: int, t: Topic)
    requires 0 <= i < |rules| && MatchesPattern(m, rules[i].keywords)
    requires t != Fallback && forall l :: 0 <= l <= i ==> rules[l].topic != t
    ensures FirstMatch(m, rules) != t
  {
    if i > 0 && !MatchesPattern(m, rules[0].keywords) {
      assert rules[1..][i - 1] == rules[i];
      assert forall l :: 0 <= l <= i - 1 ==> rules[1..][l] == rules[l + 1];
      RuleShadows(m, rules[1..], i - 1, t);
    }
  }

  /** The index of the rule that produced a non-fallback answer. */
  lemma {:induction false} MatchedRule(m: string, rules: seq<Rule>) returns (j: int)
    requires FirstMatch(m, rules) != Fallback
    ensures 0 <= j < |rules| && rules[j].topic == FirstMatch(m, rules) && MatchesPattern(m, rules[j].keywords)
  {
    if MatchesPattern(m, rules[0].keywords) {
      j := 0;
    } else {
      var k := MatchedRule(m, rules[1..]);
      j := k + 1;
    }
  }

  /** One keyword found in the message makes its rule match; a step of `HireAndWorkShadowed`
      and `AvailabilityNeedsOwnKeyword`. */
  lemma KeywordsOf(m: string, keywords: seq<string>, k: string)
    requires k in keywords && Contains(m, k)
    ensures MatchesPattern(m, keywords)
  {
    MatchesPatternIff(m, keywords);
  }

  // ---------------------------------------------------------------- widget state

  /** An entry of `conversationHistory`; a bot entry records which reply it was. */
  datatype Entry = User(content: string) | Bot(reply: Topic)

  function UserCount(h: seq<Entry>): nat {
    if h == [] then 0 else (if h[0].User? then 1 else 0) + UserCount(h[1..])
  }

  function BotCount(h: seq<Entry>): nat {
    if h == [] then 0 else (if h[0].Bot? then 1 else 0) + BotCount(h[1..])
  }

  /** Every entry is one or the other. */
  lemma {:induction false} CountsCover(h: seq<Entry>)
    ensures UserCount(h) + BotCount(h) == |h|
  {
    if h != [] {
      CountsCover(h[1..]);
    }
  }

  lemma {:induction false} CountsAppend(h: seq<Entry>, e: Entry)
    ensures UserCount(h + [e]) == UserCount(h) + (if e.User? then 1 else 0)
    ensures BotCount(h + [e]) == BotCount(h) + (if e.Bot? then 1 else 0)
  {
    if h != [] {
      assert (h + [e])[1..] == h[1..] + [e];
      CountsAppend(h[1..], e);
    } else {
      assert [e][1..] == [];
    }
  }

  /** The widget: its history (as loaded from and saved to storage), whether it is open, the
      session and user ids, the stored user id, and the user messages whose delayed reply has
      not fired yet. */
  class Assistant {
    var history: seq<Entry>
    var savedHistory: Option<seq<Entry>>
    var isOpen: bool
    var sessionId: string
    var userId: string
    var storedUserId: Option<string>
    var pending: seq<string>
    /** How many more user entries than bot entries the loaded history held. */
    ghost const loadedSurplus: int

    /** Every handled message is answered once its reply fires. */
    ghost predicate Valid()
      reads this
    {
      UserCount(history) - BotCount(history) == loadedSurplus + |pending|
    }

    /** The constructor with `init`: a new session, and the history that storage holds. */
    constructor (stored: Option<string>, saved: Option<seq<Entry>>, freshSession: string, freshUser: string)
      ensures Valid() && isOpen == false && pending == [] && savedHistory == saved
      ensures history == (if saved.Some? then saved.value else [])
      ensures sessionId == freshSession
      ensures stored.Some? && stored.value != "" ==> userId == stored.value && storedUserId == stored
      ensures !(stored.Some? && stored.value != "") ==> userId == freshUser && storedUserId == Some(freshUser)
    {
      var h := if saved.Some? then saved.value else [];
      history := h;
      savedHistory := saved;
      isOpen := false;
      pending := [];
      storedUserId := stored;
      sessionId := "";
      userId := "";
      loadedSurplus := UserCount(h) - BotCount(h);
      new;
      InitializeSession(freshSession, freshUser);
    }

    /** `initializeSession`: a new session id every time; the stored user id when there is one,
        otherwise a new one that is also stored. */
    method InitializeSession(freshSession: string, freshUser: string)
      modifies this
      ensures sessionId == freshSession
      ensures old(storedUserId).Some? && old(storedUserId).value != "" ==>
        userId == old(storedUserId).value && storedUserId == old(storedUserId)
      ensures !(old(storedUserId).Some? && old(storedUserId).value != "") ==>
        userId == freshUser && storedUserId == Some(freshUser)
      ensures history == old(history) && pending == old(pending) && isOpen == old(isOpen)
      ensures savedHistory == old(savedHistory)
    {
      sessionId := freshSession;
      if storedUserId.Some? && storedUserId.value != "" {
        userId := storedUserId.value;
      } else {
        userId := freshUser;
        storedUserId := Some(freshUser);
      }
    }

    /** `toggleChat`. */
    method ToggleChat()
      modifies this
      ensures isOpen == !old(isOpen)
      ensures history == old(history) && pending == old(pending) && userId == old(userId)
      ensures sessionId == old(sessionId) && storedUserId == old(storedUserId) && savedHistory == old(savedHistory)
    {
      isOpen := !isOpen;
    }

    /** The Escape key closes an open window and leaves a closed one closed. */
    method OnKey(key: string)
      modifies this
      ensures key == "Escape" ==> !isOpen
      ensures key != "Escape" ==> isOpen == old(isOpen)
      ensures history == old(history) && pending == old(pending) && savedHistory == old(savedHistory)
      ensures sessionId == old(sessionId) && userId == old(userId) && storedUserId == old(storedUserId)
    {
      if key == "Escape" && isOpen {
        ToggleChat();
      }
    }

    /** `handleUserMessage`: the message goes into the history at once; its reply is scheduled. */
    method HandleUserMessage(message: string)
      requires Valid()
      modifies this
      ensures Valid()
      ensures history == old(history) + [User(message)]
      ensures pending == old(pending) + [message]
      ensures isOpen == old(isOpen) && savedHistory == old(savedHistory)
      ensures sessionId == old(sessionId) && userId == old(userId) && storedUserId == old(storedUserId)
    {
      CountsAppend(history, User(message));
      history := history + [User(message)];
      pending := pending + [message];
    }

    /** `handleSubmit`: the input is trimmed and white space alone is ignored. */
    method HandleSubmit(input: string)
      requires Valid()
      modifies this
      ensures Valid()
      ensures Trim(input) == [] ==> history == old(history) && pending == old(pending)
      ensures Trim(input) != [] ==>
        history == old(history) + [User(Trim(input))] && pending == old(pending) + [Trim(input)]
      ensures isOpen == old(isOpen) && savedHistory == old(savedHistory)
      ensures sessionId == old(sessionId) && userId == old(userId) && storedUserId == old(storedUserId)
    {
      var message := Trim(input);
      if message != [] {
        HandleUserMessage(message);
      }
    }

    /** The delayed reply to pending message `k` fires (the random delays let replies overtake
        each other): the bot entry is appended and the whole history is saved. */
    method DeliverReply(k: nat)
      requires Valid() && k < |pending|
      modifies this
      ensures Valid()
      ensures history == old(history) + [Bot(GenerateResponse(old(pending)[k]))]
      ensures pending == old(pending)[..k] + old(pending)[k + 1..]
      ensures savedHistory == Some(history)
      ensures isOpen == old(isOpen)
      ensures sessionId == old(sessionId) && userId == old(userId) && storedUserId == old(storedUserId)
    {
      var reply := GenerateResponse(pending[k]);
      CountsAppend(history, Bot(reply));
      history := history + [Bot(reply)];
      pending := pending[..k] + pending[k + 1..];
      savedHistory := Some(history);
    }
  }
}
