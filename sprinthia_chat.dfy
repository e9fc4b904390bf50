/**
 * The mobile Sprinthia chat screen: the canned coach reply chosen by the
 * first keyword rule the lower-cased message matches, sending a message,
 * the delayed reply, and the quick prompts.  Reply texts are named by
 * their topic; message ids are made from a clock reading passed in.
 */
module SprinthiaChat {
  import opened Common

  datatype Topic = Workout | Technique | Competition | Recovery | Nutrition | Mental | General

  /** A keyword rule: any of its keywords selects its topic. */
  datatype Rule = Rule(keywords: seq<string>, topic: Topic)

  /** The rules of `getAIResponse`, in the order they are tried. */
  const Rules: seq<Rule> := [
    Rule(["400m", "workout"], Workout),
    Rule(["technique", "sprint"], Technique),
    Rule(["competition", "schedule"], Competition),
    Rule(["recovery", "rest"], Recovery),
    Rule(["nutrition", "food"], Nutrition),
    Rule(["mental", "mindset"], Mental)]

  predicate Matches(input: string, r: Rule)
  {
    exists k :: 0 <= k < |r.keywords| && Contains(input, r.keywords[k])
  }

  /** The position of the first rule `input` matches. */
  function FirstMatch(rules: seq<Rule>, input: string): (i: Option<nat>)
    ensures i.Some? ==> i.value < |rules| && Matches(input, rules[i.value])
                        && forall j :: 0 <= j < i.value ==> !Matches(input, rules[j])
    ensures i.None? ==> forall j :: 0 <= j < |rules| ==> !Matches(input, rules[j])
    decreases |rules|
  {
    if rules == [] then None
    else if Matches(input, rules[0]) then Some(0)
    else
      var rest := FirstMatch(rules[1..], input);
      assert forall j :: 1 <= j < |rules| ==> rules[1..][j - 1] == rules[j];
      if rest.Some? then Some(rest.value + 1) else None
  }

  /** The topic of the first matching rule, or the general reply. */
  function TopicFor(rules: seq<Rule>, input: string): (t: Topic)
  {
    var i := FirstMatch(rules, input);
    if i.Some? then rules[i.value].topic else General
  }

  /**
   * `getAIResponse`: the message is lower-cased and the first rule one of
   * whose keywords it contains gives the reply; with none, the general reply.
   */
  function Reply(userInput: string): Topic
  {
    TopicFor(Rules, ToLower(userInput))
  }

  /** The reply is that of the first rule the lower-cased message matches, or the general one. */
  lemma ReplyIsFirstMatch(userInput: string)
    ensures forall i :: 0 <= i < |Rules| && Matches(ToLower(userInput), Rules[i])
                        && (forall j :: 0 <= j < i ==> !Matches(ToLower(userInput), Rules[j]))
                        ==> Reply(userInput) == Rules[i].topic
    ensures (forall i :: 0 <= i < |Rules| ==> !Matches(ToLower(userInput), Rules[i])) ==> Reply(userInput) == General
  {
    var l := ToLower(userInput);
    var m := FirstMatch(Rules, l);
    if m.Some? {
      forall i | 0 <= i < |Rules| && Matches(l, Rules[i]) && (forall j :: 0 <= j < i ==> !Matches(l, Rules[j]))
        ensures Reply(userInput) == Rules[i].topic
      {
        assert !(m.value < i) && !(i < m.value);
      }
    }
  }

  /** Capitals never change the reply. */
  lemma ReplyIgnoresCase(a: string, b: string)
    requires ToLower(a) == ToLower(b)
    ensures Reply(a) == Reply(b)
  {
  }

  const QuickPrompts: seq<string> := [
    "Create a 400m workout plan",
    "Analyze my sprint technique",
    "Plan my competition schedule",
    "Recovery tips after hard training",
    "Nutrition advice for sprinters",
    "Mental preparation strategies"]

  /** The lower case of the nutrition quick prompt. */
  lemma NutritionPromptLowered()
    ensures ToLower("Nutrition advice for sprinters") == "nutrition advice for sprinters"
  {
    var s, l := "Nutrition advice for sprinters", "nutrition advice for sprinters";
    forall i | 1 <= i < |s|
      ensures s[i] == l[i] && !IsCapital(l[i])
    {
    }
    assert ToLowerChar(s[0]) == l[0];
  }

  /** The lowered nutrition prompt names neither 400 m nor a workout, but contains both 'nutrition' and 'sprint'. */
  lemma NutritionPromptKeywords()
    ensures var l := "nutrition advice for sprinters";
            !Contains(l, "400m") && !Contains(l, "workout") && Contains(l, "nutrition") && Contains(l, "sprint")
  {
    var l := "nutrition advice for sprinters";
    MissingCharNotContained(l, "400m", '4');
    MissingCharNotContained(l, "workout", 'w');
    assert l[..9] == "nutrition" by {
      forall i | 0 <= i < 9
        ensures l[..9][i] == "nutrition"[i]
      {
      }
    }
    ContainsAt(l, "nutrition", 0);
    assert l[21..27] == "sprint" by {
      forall i | 0 <= i < 6
        ensures l[21..27][i] == "sprint"[i]
      {
      }
    }
    ContainsAt(l, "sprint", 21);
  }

  /** As written, the nutrition quick prompt gets the sprint technique reply, since 'sprinters' contains 'sprint'. */
  lemma NutritionPromptAnsweredAsTechnique()
    ensures QuickPrompts[4] == "Nutrition advice for sprinters"
    ensures Reply(QuickPrompts[4]) == Technique
  {
    NutritionPromptLowered();
    NutritionPromptKeywords();
    var l := ToLower(QuickPrompts[4]);
    assert !Matches(l, Rules[0]);
    assert Matches(l, Rules[1]) by {
      assert Rules[1].keywords[1] == "sprint";
    }
  }

  /** The rules with the nutrition rule tried before the technique rule. */
  const CorrectedRules: seq<Rule> := [Rules[0], Rules[4], Rules[1], Rules[2], Rules[3], Rules[5]]

  /** The reply with nutrition questions recognised before technique ones. */
  function CorrectedReply(userInput: string): (t: Topic)
    ensures forall i :: 0 <= i < |CorrectedRules| && Matches(ToLower(userInput), CorrectedRules[i])
                        && (forall j :: 0 <= j < i ==> !Matches(ToLower(userInput), CorrectedRules[j]))
                        ==> t == CorrectedRules[i].topic
  {
    TopicFor(CorrectedRules, ToLower(userInput))
  }

  /** With the corrected order the nutrition quick prompt gets the nutrition reply. */
  lemma CorrectedNutritionPrompt()
    ensures CorrectedReply(QuickPrompts[4]) == Nutrition
  {
    NutritionPromptLowered();
    NutritionPromptKeywords();
    var l := ToLower(QuickPrompts[4]);
    assert !Matches(l, CorrectedRules[0]);
    assert Matches(l, CorrectedRules[1]) by {
      assert CorrectedRules[1].keywords[0] == "nutrition";
    }
  }

  /**
   * The corrected order answers exactly as written except for a message
   * matching the nutrition rule and one of the three rules it now precedes.
   */
  lemma CorrectedAgreesElsewhere(userInput: string)
    requires var l := ToLower(userInput);
             Matches(l, Rules[4]) ==> !Matches(l, Rules[1]) && !Matches(l, Rules[2]) && !Matches(l, Rules[3])
    ensures CorrectedReply(userInput) == Reply(userInput)
  {
    var l := ToLower(userInput);
    var r, c := Rules, CorrectedRules;
    assert c[0] == r[0] && c[1] == r[4] && c[2] == r[1] && c[3] == r[2] && c[4] == r[3] && c[5] == r[5];
    if Matches(l, r[0]) {
    } else if Matches(l, r[1]) {
      assert !Matches(l, c[1]);
    } else if Matches(l, r[2]) {
    } else if Matches(l, r[3]) {
    } else if Matches(l, r[4]) {
    } else if Matches(l, r[5]) {
    } else {
      assert forall j :: 0 <= j < 6 ==> !Matches(l, c[j]);
    }
  }

  datatype Content = Welcome | UserText(text: string) | CoachReply(topic: Topic)

  datatype Message = Message(id: string, content: Content)
  {
    predicate IsUser()
    {
      content.UserText?
    }
  }

  /** The user's message sent at clock reading `at`. */
  function UserMessage(at: int, text: string): Message
  {
    Message(IntString(at) + "_user", UserText(text))
  }

  /** The coach's reply, at clock reading `at`, to the sent text. */
  function CoachMessage(at: int, sentText: string): Message
  {
    Message(IntString(at) + "_ai", CoachReply(Reply(sentText)))
  }

  class ChatScreen {
    var messages: seq<Message>
    var inputText: string

    /** The conversation always opens with the coach's welcome. */
    predicate Valid()
      reads this
    {
      messages != [] && messages[0] == Message("1", Welcome)
    }

    constructor ()
      ensures Valid() && messages == [Message("1", Welcome)] && inputText == ""
    {
      messages := [Message("1", Welcome)];
      inputText := "";
    }

    /** The quick prompts are offered only before the first message is sent. */
    predicate ShowsQuickPrompts()
      reads this
    {
      |messages| == 1
    }

    predicate CanSend()
      reads this
    {
      Trim(inputText) != ""
    }

    /** `handleQuickPrompt`: the prompt becomes the input text. */
    method QuickPrompt(prompt: string)
      modifies this`inputText
      ensures inputText == prompt
    {
      inputText := prompt;
    }

    /**
     * `handleSendMessage` at clock reading `now`: blank input changes
     * nothing; otherwise the message is appended as the user's, the input
     * is cleared, and the reply to the sent text is scheduled.
     */
    method SendMessage(now: int) returns (scheduled: Option<string>)
      requires Valid()
      modifies this`messages, this`inputText
      ensures Valid()
      ensures Blank(old(inputText)) ==> scheduled.None? && messages == old(messages) && inputText == old(inputText)
      ensures !Blank(old(inputText)) ==>
                messages == old(messages) + [UserMessage(now, old(inputText))]
                && inputText == "" && scheduled == Some(old(inputText))
    {
      TrimEmptyIffBlank(inputText);
      if Trim(inputText) == "" {
        return None;
      }
      var sent := inputText;
      messages := messages + [UserMessage(now, sent)];
      inputText := "";
      scheduled := Some(sent);
    }

    /** The reply timer, 1.5 s later at clock reading `now`: exactly one coach message is appended. */
    method ReplyArrived(sentText: string, now: int)
      requires Valid()
      modifies this`messages
      ensures Valid()
      ensures messages == old(messages) + [CoachMessage(now, sentText)]
      ensures !messages[|messages| - 1].IsUser()
    {
      messages := messages + [CoachMessage(now, sentText)];
    }
  }

  /** A sent message and its reply add one user message and then the coach's reply to it. */
  method Exchange(chat: ChatScreen, text: string, sentAt: int, repliedAt: int)
    requires chat.Valid() && !Blank(text)
    modifies chat
    ensures chat.Valid() && !chat.ShowsQuickPrompts()
    ensures chat.messages == old(chat.messages)
              + [UserMessage(sentAt, text), CoachMessage(repliedAt, text)]
  {
    ghost var before := chat.messages;
    chat.QuickPrompt(text);
    var scheduled := chat.SendMessage(sentAt);
    assert chat.messages == before + [UserMessage(sentAt, text)] && scheduled == Some(text);
    chat.ReplyArrived(scheduled.value, repliedAt);
    assert chat.messages == before + [UserMessage(sentAt, text)] + [CoachMessage(repliedAt, text)];
  }
}
