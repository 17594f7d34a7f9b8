/**
  The messaging inbox (app/messages/page.tsx): a list of conversations, the
  selected conversation, one visible message thread, the "add contact"
  form, and canned replies chosen by keyword.
 */
module Messages {
  import opened Wrappers
  import opened Text
  import Lists

  datatype Conversation = Conversation(
    id: int, name: string, role: string, avatar: string, initials: string,
    lastMessage: string, time: string, unread: bool)

  datatype Message = Message(id: int, sender: string, content: string, time: string, isMe: bool)

  /** The "add contact" form. */
  datatype ContactDraft = ContactDraft(name: string, role: string, avatar: string)

  /** One entry of the canned-reply table: any keyword selects the response. */
  datatype ReplyRule = ReplyRule(keywords: seq<string>, response: string)

  /**
    What the delayed reply callback captures when a message is sent: the id
    it will use, the counterpart's name and the text it answers.
   */
  datatype PendingReply = PendingReply(id: int, sender: string, prompt: string)

  const Placeholder := "/placeholder.svg?height=40&width=40"
  const NameRequired := "Name is required"
  const DefaultRole := "Staff"
  const NoMessagesYet := "No messages yet"
  const JustNow := "Just now"
  const Self := "You"
  const EmptyDraft := ContactDraft("", "", Placeholder)

  const GreetingReply := "Hello! How can I help you today regarding your child's education?"
  const ProjectReply := "I'm glad you're asking about that. The project is coming along well. Your child has been very engaged in class."
  const GradeReply := "Your child has been performing well in recent assessments. They scored above class average in the last test."
  const MeetingReply := "I'm available for a parent-teacher meeting next week. Would Tuesday or Thursday afternoon work for you?"
  const ThanksReply := "You're welcome! Please let me know if you have any other questions."
  const DefaultReply := "Thank you for your message. I'll get back to you soon with more information about your child's progress."

  /** The canned replies, in the order they are tried. */
  const AutomatedReplies: seq<ReplyRule> := [
    ReplyRule(["hello", "hi", "hey", "greetings"], GreetingReply),
    ReplyRule(["project", "assignment", "homework"], ProjectReply),
    ReplyRule(["grade", "score", "marks", "performance"], GradeReply),
    ReplyRule(["meeting", "conference", "appointment", "schedule"], MeetingReply),
    ReplyRule(["thank", "thanks"], ThanksReply)
  ]

  const InitialConversations: seq<Conversation> := [
    Conversation(1, "Ms. Johnson", "Science Teacher", Placeholder, "MJ", "About the upcoming science project...", "10:30 AM", true),
    Conversation(2, "Mr. Smith", "Math Teacher", Placeholder, "MS", "Math homework for next week", "Yesterday", false),
    Conversation(3, "Mrs. Davis", "English Teacher", Placeholder, "MD", "English literature assignment feedback", "2 days ago", false)
  ]

  const SampleMessages: seq<Message> := [
    Message(1, "Ms. Johnson", "Hello! I wanted to discuss the upcoming science project with you. Your child has been doing great in class.", "10:30 AM", false),
    Message(2, "You", "Thank you for letting me know. What details should I know about the project?", "10:35 AM", true),
    Message(3, "Ms. Johnson", "The project will be about renewable energy sources. Students will need to create a small model demonstrating one type of renewable energy. Materials can be simple household items.", "10:42 AM", false)
  ]

  // ---------------------------------------------------------------------
  // Canned replies

  /** `rule.keywords.some(k => lowered.includes(k))`. */
  predicate RuleMatches(rule: ReplyRule, lowered: string) {
    exists i :: 0 <= i < |rule.keywords| && Includes(lowered, rule.keywords[i])
  }

  /** The index of the first rule at or after `from` that matches, if any. */
  function FirstMatchFrom(rules: seq<ReplyRule>, lowered: string, from: nat): (r: Option<nat>)
    requires from <= |rules|
    ensures r.Some? ==> from <= r.value < |rules| && RuleMatches(rules[r.value], lowered)
    ensures r.Some? ==> forall j :: from <= j < r.value ==> !RuleMatches(rules[j], lowered)
    ensures r.None? ==> forall j :: from <= j < |rules| ==> !RuleMatches(rules[j], lowered)
    decreases |rules| - from
  {
    if from == |rules| then None
    else if RuleMatches(rules[from], lowered) then Some(from)
    else FirstMatchFrom(rules, lowered, from + 1)
  }

  /** The reply `generateReply` produces for a message: always one of the canned texts. */
  function Reply(message: string): (r: string)
    ensures r == DefaultReply || exists i :: 0 <= i < |AutomatedReplies| && r == AutomatedReplies[i].response
  {
    match FirstMatchFrom(AutomatedReplies, Lower(message), 0)
    case Some(i) => AutomatedReplies[i].response
    case None => DefaultReply
  }

  /**
    `generateReply`: lower-case the message, return the response of the
    first rule one of whose keywords it contains, otherwise the default.
   */
  method GenerateReply(userMessage: string) returns (reply: string)
    ensures reply == Reply(userMessage)
  {
    var lowered := Lower(userMessage);
    var i := 0;
    while i < |AutomatedReplies|
      invariant 0 <= i <= |AutomatedReplies|
      invariant forall j :: 0 <= j < i ==> !RuleMatches(AutomatedReplies[j], lowered)
    {
      if RuleMatches(AutomatedReplies[i], lowered) {
        return AutomatedReplies[i].response;
      }
      i := i + 1;
    }
    return DefaultReply;
  }

  /**
    The reply is the response of the first rule, in declaration order, that
    the lower-cased message matches; with no match it is the default.
   */
  lemma ReplyIsFirstMatch(message: string)
    ensures forall i :: 0 <= i < |AutomatedReplies| && RuleMatches(AutomatedReplies[i], Lower(message))
              && (forall j :: 0 <= j < i ==> !RuleMatches(AutomatedReplies[j], Lower(message)))
              ==> Reply(message) == AutomatedReplies[i].response
    ensures (forall j :: 0 <= j < |AutomatedReplies| ==> !RuleMatches(AutomatedReplies[j], Lower(message)))
              ==> Reply(message) == DefaultReply
  {
    var lowered := Lower(message);
    forall i | 0 <= i < |AutomatedReplies| && RuleMatches(AutomatedReplies[i], lowered)
        && (forall j :: 0 <= j < i ==> !RuleMatches(AutomatedReplies[j], lowered))
      ensures Reply(message) == AutomatedReplies[i].response
    {
      var r := FirstMatchFrom(AutomatedReplies, lowered, 0);
      assert r == Some(i);
    }
  }

  /** A message whose lower-cased form contains a greeting keyword gets the greeting. */
  lemma GreetingWins(message: string, k: nat)
    requires k < |AutomatedReplies[0].keywords| && Includes(Lower(message), AutomatedReplies[0].keywords[k])
    ensures Reply(message) == GreetingReply
  {
    assert RuleMatches(AutomatedReplies[0], Lower(message));
  }

  lemma HelloThereHasHello()
    ensures Includes(Lower("Hello there!"), "hello")
  {
    assert Lower("Hello there!")[0..5] == "hello";
    IncludesAt(Lower("Hello there!"), "hello", 0);
  }

  /** The greeting keyword is matched regardless of letter case. */
  lemma ReplyGreetsCapitalisedHello()
    ensures Reply("Hello there!") == GreetingReply
  {
    HelloThereHasHello();
    GreetingWins("Hello there!", 0);
  }

  lemma IsThisRightHasHi()
    ensures Includes(Lower("Is this right?"), "hi")
  {
    assert Lower("Is this right?")[4..6] == "hi";
    IncludesAt(Lower("Is this right?"), "hi", 4);
  }

  /** Matching is on substrings, not words: the "hi" inside "this" selects the greeting. */
  lemma ReplyMatchesInsideWords()
    ensures Reply("Is this right?") == GreetingReply
  {
    IsThisRightHasHi();
    GreetingWins("Is this right?", 1);
  }

  /**
    A rule whose keyword the lower-cased message contains wins when no
    keyword of an earlier rule occurs in it.
   */
  lemma ReplyByRule(message: string, i: nat, k: nat)
    requires i < |AutomatedReplies| && k < |AutomatedReplies[i].keywords|
    requires Includes(Lower(message), AutomatedReplies[i].keywords[k])
    requires forall j, m :: 0 <= j < i && 0 <= m < |AutomatedReplies[j].keywords| ==> !Includes(Lower(message), AutomatedReplies[j].keywords[m])
    ensures Reply(message) == AutomatedReplies[i].response
  {
    assert RuleMatches(AutomatedReplies[i], Lower(message));
    ReplyIsFirstMatch(message);
  }

  /** With no keyword of any rule in the lower-cased message, the reply is the default. */
  lemma ReplyByDefault(message: string)
    requires forall j, m :: 0 <= j < |AutomatedReplies| && 0 <= m < |AutomatedReplies[j].keywords| ==> !Includes(Lower(message), AutomatedReplies[j].keywords[m])
    ensures Reply(message) == DefaultReply
  {
    ReplyIsFirstMatch(message);
  }

  lemma MeetingRequestLowered()
    ensures Lower("Can we schedule a meeting?") == "can we schedule a meeting?"
  {
  }

  lemma MeetingRequestLacksHi()
    ensures !Includes("can we schedule a meeting?", "hi")
  {
    var s := "can we sc" + ['h'] + "edule a meeting?";
    assert "can we schedule a meeting?" == s;
    assert s[9..11] == "he";
    assert !OccursAt(s, "hi", 9);
    SingleAnchorExcludes("can we sc", 'h', "edule a meeting?", "hi", 0);
  }

  lemma MeetingRequestLacksAssignment()
    ensures !Includes("can we schedule a meeting?", "assignment")
  {
    assert "can we schedule a meeting?" == "can we schedule a meetin" + ['g'] + "?";
    SingleAnchorExcludes("can we schedule a meetin", 'g', "?", "assignment", 4);
  }

  lemma MeetingRequestLacksHello()
    ensures !Includes("can we schedule a meeting?", "hello")
  {
    MissingCharExcludes("can we schedule a meeting?", "hello", 4);
  }

  lemma MeetingRequestLacksHey()
    ensures !Includes("can we schedule a meeting?", "hey")
  {
    MissingCharExcludes("can we schedule a meeting?", "hey", 2);
  }

  lemma MeetingRequestLacksGreetings()
    ensures !Includes("can we schedule a meeting?", "greetings")
  {
    MissingCharExcludes("can we schedule a meeting?", "greetings", 1);
  }

  lemma MeetingRequestLacksProject()
    ensures !Includes("can we schedule a meeting?", "project")
  {
    MissingCharExcludes("can we schedule a meeting?", "project", 0);
  }

  lemma MeetingRequestLacksHomework()
    ensures !Includes("can we schedule a meeting?", "homework")
  {
    MissingCharExcludes("can we schedule a meeting?", "homework", 1);
  }

  lemma MeetingRequestLacksGrade()
    ensures !Includes("can we schedule a meeting?", "grade")
  {
    MissingCharExcludes("can we schedule a meeting?", "grade", 1);
  }

  lemma MeetingRequestLacksScore()
    ensures !Includes("can we schedule a meeting?", "score")
  {
    MissingCharExcludes("can we schedule a meeting?", "score", 2);
  }

  lemma MeetingRequestLacksMarks()
    ensures !Includes("can we schedule a meeting?", "marks")
  {
    MissingCharExcludes("can we schedule a meeting?", "marks", 2);
  }

  lemma MeetingRequestLacksPerformance()
    ensures !Includes("can we schedule a meeting?", "performance")
  {
    MissingCharExcludes("can we schedule a meeting?", "performance", 0);
  }

  lemma MeetingRequestMissesGreetings()
    ensures forall m :: 0 <= m < |AutomatedReplies[0].keywords| ==> !Includes("can we schedule a meeting?", AutomatedReplies[0].keywords[m])
  {
    MeetingRequestLacksHello();
    MeetingRequestLacksHi();
    MeetingRequestLacksHey();
    MeetingRequestLacksGreetings();
  }

  lemma MeetingRequestMissesProjects()
    ensures forall m :: 0 <= m < |AutomatedReplies[1].keywords| ==> !Includes("can we schedule a meeting?", AutomatedReplies[1].keywords[m])
  {
    MeetingRequestLacksProject();
    MeetingRequestLacksAssignment();
    MeetingRequestLacksHomework();
  }

  lemma MeetingRequestMissesGrades()
    ensures forall m :: 0 <= m < |AutomatedReplies[2].keywords| ==> !Includes("can we schedule a meeting?", AutomatedReplies[2].keywords[m])
  {
    MeetingRequestLacksGrade();
    MeetingRequestLacksScore();
    MeetingRequestLacksMarks();
    MeetingRequestLacksPerformance();
  }

  /** "meeting" selects the meeting rule: no earlier rule has a keyword in the message. */
  lemma ReplyToMeetingRequest()
    ensures Reply("Can we schedule a meeting?") == MeetingReply
  {
    MeetingRequestLowered();
    IncludesAt("can we schedule a meeting?", "meeting", 18);
    MeetingRequestMissesGreetings();
    MeetingRequestMissesProjects();
    MeetingRequestMissesGrades();
    ReplyByRule("Can we schedule a meeting?", 3, 0);
  }

  lemma OkMissesEveryKeyword(j: nat)
    requires j < |AutomatedReplies|
    ensures forall m :: 0 <= m < |AutomatedReplies[j].keywords| ==> !Includes("ok", AutomatedReplies[j].keywords[m])
  {
    forall m | 0 <= m < |AutomatedReplies[j].keywords|
      ensures !Includes("ok", AutomatedReplies[j].keywords[m])
    {
      MissingCharExcludes("ok", AutomatedReplies[j].keywords[m], 0);
    }
  }

  /** A message containing no keyword gets the default reply. */
  lemma ReplyToOk()
    ensures Reply("OK") == DefaultReply
  {
    assert Lower("OK") == "ok";
    forall j | 0 <= j < |AutomatedReplies|
      ensures forall m :: 0 <= m < |AutomatedReplies[j].keywords| ==> !Includes(Lower("OK"), AutomatedReplies[j].keywords[m])
    {
      OkMissesEveryKeyword(j);
    }
    ReplyByDefault("OK");
  }

  // ---------------------------------------------------------------------
  // Initials

  /**
    `parts.map(p => p[0]).join("")`: the first character of every part; an
    empty part gives `undefined`, which `join` renders as nothing.
   */
  function Heads(parts: seq<string>): string {
    if parts == [] then []
    else (if parts[0] == [] then [] else [parts[0][0]]) + Heads(parts[1..])
  }

  /**
    Reference definition: the characters of `s` that are not a space and
    follow a space or the start of the string (`afterSpace` says whether the
    character before `s` was a space, or there was none).
   */
  function WordStarts(s: string, afterSpace: bool): string {
    if s == [] then []
    else (if s[0] != ' ' && afterSpace then [s[0]] else []) + WordStarts(s[1..], s[0] == ' ')
  }

  /** The heads of the pieces of `split(" ")` are exactly the word starts. */
  lemma {:induction false} HeadsOfSplit(s: string)
    ensures Heads(Split(s, ' ')) == WordStarts(s, true)
    ensures Heads(Split(s, ' ')[1..]) == WordStarts(s, false)
  {
    if s != [] {
      var rest := Split(s[1..], ' ');
      HeadsOfSplit(s[1..]);
      if s[0] == ' ' {
        assert Split(s, ' ') == [[]] + rest;
        assert Split(s, ' ')[1..] == rest;
      } else {
        var parts := Split(s, ' ');
        assert parts == [[s[0]] + rest[0]] + rest[1..];
        assert parts[1..] == rest[1..];
      }
    }
  }

  /** `name.split(" ").map(n => n[0]).join("").toUpperCase().substring(0, 2)`. */
  function InitialsOf(name: string): (r: string)
    ensures |r| <= 2
    ensures var starts := Upper(WordStarts(name, true));
            |r| == (if |starts| < 2 then |starts| else 2) && r == starts[..|r|]
  {
    HeadsOfSplit(name);
    var joined := Upper(Heads(Split(name, ' ')));
    if |joined| <= 2 then joined else joined[..2]
  }

  lemma JaneDoeWordStarts()
    ensures WordStarts("Jane Doe", true) == "JD"
  {
    assert "Jane Doe" == ['J'] + "ane Doe";
    assert WordStarts("Jane Doe", true) == ['J'] + WordStarts("ane Doe", false);
    assert "ane Doe" == "ane" + [' '] + "Doe";
    assert WordStarts("ane Doe", false) == WordStarts("Doe", true);
  }

  /** "Jane Doe" gets the initials "JD". */
  lemma InitialsOfJaneDoe()
    ensures InitialsOf("Jane Doe") == "JD"
  {
    JaneDoeWordStarts();
  }

  lemma {:induction false} WordStartsHaveNoSpace(s: string, afterSpace: bool)
    ensures ' ' !in WordStarts(s, afterSpace)
  {
    if s != [] {
      WordStartsHaveNoSpace(s[1..], s[0] == ' ');
    }
  }

  /**
    Initials never contain a space: runs of spaces only produce empty
    pieces, and those contribute nothing.
   */
  lemma InitialsHaveNoSpace(name: string)
    ensures ' ' !in InitialsOf(name)
  {
    var starts := WordStarts(name, true);
    WordStartsHaveNoSpace(name, true);
    forall i | 0 <= i < |InitialsOf(name)| ensures InitialsOf(name)[i] != ' ' {
      assert InitialsOf(name)[i] == UpperChar(starts[i]);
      assert starts[i] in starts;
    }
  }

  // ---------------------------------------------------------------------
  // Conversations

  /** The conversation `handleAddContact` creates from the form. */
  function NewConversation(id: int, draft: ContactDraft): (c: Conversation)
    ensures c.id == id && c.name == draft.name && c.avatar == Placeholder
    ensures c.role == (if draft.role == "" then DefaultRole else draft.role) && c.role != ""
    ensures c.initials == InitialsOf(draft.name) && |c.initials| <= 2
    ensures c.lastMessage == NoMessagesYet && c.time == JustNow && !c.unread
  {
    Conversation(id, draft.name, if draft.role == "" then DefaultRole else draft.role,
      Placeholder, InitialsOf(draft.name), NoMessagesYet, JustNow, false)
  }

  /** `{ ...conv, lastMessage: text, time: "Just now" }`. */
  function Previewed(c: Conversation, text: string): Conversation {
    c.(lastMessage := text, time := JustNow)
  }

  /**
    The conversation list after a send. It keeps the length and the order
    of the list, rewrites the preview and time of exactly the conversations
    whose id is the selected one, and leaves every other field and every
    other conversation as it was.
   */
  function WithPreview(convs: seq<Conversation>, id: int, text: string): (r: seq<Conversation>)
    ensures |r| == |convs|
    ensures forall k :: 0 <= k < |convs| ==>
      r[k].id == convs[k].id && r[k].name == convs[k].name && r[k].role == convs[k].role &&
      r[k].avatar == convs[k].avatar && r[k].initials == convs[k].initials && r[k].unread == convs[k].unread &&
      (convs[k].id == id ==> r[k].lastMessage == text && r[k].time == JustNow) &&
      (convs[k].id != id ==> r[k] == convs[k])
  {
    Lists.Map(convs, (c: Conversation) => if c.id == id then Previewed(c, text) else c)
  }

  /** The previewed selection is still one of the conversations after a send. */
  lemma PreviewKeepsSelection(convs: seq<Conversation>, c: Conversation, text: string)
    requires c in convs
    ensures Previewed(c, text) in WithPreview(convs, c.id, text)
  {
    var k :| 0 <= k < |convs| && convs[k] == c;
    assert WithPreview(convs, c.id, text)[k] == Previewed(c, text);
  }

  // ---------------------------------------------------------------------
  // The page state

  /** The state of the messages page and its event handlers. */
  class Inbox {
    var conversations: seq<Conversation>
    var selected: Conversation
    var messages: seq<Message>
    var newMessage: string
    var isTyping: bool
    var newContact: ContactDraft
    var formError: string

    /** The selected conversation is one of the listed ones. */
    predicate Valid()
      reads this
    {
      selected in conversations
    }

    constructor ()
      ensures Valid()
      ensures conversations == InitialConversations && selected == InitialConversations[0]
      ensures messages == SampleMessages && newMessage == "" && !isTyping
      ensures newContact == EmptyDraft && formError == ""
    {
      conversations := InitialConversations;
      selected := InitialConversations[0];
      messages := SampleMessages;
      newMessage := "";
      isTyping := false;
      newContact := EmptyDraft;
      formError := "";
    }

    /** Typing in the name field; a value that is not blank clears the error. */
    method EditContactName(value: string)
      modifies this`newContact, this`formError
      ensures newContact == old(newContact).(name := value)
      ensures formError == if IsBlank(value) then old(formError) else ""
    {
      newContact := newContact.(name := value);
      if !IsBlank(value) {
        formError := "";
      }
    }

    /** Choosing a role in the form. */
    method EditContactRole(value: string)
      modifies this`newContact
      ensures newContact == old(newContact).(role := value)
    {
      newContact := newContact.(role := value);
    }

    /** Typing in the message box. */
    method EditMessage(value: string)
      modifies this`newMessage
      ensures newMessage == value
    {
      newMessage := value;
    }

    /** Clicking a conversation selects it; the visible thread is not swapped. */
    method SelectConversation(i: nat)
      requires i < |conversations|
      modifies this`selected
      ensures selected == conversations[i] && Valid()
    {
      selected := conversations[i];
    }

    /**
      `handleAddContact`, with `id` standing for `Date.now()`. A blank name
      only sets the error. Otherwise the new conversation is put in front of
      the list and selected, the thread is emptied and the form reset.
     */
    method AddContact(id: int)
      requires Valid()
      modifies this`conversations, this`selected, this`messages, this`newContact, this`formError
      ensures Valid()
      ensures IsBlank(old(newContact.name)) ==>
        formError == NameRequired && conversations == old(conversations) && selected == old(selected)
        && messages == old(messages) && newContact == old(newContact)
      ensures !IsBlank(old(newContact.name)) ==>
        var c := NewConversation(id, old(newContact));
        formError == "" && conversations == [c] + old(conversations) && selected == c
        && messages == [] && newContact == EmptyDraft
    {
      var draft := newContact;
      if IsBlank(draft.name) {
        formError := NameRequired;
      } else {
        var c := NewConversation(id, draft);
        formError := "";
        conversations := [c] + conversations;
        selected := c;
        messages := [];
        newContact := EmptyDraft;
      }
    }

    /**
      `handleSendMessage`, with `time` standing for the formatted clock. A
      blank message changes nothing and schedules nothing. Otherwise the
      text is appended as the user's message, the selected conversation's
      preview is rewritten, the box is cleared, the typing indicator shown,
      and the reply that the timer will deliver is returned.
     */
    method SendMessage(time: string) returns (pending: Option<PendingReply>)
      requires Valid()
      modifies this`messages, this`newMessage, this`conversations, this`selected, this`isTyping
      ensures Valid()
      ensures IsBlank(old(newMessage)) ==>
        pending.None? && messages == old(messages) && newMessage == old(newMessage)
        && conversations == old(conversations) && selected == old(selected) && isTyping == old(isTyping)
      ensures !IsBlank(old(newMessage)) ==>
        messages == old(messages) + [Message(|old(messages)| + 1, Self, old(newMessage), time, true)]
        && conversations == WithPreview(old(conversations), old(selected).id, old(newMessage))
        && selected == Previewed(old(selected), old(newMessage))
        && newMessage == "" && isTyping
        && pending == Some(PendingReply(|old(messages)| + 2, old(selected).name, old(newMessage)))
    {
      if IsBlank(newMessage) {
        return None;
      }
      var text := newMessage;
      pending := Some(PendingReply(|messages| + 2, selected.name, text));
      messages := messages + [Message(|messages| + 1, Self, text, time, true)];
      newMessage := "";
      PreviewKeepsSelection(conversations, selected, text);
      conversations := WithPreview(conversations, selected.id, text);
      selected := Previewed(selected, text);
      isTyping := true;
    }

    /**
      The timer callback of a send: hide the typing indicator and append the
      canned answer under the id and sender captured when the message was sent.
     */
    method DeliverReply(p: PendingReply, time: string)
      modifies this`messages, this`isTyping
      ensures messages == old(messages) + [Message(p.id, p.sender, Reply(p.prompt), time, false)]
      ensures !isTyping
    {
      isTyping := false;
      var content := GenerateReply(p.prompt);
      messages := messages + [Message(p.id, p.sender, content, time, false)];
    }
  }
}
