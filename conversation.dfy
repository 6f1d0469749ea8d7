/**
 * ConversationManager: one dialogue per user. The first message is parsed into
 * conditions; while fields are missing, each further message is appended to
 * the text so far and everything is parsed again, until the conditions are
 * complete or three follow-ups have been spent. Then the search starts, and the
 * next message begins a new dialogue.
 */
module Conversations {
  import opened Wrappers
  import opened ConditionGuide

  datatype Stage = Initial | Collecting | Ready

  /**
   * One user's entry: its stage, the conditions parsed so far (None for the empty
   * dict of a new entry) and the number of follow-up messages.
   */
  datatype Conversation = Conversation(stage: Stage, conditions: Option<Conditions>, attempts: nat)

  /** The entry a new or restarted dialogue gets. */
  const Fresh: Conversation := Conversation(Initial, None, 0)

  /** Follow-up messages after which the search starts anyway. */
  const MaxAttempts: nat := 3

  /**
   * The answer to one message: start the search with the formatted conditions
   * (forced when the follow-ups ran out before the conditions were complete), or
   * ask for the missing fields, carrying the raw conditions.
   */
  datatype Reply = SearchReply(search: SearchConditions, forced: bool) | CollectInfo(conditions: Conditions)

  /**
   * What every entry satisfies: a new entry has no follow-ups yet, and a
   * collecting entry has conditions and follow-ups left.
   */
  predicate WellFormed(c: Conversation) {
    (c.stage == Initial ==> c.attempts == 0)
    && (c.stage == Collecting ==> c.conditions.Some? && c.attempts < MaxAttempts)
  }

  /** The parser the dialogue uses: parse_natural_language_conditions with the given segmenter. */
  function Parse(seg: string -> seq<string>): string -> Conditions {
    t => ParseOf(t, seg)
  }

  /** The answer to the first message of a dialogue, given its parse: search if complete, else collect. */
  function FirstOutcome(cur: Conversation, c: Conditions): (r: (Conversation, Reply))
    requires cur.attempts == 0
    ensures WellFormed(r.0) && r.0.attempts == 0 && r.0.conditions == Some(c)
  {
    if IsComplete(c) then (cur.(stage := Ready, conditions := Some(c)), SearchReply(FormatSearchConditions(c), false))
    else (cur.(stage := Collecting, conditions := Some(c)), CollectInfo(c))
  }

  /**
   * The answer to a follow-up, given the parse of the text so far plus the new
   * message: count the follow-up, then search if complete or if the follow-ups
   * ran out, else keep collecting.
   */
  function FollowUpOutcome(cur: Conversation, c: Conditions): (r: (Conversation, Reply))
    requires WellFormed(cur) && cur.stage == Collecting
    ensures WellFormed(r.0) && r.0.attempts == cur.attempts + 1 && r.0.conditions == Some(c)
  {
    var attempts := cur.attempts + 1;
    if IsComplete(c) then
      (Conversation(Ready, Some(c), attempts), SearchReply(FormatSearchConditions(c), false))
    else if attempts >= MaxAttempts then
      (Conversation(Ready, Some(c), attempts), SearchReply(FormatSearchConditions(c), true))
    else
      (Conversation(Collecting, Some(c), attempts), CollectInfo(c))
  }

  /** The text a follow-up is parsed from: everything so far, a space, the new message. */
  function FollowUpText(cur: Conversation, message: string): string
    requires cur.conditions.Some?
  {
    cur.conditions.value.originalText + " " + message
  }

  /**
   * process_user_message on the user's entry (None when the user has none), with
   * `parse` for the parser: the new entry and the reply. It keeps every entry
   * well formed; a finished dialogue is answered as a new one.
   */
  function Step(conv: Option<Conversation>, message: string, parse: string -> Conditions): (r: (Conversation, Reply))
    requires conv.Some? ==> WellFormed(conv.value)
    ensures WellFormed(r.0)
  {
    var cur := conv.GetOr(Fresh);
    match cur.stage
    case Initial => FirstOutcome(cur, parse(message))
    case Collecting => FollowUpOutcome(cur, parse(FollowUpText(cur, message)))
    case Ready => FirstOutcome(Fresh, parse(message))
  }

  /** The branch of process_user_message for the first message of a dialogue. */
  method AnswerFirstMessage(conv: Conversation, message: string, seg: string -> seq<string>)
    returns (next: Conversation, reply: Reply)
    requires conv.attempts == 0
    ensures next == FirstOutcome(conv, ParseOf(message, seg)).0
    ensures reply == FirstOutcome(conv, ParseOf(message, seg)).1
  {
    var c := ParseConditions(message, seg);
    next, reply := FirstDecision(conv, c);
  }

  /** Storing the first parse, and the test for completeness. */
  method FirstDecision(conv: Conversation, c: Conditions) returns (next: Conversation, reply: Reply)
    requires conv.attempts == 0
    ensures next == FirstOutcome(conv, c).0 && reply == FirstOutcome(conv, c).1
  {
    next := conv.(conditions := Some(c));
    if IsComplete(c) {
      next := next.(stage := Ready);
      reply := SearchReply(FormatSearchConditions(c), false);
    } else {
      next := next.(stage := Collecting);
      reply := CollectInfo(c);
    }
  }

  /** The branch of process_user_message for a follow-up while collecting. */
  method AnswerFollowUp(conv: Conversation, message: string, seg: string -> seq<string>)
    returns (next: Conversation, reply: Reply)
    requires WellFormed(conv) && conv.stage == Collecting
    ensures next == FollowUpOutcome(conv, ParseOf(FollowUpText(conv, message), seg)).0
    ensures reply == FollowUpOutcome(conv, ParseOf(FollowUpText(conv, message), seg)).1
  {
    var existing := conv.conditions.value;
    var c := ParseConditions(existing.originalText + " " + message, seg);
    next, reply := FollowUpDecision(conv, c);
  }

  /** Storing the new parse, counting the follow-up, and the two tests that end the dialogue. */
  method FollowUpDecision(conv: Conversation, c: Conditions) returns (next: Conversation, reply: Reply)
    requires WellFormed(conv) && conv.stage == Collecting
    ensures next == FollowUpOutcome(conv, c).0 && reply == FollowUpOutcome(conv, c).1
  {
    next := conv.(conditions := Some(c), attempts := conv.attempts + 1);
    if IsComplete(c) {
      next := next.(stage := Ready);
      reply := SearchReply(FormatSearchConditions(c), false);
    } else if next.attempts >= MaxAttempts {
      next := next.(stage := Ready);
      reply := SearchReply(FormatSearchConditions(c), true);
    } else {
      reply := CollectInfo(c);
    }
  }

  /** The answer to a message for an entry that is not finished, with the new entry. */
  method Answer(conv: Conversation, message: string, seg: string -> seq<string>) returns (next: Conversation, reply: Reply)
    requires WellFormed(conv) && conv.stage != Ready
    ensures next == Step(Some(conv), message, Parse(seg)).0 && reply == Step(Some(conv), message, Parse(seg)).1
    ensures WellFormed(next)
  {
    if conv.stage == Initial {
      next, reply := AnswerFirstMessage(conv, message, seg);
    } else {
      next, reply := AnswerFollowUp(conv, message, seg);
    }
  }

  /** Every entry of the store is well formed. */
  ghost predicate AllWellFormed(m: map<string, Conversation>) {
    forall u :: u in m ==> WellFormed(m[u])
  }

  /** Storing a well-formed entry keeps every entry well formed. */
  lemma StoreKeepsWellFormed(m: map<string, Conversation>, userId: string, c: Conversation)
    requires AllWellFormed(m)
    requires WellFormed(c)
    ensures AllWellFormed(m[userId := c])
  {
  }

  /** A user without an entry is answered as one whose entry was just created. */
  lemma NewEntryAnswersAsFresh(m: map<string, Conversation>, userId: string, message: string, parse: string -> Conditions)
    requires userId !in m
    ensures m[userId := Fresh][userId := Step(Some(Fresh), message, parse).0] == m[userId := Step(None, message, parse).0]
    ensures Step(Some(Fresh), message, parse).1 == Step(None, message, parse).1
  {
  }

  /** Replacing a finished entry by a new one and answering gives what answering the finished entry gives. */
  lemma RestartAnswersAsFresh(m: map<string, Conversation>, userId: string, message: string, parse: string -> Conditions)
    requires userId in m && WellFormed(m[userId]) && m[userId].stage == Ready
    ensures m[userId := Fresh][userId := Step(Some(Fresh), message, parse).0] == m[userId := Step(Some(m[userId]), message, parse).0]
    ensures Step(Some(Fresh), message, parse).1 == Step(Some(m[userId]), message, parse).1
  {
  }

  class ConversationManager {
    /** user_conversations: the entry of every user who has one. */
    var conversations: map<string, Conversation>

    ghost predicate Valid()
      reads this
    {
      AllWellFormed(conversations)
    }

    /** The user's entry, if any. */
    function Entry(userId: string): (r: Option<Conversation>)
      reads this
      ensures r.Some? <==> userId in conversations
      ensures r.Some? ==> r.value == conversations[userId]
    {
      if userId in conversations then Some(conversations[userId]) else None
    }

    constructor()
      ensures Valid() && conversations == map[]
    {
      conversations := map[];
    }

    /** process_user_message: updates the user's entry in place and answers. */
    method ProcessUserMessage(userId: string, message: string, seg: string -> seq<string>) returns (reply: Reply)
      requires Valid()
      modifies this
      ensures Valid()
      ensures conversations == old(conversations)[userId := Step(old(Entry(userId)), message, Parse(seg)).0]
      ensures reply == Step(old(Entry(userId)), message, Parse(seg)).1
      decreases if userId in conversations && conversations[userId].stage == Ready then 1 else 0
    {
      if userId !in conversations {
        NewEntryAnswersAsFresh(conversations, userId, message, Parse(seg));
        StoreKeepsWellFormed(conversations, userId, Fresh);
        conversations := conversations[userId := Fresh];
      }
      var conv := conversations[userId];
      if conv.stage == Ready {
        RestartAnswersAsFresh(conversations, userId, message, Parse(seg));
        StoreKeepsWellFormed(conversations, userId, Fresh);
        conversations := conversations[userId := Fresh];
        reply := ProcessUserMessage(userId, message, seg);
      } else {
        var next;
        next, reply := Answer(conv, message, seg);
        StoreKeepsWellFormed(conversations, userId, next);
        conversations := conversations[userId := next];
      }
    }

    /** reset_conversation: forgets the user's entry, if there is one. */
    method ResetConversation(userId: string)
      requires Valid()
      modifies this
      ensures Valid()
      ensures conversations == old(conversations) - {userId}
    {
      if userId in conversations {
        conversations := conversations - {userId};
      }
    }
  }

  // ---------------------------------------------------------------- lemmas

  /** A finished dialogue is started afresh: the next message is handled as if the user had no entry. */
  lemma ReadyRestarts(conv: Conversation, message: string, parse: string -> Conditions)
    requires conv.stage == Ready
    ensures Step(Some(conv), message, parse) == Step(None, message, parse)
  {
  }

  /** The follow-up counter moves only while collecting, by one; a new dialogue starts it at 0. */
  lemma AttemptsOnlyWhileCollecting(conv: Option<Conversation>, message: string, parse: string -> Conditions)
    requires conv.Some? ==> WellFormed(conv.value)
    ensures conv.Some? && conv.value.stage == Collecting ==> Step(conv, message, parse).0.attempts == conv.value.attempts + 1
    ensures conv.Some? && conv.value.stage == Ready ==> Step(conv, message, parse).0.attempts == 0
    ensures conv.Some? && conv.value.stage == Initial ==> Step(conv, message, parse).0.attempts == conv.value.attempts
    ensures conv.None? ==> Step(conv, message, parse).0.attempts == 0
  {
  }

  /**
   * A search reply carries the formatted form of the conditions now stored, and
   * ends the dialogue; it is forced exactly when the conditions are incomplete,
   * which happens only on the third follow-up.
   */
  lemma SearchReplyMeaning(conv: Option<Conversation>, message: string, parse: string -> Conditions)
    requires conv.Some? ==> WellFormed(conv.value)
    ensures var (next, reply) := Step(conv, message, parse);
      reply.SearchReply? ==>
        next.stage == Ready && next.conditions.Some?
        && reply.search == FormatSearchConditions(next.conditions.value)
        && (reply.forced <==> !IsComplete(next.conditions.value))
        && (reply.forced ==> next.attempts == MaxAttempts)
    ensures var (next, reply) := Step(conv, message, parse);
      reply.CollectInfo? ==>
        next.stage == Collecting && next.conditions == Some(reply.conditions) && !IsComplete(reply.conditions)
  {
  }

  /** The third follow-up always starts the search. */
  lemma ThirdFollowUpSearches(conv: Conversation, message: string, parse: string -> Conditions)
    requires WellFormed(conv) && conv.stage == Collecting && conv.attempts == MaxAttempts - 1
    ensures Step(Some(conv), message, parse).1.SearchReply?
  {
  }

  /** Successive messages fed to one entry: the final entry and the replies, in order. */
  function Run(conv: Option<Conversation>, messages: seq<string>, parse: string -> Conditions): (r: (Option<Conversation>, seq<Reply>))
    requires conv.Some? ==> WellFormed(conv.value)
    ensures |r.1| == |messages|
    ensures r.0.Some? ==> WellFormed(r.0.value)
    ensures messages == [] ==> r.0 == conv
    decreases |messages|
  {
    if messages == [] then (conv, [])
    else
      var (next, reply) := Step(conv, messages[0], parse);
      var (last, replies) := Run(Some(next), messages[1..], parse);
      (last, [reply] + replies)
  }

  /** How many more messages can pass before a search reply is certain. */
  function Budget(conv: Option<Conversation>): nat {
    match conv
    case None => MaxAttempts + 1
    case Some(c) =>
      if c.stage == Collecting && c.attempts <= MaxAttempts then MaxAttempts - c.attempts else MaxAttempts + 1
  }

  /** No user can be kept collecting forever: within Budget messages some reply starts the search. */
  lemma {:induction false} SearchWithinBudget(conv: Option<Conversation>, messages: seq<string>, parse: string -> Conditions)
    requires conv.Some? ==> WellFormed(conv.value)
    requires |messages| >= Budget(conv)
    ensures exists i :: 0 <= i < |messages| && Run(conv, messages, parse).1[i].SearchReply?
    decreases |messages|
  {
    var (next, reply) := Step(conv, messages[0], parse);
    var rest := Run(Some(next), messages[1..], parse);
    assert Run(conv, messages, parse).1 == [reply] + rest.1;
    if !reply.SearchReply? {
      assert next.stage == Collecting;
      assert Budget(Some(next)) < Budget(conv);
      SearchWithinBudget(Some(next), messages[1..], parse);
      var i :| 0 <= i < |messages[1..]| && rest.1[i].SearchReply?;
      assert Run(conv, messages, parse).1[i + 1].SearchReply?;
    } else {
      assert Run(conv, messages, parse).1[0].SearchReply?;
    }
  }

  /** A parser that records the text it was given as original_text. */
  ghost predicate KeepsText(parse: string -> Conditions) {
    forall t :: parse(t).originalText == t
  }

  /** parse_natural_language_conditions keeps its input as original_text. */
  lemma ParseKeepsText(seg: string -> seq<string>)
    ensures KeepsText(Parse(seg))
  {
  }

  /** The messages joined by single spaces. */
  function Joined(messages: seq<string>): string
    requires messages != []
    decreases |messages|
  {
    if |messages| == 1 then messages[0] else messages[0] + " " + Joined(messages[1..])
  }

  /**
   * While a dialogue keeps collecting, original_text is its whole history: the
   * text so far, then each new message after a single space.
   */
  lemma {:induction false} CollectingKeepsHistory(conv: Conversation, messages: seq<string>, parse: string -> Conditions)
    requires KeepsText(parse)
    requires WellFormed(conv) && conv.stage == Collecting && messages != []
    requires forall i :: 0 <= i < |messages| ==> Run(Some(conv), messages, parse).1[i].CollectInfo?
    ensures var last := Run(Some(conv), messages, parse).0;
      last.Some? && last.value.stage == Collecting && last.value.conditions.Some?
      && last.value.conditions.value.originalText == conv.conditions.value.originalText + " " + Joined(messages)
    decreases |messages|
  {
    var (next, reply) := Step(Some(conv), messages[0], parse);
    var rest := Run(Some(next), messages[1..], parse);
    assert Run(Some(conv), messages, parse).1 == [reply] + rest.1;
    assert Run(Some(conv), messages, parse).1[0] == reply;
    assert next.conditions.value.originalText == FollowUpText(conv, messages[0]);
    if |messages| > 1 {
      forall i | 0 <= i < |messages[1..]| ensures rest.1[i].CollectInfo? {
        assert Run(Some(conv), messages, parse).1[i + 1] == rest.1[i];
      }
      CollectingKeepsHistory(next, messages[1..], parse);
      assert messages == [messages[0]] + messages[1..];
      assert FollowUpText(conv, messages[0]) + " " + Joined(messages[1..])
        == conv.conditions.value.originalText + " " + (messages[0] + " " + Joined(messages[1..]));
    }
  }

  /** Run on a non-empty list: the first step, then the rest from where it leaves the entry. */
  lemma RunUnfold(conv: Option<Conversation>, messages: seq<string>, parse: string -> Conditions)
    requires conv.Some? ==> WellFormed(conv.value)
    requires messages != []
    ensures var step := Step(conv, messages[0], parse);
      var rest := Run(Some(step.0), messages[1..], parse);
      Run(conv, messages, parse) == (rest.0, [step.1] + rest.1)
  {
  }

  /** When every reply from no entry asks for more, so does every reply to the rest of the messages. */
  lemma CollectingTail(messages: seq<string>, parse: string -> Conditions)
    requires messages != []
    requires forall i :: 0 <= i < |messages| ==> Run(None, messages, parse).1[i].CollectInfo?
    ensures var rest := Run(Some(Step(None, messages[0], parse).0), messages[1..], parse).1;
      forall i :: 0 <= i < |rest| ==> rest[i].CollectInfo?
  {
    RunUnfold(None, messages, parse);
    AllCollectTail(Run(None, messages, parse).1, Step(None, messages[0], parse).1,
      Run(Some(Step(None, messages[0], parse).0), messages[1..], parse).1);
  }

  /** Replies that all ask for more still do after the first is dropped. */
  lemma AllCollectTail(all: seq<Reply>, first: Reply, rest: seq<Reply>)
    requires all == [first] + rest
    requires forall i :: 0 <= i < |all| ==> all[i].CollectInfo?
    ensures forall i :: 0 <= i < |rest| ==> rest[i].CollectInfo?
  {
    forall i | 0 <= i < |rest| ensures rest[i].CollectInfo? {
      assert all[i + 1] == rest[i];
    }
  }

  /** A first message that is answered by asking for more leaves a collecting entry holding its parse. */
  lemma FirstStepCollects(message: string, parse: string -> Conditions)
    ensures var (first, reply) := Step(None, message, parse);
      reply.CollectInfo? ==> first.stage == Collecting && first.conditions == Some(parse(message))
  {
  }

  /** From no entry, a dialogue that has only asked for more holds all its messages joined by single spaces. */
  lemma DialogueTextIsHistory(messages: seq<string>, parse: string -> Conditions)
    requires KeepsText(parse)
    requires messages != []
    requires forall i :: 0 <= i < |messages| ==> Run(None, messages, parse).1[i].CollectInfo?
    ensures var last := Run(None, messages, parse).0;
      last.Some? && last.value.conditions.Some? && last.value.conditions.value.originalText == Joined(messages)
  {
    var first := Step(None, messages[0], parse).0;
    var reply := Step(None, messages[0], parse).1;
    var rest := Run(Some(first), messages[1..], parse);
    RunUnfold(None, messages, parse);
    assert Run(None, messages, parse).1[0] == reply;
    FirstStepCollects(messages[0], parse);
    if |messages| == 1 {
      assert messages[1..] == [];
      assert rest.0 == Some(first);
      assert parse(messages[0]).originalText == messages[0];
      assert Joined(messages) == messages[0];
    } else {
      CollectingTail(messages, parse);
      CollectingKeepsHistory(first, messages[1..], parse);
    }
  }
}
