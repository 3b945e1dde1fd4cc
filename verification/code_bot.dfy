/**
 `CodeBot.handle_input`: tokenize the input, classify the intent, pick the
 bot's fixed reply for it, and record the turn in the context manager.
 */
module CodeBot {
  import opened Optional
  import opened Text
  import Tokenizer
  import IntentClassifier
  import EntityRecognizer
  import ResponseGenerator
  import opened ContextManager

  const GreetReply: string := "Hello! How can I assist you today?"
  const ByeReply: string := "Goodbye! Have a great day!"
  const HelpReply: string := "How can I help you?"
  const FallbackReply: string := "I'm not sure how to respond to that."

  /** The reply table inside `handle_input`. */
  function BotReply(intent: string): (reply: string)
    ensures reply in {GreetReply, ByeReply, HelpReply, FallbackReply}
    ensures reply == GreetReply <==> intent == "greet"
    ensures reply == ByeReply <==> intent == "bye"
    ensures reply == HelpReply <==> intent == "ask_for_help"
    ensures reply == FallbackReply <==> intent !in {"greet", "bye", "ask_for_help"}
  {
    if intent == "greet" then GreetReply
    else if intent == "bye" then ByeReply
    else if intent == "ask_for_help" then HelpReply
    else FallbackReply
  }

  /** The intent the bot recognizes in raw user input. */
  function IntentOf(userInput: string): (intent: string)
    ensures intent in {"greet", "bye", "ask_for_help", IntentClassifier.Unknown}
  {
    IntentClassifier.RecognizeIntent(Tokenizer.Tokenize(userInput))
  }

  /** The bot's table agrees with the pipeline's response generator on the three
      intents both know, but its fallback for "unknown" is a different sentence. */
  lemma BotReplyVersusGenerator(intent: string, entities: seq<EntityRecognizer.Entity>)
    ensures intent in {"greet", "bye", "ask_for_help"} ==>
              BotReply(intent) == ResponseGenerator.Generate(intent, entities)
    ensures BotReply(IntentClassifier.Unknown) != ResponseGenerator.Generate(IntentClassifier.Unknown, entities)
  {
  }

  /** `CodeBot.handle_input`: the updated manager and the returned reply. */
  function HandleInput(m: Manager, userInput: string): (r: (Manager, string))
    ensures r.1 == BotReply(IntentOf(userInput)) && r.1 != ""
    ensures r.0.context.lastIntent == Some(IntentOf(userInput))
    ensures r.0.context.lastEntity == m.context.lastEntity && r.0.context.topic == m.context.topic
    ensures r.0.context.userId == m.context.userId
    ensures r.0.userId == m.userId && r.0.terminated == m.terminated && r.0.timerArmed
    ensures r.0.context.history ==
              m.context.history + (if userInput != "" then [Exchange(userInput, r.1)] else [])
  {
    var tokens := Tokenizer.Tokenize(userInput);
    var intent := IntentClassifier.RecognizeIntent(tokens);
    var reply := BotReply(intent);
    var m' := Update(m, UpdateRequest(Some(intent), None, None, Some(userInput), Some(reply)));
    assert m'.context.history == m'.context.history[..|m.context.history|] + m'.context.history[|m.context.history|..];
    (m', reply)
  }

  /** A conversation: `handle_input` on each input in turn. */
  function Converse(m: Manager, inputs: seq<string>): Manager
    decreases |inputs|
  {
    if inputs == [] then m else Converse(HandleInput(m, inputs[0]).0, inputs[1..])
  }

  /** The exchange one input should leave behind: none for the empty input,
      otherwise the input paired with the bot's reply to it. */
  function Entry(userInput: string): seq<Exchange> {
    if userInput != "" then [Exchange(userInput, BotReply(IntentOf(userInput)))] else []
  }

  /** The exchanges a conversation should leave behind, in order. */
  function Transcript(inputs: seq<string>): seq<Exchange> {
    if inputs == [] then [] else Entry(inputs[0]) + Transcript(inputs[1..])
  }

  /** One input's step of a conversation, stated on the manager alone. */
  lemma HandleInputEntry(m: Manager, userInput: string)
    ensures HandleInput(m, userInput).0.context.history == m.context.history + Entry(userInput)
    ensures HandleInput(m, userInput).0.context.lastEntity == m.context.lastEntity
    ensures HandleInput(m, userInput).0.context.topic == m.context.topic
  {
  }

  /** Over a whole conversation the history grows by exactly the transcript,
      and entity and topic never change. */
  lemma {:induction false} ConversationRecord(m: Manager, inputs: seq<string>)
    ensures Converse(m, inputs).context.history == m.context.history + Transcript(inputs)
    ensures Converse(m, inputs).context.lastEntity == m.context.lastEntity
    ensures Converse(m, inputs).context.topic == m.context.topic
    decreases |inputs|
  {
    if inputs != [] {
      var x, rest := inputs[0], inputs[1..];
      HandleInputEntry(m, x);
      var m1 := HandleInput(m, x).0;
      assert Converse(m, inputs) == Converse(m1, rest);
      ConversationRecord(m1, rest);
      calc {
        Converse(m, inputs).context.history;
        m1.context.history + Transcript(rest);
        m.context.history + Entry(x) + Transcript(rest);
        { assert Transcript(inputs) == Entry(x) + Transcript(rest); }
        m.context.history + Transcript(inputs);
      }
    }
  }

  /** After a non-empty conversation the last intent is that of the last input. */
  lemma {:induction false} ConversationLastIntent(m: Manager, inputs: seq<string>)
    requires inputs != []
    ensures Converse(m, inputs).context.lastIntent == Some(IntentOf(inputs[|inputs| - 1]))
    decreases |inputs|
  {
    var m1 := HandleInput(m, inputs[0]).0;
    assert Converse(m, inputs) == Converse(m1, inputs[1..]);
    if |inputs| > 1 {
      ConversationLastIntent(m1, inputs[1..]);
      assert inputs[1..][|inputs[1..]| - 1] == inputs[|inputs| - 1];
    }
  }

  /** A fresh user: nothing stored, greet with "hi", save, and a new manager for
      the same user loads back exactly the resulting context. */
  lemma FreshUserScenario(userId: string, store: Store, ioError: bool)
    requires ContextPath(userId) !in store
    ensures var m := Load(New(userId), store, ioError);
            var (m', reply) := HandleInput(m, "hi");
            && m == New(userId)
            && reply == GreetReply
            && m'.context == Context(Some(userId), Some("greet"), None, None, [Exchange("hi", GreetReply)])
            && Load(New(userId), Save(m', store), false).context == m'.context
  {
    HiIsGreeting();
  }

  lemma HiIsGreeting()
    ensures IntentOf("hi") == "greet"
  {
    TokenizeHi();
    assert "hi" in IntentClassifier.GreetKeywords;
  }

  lemma TokenizeHi()
    ensures Tokenizer.Tokenize("hi") == ["hi"]
  {
    assert Join(["hi"]) == "hi";
    WordsJoin(["hi"]);
    assert Lower("hi") == "hi";
  }
}
