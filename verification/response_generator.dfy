/**
 The response generator: a fixed reply per intent; the entities are ignored.
 */
module ResponseGenerator {
  import EntityRecognizer

  const GreetReply: string := "Hello! How can I assist you today?"
  const ByeReply: string := "Goodbye! Have a great day!"
  const HelpReply: string := "How can I help you?"
  const SelfIntroReply: string := "Nice to meet you! I'm a bot designed to assist with coding tasks."
  const FallbackReply: string := "I'm not sure I understand. Could you clarify?"

  /** `ResponseGenerator.generate`. */
  function Generate(intent: string, entities: seq<EntityRecognizer.Entity>): (reply: string)
    ensures reply in {GreetReply, ByeReply, HelpReply, SelfIntroReply, FallbackReply}
    ensures reply == GreetReply <==> intent == "greet"
    ensures reply == ByeReply <==> intent == "bye"
    ensures reply == HelpReply <==> intent == "ask_for_help"
    ensures reply == SelfIntroReply <==> intent == "self_intro"
    ensures reply == FallbackReply <==> intent !in {"greet", "bye", "ask_for_help", "self_intro"}
  {
    if intent == "greet" then GreetReply
    else if intent == "bye" then ByeReply
    else if intent == "ask_for_help" then HelpReply
    else if intent == "self_intro" then SelfIntroReply
    else FallbackReply
  }

  /** The reply depends on the intent alone, and it identifies the branch taken:
      two intents share a reply only when they are equal or both fall through. */
  lemma ReplyDeterminedByIntent(i1: string, e1: seq<EntityRecognizer.Entity>, i2: string, e2: seq<EntityRecognizer.Entity>)
    ensures i1 == i2 ==> Generate(i1, e1) == Generate(i2, e2)
    ensures Generate(i1, e1) == Generate(i2, e2) ==>
              i1 == i2 || (i1 !in {"greet", "bye", "ask_for_help", "self_intro"}
                           && i2 !in {"greet", "bye", "ask_for_help", "self_intro"})
  {
  }
}
