/**
 The keyword intent classifier: the first intent, in declaration order, one of
 whose keywords occurs as a token wins; without a match the intent is "unknown".
 */
module IntentClassifier {
  import opened Text
  import Tokenizer

  const GreetKeywords: seq<string> := ["hi", "hello", "hey", "howdy"]
  const ByeKeywords: seq<string> := ["bye", "goodbye", "see you", "exit"]
  const HelpKeywords: seq<string> := ["help", "assist", "support"]

  /** The intent table in declaration (and therefore iteration) order. */
  const Intents: seq<(string, seq<string>)> :=
    [("greet", GreetKeywords), ("bye", ByeKeywords), ("ask_for_help", HelpKeywords)]

  const Unknown: string := "unknown"

  /** `any(keyword in tokens for keyword in keywords)`: exact token equality. */
  predicate Mentions(tokens: seq<string>, keywords: seq<string>) {
    exists k :: k in keywords && k in tokens
  }

  /** Index of the first table row whose keywords occur in `tokens`, or `|table|`. */
  function FirstMatch(table: seq<(string, seq<string>)>, tokens: seq<string>): (i: nat)
    ensures i <= |table|
    ensures i < |table| ==> Mentions(tokens, table[i].1)
    ensures forall j :: 0 <= j < i ==> !Mentions(tokens, table[j].1)
  {
    if table == [] then 0
    else if Mentions(tokens, table[0].1) then 0
    else 1 + FirstMatch(table[1..], tokens)
  }

  /** `IntentClassifier.recognize_intent`. */
  function RecognizeIntent(tokens: seq<string>): (intent: string)
    ensures intent in {"greet", "bye", "ask_for_help", Unknown}
    ensures intent == "greet" <==> Mentions(tokens, GreetKeywords)
    ensures intent == "bye" <==> !Mentions(tokens, GreetKeywords) && Mentions(tokens, ByeKeywords)
    ensures intent == "ask_for_help" <==>
              !Mentions(tokens, GreetKeywords) && !Mentions(tokens, ByeKeywords) && Mentions(tokens, HelpKeywords)
    ensures intent == Unknown <==>
              !Mentions(tokens, GreetKeywords) && !Mentions(tokens, ByeKeywords) && !Mentions(tokens, HelpKeywords)
  {
    var i := FirstMatch(Intents, tokens);
    assert Intents[0].1 == GreetKeywords && Intents[1].1 == ByeKeywords && Intents[2].1 == HelpKeywords;
    assert i > 0 ==> !Mentions(tokens, Intents[0].1);
    assert i > 1 ==> !Mentions(tokens, Intents[1].1);
    assert i > 2 ==> !Mentions(tokens, Intents[2].1);
    if i < |Intents| then Intents[i].0 else Unknown
  }

  /** Only which tokens occur matters: order and repetition are irrelevant. */
  lemma MembershipOnly(a: seq<string>, b: seq<string>)
    requires forall t :: t in a <==> t in b
    ensures RecognizeIntent(a) == RecognizeIntent(b)
  {
    assert Mentions(a, GreetKeywords) <==> Mentions(b, GreetKeywords);
    assert Mentions(a, ByeKeywords) <==> Mentions(b, ByeKeywords);
    assert Mentions(a, HelpKeywords) <==> Mentions(b, HelpKeywords);
  }

  /** The two-word keyword "see you" never equals a token the tokenizer produces,
      so on tokenized text "bye" is recognized only through its one-word keywords. */
  lemma SeeYouNeverMatches(text: string)
    ensures "see you" !in Tokenizer.Tokenize(text)
    ensures RecognizeIntent(Tokenizer.Tokenize(text)) == "bye" <==>
              !Mentions(Tokenizer.Tokenize(text), GreetKeywords)
              && Mentions(Tokenizer.Tokenize(text), ["bye", "goodbye", "exit"])
  {
    var tokens := Tokenizer.Tokenize(text);
    assert IsSpace("see you"[3]);
    assert !IsWord("see you");
    assert forall i :: 0 <= i < |tokens| ==> tokens[i] != "see you";
    assert Mentions(tokens, ByeKeywords) <==> Mentions(tokens, ["bye", "goodbye", "exit"]);
  }
}
