/**
 The tokenizer stage: lower-case the text, split it on whitespace and drop
 stop words, keeping the remaining words in their original order.
 */
module Tokenizer {
  import opened Text

  /** The stop-word list, duplicate "the" included. */
  const Stopwords: seq<string> := ["the", "is", "a", "an", "the", "in", "on", "of", "to", "and", "for"]

  /** `a` is obtained from `b` by deleting elements, without reordering. */
  ghost predicate IsSubsequence<T>(a: seq<T>, b: seq<T>)
    decreases |b|
  {
    a == [] || (b != [] && ((a[0] == b[0] && IsSubsequence(a[1..], b[1..])) || IsSubsequence(a, b[1..])))
  }

  /** The list comprehension that keeps the words not in `Stopwords`. */
  function RemoveStopwords(ws: seq<string>): (r: seq<string>)
    ensures |r| <= |ws|
    ensures forall w :: w in r <==> w in ws && w !in Stopwords
    ensures IsSubsequence(r, ws)
    ensures (forall i :: 0 <= i < |ws| ==> ws[i] !in Stopwords) ==> r == ws
    ensures forall w :: multiset(r)[w] == if w in Stopwords then 0 else multiset(ws)[w]
  {
    if ws == [] then []
    else
      assert ws == [ws[0]] + ws[1..];
      if ws[0] in Stopwords then RemoveStopwords(ws[1..])
      else [ws[0]] + RemoveStopwords(ws[1..])
  }

  /** `Tokenizer.tokenize`. */
  function Tokenize(text: string): (tokens: seq<string>)
    ensures forall i :: 0 <= i < |tokens| ==> IsWord(tokens[i]) && NoUpper(tokens[i]) && tokens[i] !in Stopwords
    ensures IsSubsequence(tokens, Words(Lower(text)))
    ensures forall w :: w in tokens <==> w in Words(Lower(text)) && w !in Stopwords
    ensures |tokens| <= |Words(Lower(text))|
    ensures forall w :: multiset(tokens)[w] == if w in Stopwords then 0 else multiset(Words(Lower(text)))[w]
  {
    var words := Words(Lower(text));
    var tokens := RemoveStopwords(words);
    forall i | 0 <= i < |tokens|
      ensures IsWord(tokens[i]) && NoUpper(tokens[i])
    {
      assert tokens[i] in words;
    }
    tokens
  }

  /** Tokenizing the space-joined tokens gives the same tokens back. */
  lemma {:induction false} TokenizeIdempotent(text: string)
    ensures Tokenize(Join(Tokenize(text))) == Tokenize(text)
  {
    var tokens := Tokenize(text);
    var joined := Join(tokens);
    assert NoUpper(joined);
    assert Lower(joined) == joined;
    WordsJoin(tokens);
    assert Words(Lower(joined)) == tokens;
  }
}
