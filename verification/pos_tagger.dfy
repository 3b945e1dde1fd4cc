/**
 The dictionary part-of-speech tagger: every token is paired with its tag from
 a fixed, case-sensitive table, or with "UNK" when the table has no entry.
 */
module PosTagger {
  import opened Text
  import Tokenizer

  const TagMap: map<string, string> :=
    map["hello" := "INTJ", "I" := "PRON", "am" := "VERB", "a" := "DET", "developer" := "NOUN"]

  const Unk: string := "UNK"

  /** `tag_map.get(token, "UNK")`. */
  function TagOf(token: string): (tag: string)
    ensures tag in {"INTJ", "PRON", "VERB", "DET", "NOUN", Unk}
    ensures tag == Unk <==> token !in TagMap
    ensures token in TagMap ==> tag == TagMap[token]
    ensures tag == "PRON" <==> token == "I"
    ensures tag == "DET" <==> token == "a"
  {
    if token in TagMap then TagMap[token] else Unk
  }

  /** `POSTagger.tag`: one `(token, tag)` pair per token, in order. */
  function Tag(tokens: seq<string>): (pairs: seq<(string, string)>)
    ensures |pairs| == |tokens|
    ensures forall i :: 0 <= i < |tokens| ==> pairs[i].0 == tokens[i] && pairs[i].1 == TagOf(tokens[i])
  {
    if tokens == [] then []
    else [(tokens[0], TagOf(tokens[0]))] + Tag(tokens[1..])
  }

  /** The lookup is case-sensitive: "I" is a pronoun, "i" is unknown. */
  lemma CaseSensitive()
    ensures Tag(["I", "i"]) == [("I", "PRON"), ("i", Unk)]
  {
  }

  /** Tagging distributes over concatenation of token lists. */
  lemma {:induction false} TagConcat(a: seq<string>, b: seq<string>)
    ensures Tag(a + b) == Tag(a) + Tag(b)
  {
    var l, r := Tag(a + b), Tag(a) + Tag(b);
    assert |l| == |r|;
    forall i | 0 <= i < |l|
      ensures l[i] == r[i]
    {
      if i < |a| {
        assert (a + b)[i] == a[i];
      } else {
        assert (a + b)[i] == b[i - |a|];
      }
    }
  }

  /** On tokenizer output neither PRON nor DET is ever assigned: the tokenizer
      lower-cases "I" away, and "a" is a stop word. */
  lemma TokenizedNeverPronOrDet(text: string)
    ensures forall p :: p in Tag(Tokenizer.Tokenize(text)) ==> p.1 != "PRON" && p.1 != "DET"
  {
    var tokens := Tokenizer.Tokenize(text);
    forall i | 0 <= i < |tokens|
      ensures TagOf(tokens[i]) != "PRON" && TagOf(tokens[i]) != "DET"
    {
      NeitherIOrA(tokens[i]);
    }
  }

  lemma NeitherIOrA(t: string)
    requires NoUpper(t) && t !in Tokenizer.Stopwords
    ensures t != "I" && t != "a"
  {
    assert IsUpper("I"[0]);
    assert "a" in Tokenizer.Stopwords;
  }
}
