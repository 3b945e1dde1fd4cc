/**
 The keyword entity recognizer: one profession entity for every token that is
 "developer" once lower-cased.
 */
module EntityRecognizer {
  import opened Text

  datatype Entity = Entity(kind: string, value: string)

  /** The only entity this recognizer ever emits. */
  const Developer: Entity := Entity("profession", "developer")

  predicate IsDeveloperToken(token: string) {
    Lower(token) == "developer"
  }

  /** The lower-cased tokens, position by position. */
  function LowerAll(tokens: seq<string>): (r: seq<string>)
    ensures |r| == |tokens|
    ensures forall i :: 0 <= i < |tokens| ==> r[i] == Lower(tokens[i])
  {
    if tokens == [] then [] else [Lower(tokens[0])] + LowerAll(tokens[1..])
  }

  /** `EntityRecognizer.recognize`. */
  function Recognize(tokens: seq<string>): (entities: seq<Entity>)
    ensures |entities| <= |tokens|
    ensures forall e :: e in entities ==> e == Developer
    ensures tokens == [] ==> entities == []
  {
    if tokens == [] then []
    else if IsDeveloperToken(tokens[0]) then [Developer] + Recognize(tokens[1..])
    else Recognize(tokens[1..])
  }

  /** Recognition distributes over concatenation of token lists. */
  lemma {:induction false} RecognizeConcat(a: seq<string>, b: seq<string>)
    ensures Recognize(a + b) == Recognize(a) + Recognize(b)
    decreases |a|
  {
    if a != [] {
      assert (a + b)[1..] == a[1..] + b;
      RecognizeConcat(a[1..], b);
    } else {
      assert a + b == b;
    }
  }

  /** There are exactly as many entities as tokens whose lower-case form is "developer". */
  lemma {:induction false} RecognizeCount(tokens: seq<string>)
    ensures |Recognize(tokens)| == multiset(LowerAll(tokens))["developer"]
    decreases |tokens|
  {
    if tokens != [] {
      RecognizeCount(tokens[1..]);
      assert multiset(LowerAll(tokens)) == multiset([Lower(tokens[0])]) + multiset(LowerAll(tokens[1..]));
    }
  }

  /** A token that is not "developer" in any letter case changes nothing. */
  lemma {:induction false} RecognizeIgnoresOtherTokens(a: seq<string>, x: string, b: seq<string>)
    requires !IsDeveloperToken(x)
    ensures Recognize(a + [x] + b) == Recognize(a + b)
  {
    RecognizeConcat(a + [x], b);
    RecognizeConcat(a, [x]);
    RecognizeConcat(a, b);
    assert Recognize([x]) == [];
  }

  lemma UpperDeveloper()
    ensures IsDeveloperToken("DEVELOPER")
  {
    var l := Lower("DEVELOPER");
    assert l[0] == 'd' && l[1] == 'e' && l[2] == 'v' && l[3] == 'e' && l[4] == 'l';
    assert l[5] == 'o' && l[6] == 'p' && l[7] == 'e' && l[8] == 'r';
  }

  lemma MixedCaseDeveloper()
    ensures IsDeveloperToken("Developer")
  {
    var l := Lower("Developer");
    assert l[0] == 'd' && l[1] == 'e' && l[2] == 'v' && l[3] == 'e' && l[4] == 'l';
    assert l[5] == 'o' && l[6] == 'p' && l[7] == 'e' && l[8] == 'r';
  }

  /** Matching ignores letter case but not spelling. */
  lemma CaseInsensitive()
    ensures Recognize(["Developer", "DEVELOPER", "developers"]) == [Developer, Developer]
  {
    MixedCaseDeveloper();
    UpperDeveloper();
    assert !IsDeveloperToken("developers");
    RecognizeConcat(["Developer"], ["DEVELOPER", "developers"]);
    RecognizeConcat(["DEVELOPER"], ["developers"]);
    assert ["Developer"] + ["DEVELOPER", "developers"] == ["Developer", "DEVELOPER", "developers"];
    assert ["DEVELOPER"] + ["developers"] == ["DEVELOPER", "developers"];
  }
}
