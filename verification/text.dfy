/**
 The handful of Python string operations the bot relies on, restricted to ASCII:
 `str.isspace`, `str.lower`, `str.split()` (no separator argument), `str.strip()`
 and `" ".join(...)`.
 */
module Text {

  /** Python's `str.isspace` on ASCII: tab, line feed, vertical tab, form feed,
      carriage return, the four information separators 0x1C-0x1F, and space. */
  predicate IsSpace(c: char) {
    c == ' ' || '\U{9}' <= c <= '\U{D}' || '\U{1C}' <= c <= '\U{1F}'
  }

  predicate IsUpper(c: char) {
    'A' <= c <= 'Z'
  }

  predicate NoUpper(s: string) {
    forall i :: 0 <= i < |s| ==> !IsUpper(s[i])
  }

  predicate NoSpace(s: string) {
    forall i :: 0 <= i < |s| ==> !IsSpace(s[i])
  }

  predicate AllSpace(s: string) {
    forall i :: 0 <= i < |s| ==> IsSpace(s[i])
  }

  /** A word as `str.split()` produces it: non-empty, no whitespace inside. */
  predicate IsWord(s: string) {
    s != [] && NoSpace(s)
  }

  predicate AllWords(ws: seq<string>) {
    forall i :: 0 <= i < |ws| ==> IsWord(ws[i])
  }

  /** ASCII lowering of one character. */
  function LowerChar(c: char): (d: char)
    ensures !IsUpper(d)
    ensures IsSpace(d) <==> IsSpace(c)
    ensures !IsUpper(c) ==> d == c
    ensures IsUpper(c) ==> 'a' <= d <= 'z' && d as int == c as int + 32
  {
    if IsUpper(c) then (c as int + 32) as char else c
  }

  /** `str.lower()` on ASCII text. */
  function Lower(s: string): (r: string)
    ensures |r| == |s| && NoUpper(r)
    ensures forall i :: 0 <= i < |s| ==> r[i] == LowerChar(s[i])
    ensures forall i :: 0 <= i < |s| ==> (IsSpace(r[i]) <==> IsSpace(s[i]))
    ensures NoUpper(s) ==> r == s
  {
    seq(|s|, i requires 0 <= i < |s| => LowerChar(s[i]))
  }

  /** Length of the longest whitespace-free prefix of `s`. */
  function WordLen(s: string): (n: nat)
    ensures n <= |s|
    ensures NoSpace(s[..n])
    ensures n < |s| ==> IsSpace(s[n])
    ensures s != [] && !IsSpace(s[0]) ==> n > 0
  {
    if s == [] || IsSpace(s[0]) then 0
    else
      var n := 1 + WordLen(s[1..]);
      assert s[..n] == [s[0]] + s[1..][..n - 1];
      n
  }

  /** `str.split()`: the maximal whitespace-free runs of `s`, in order. */
  function Words(s: string): (ws: seq<string>)
    ensures AllWords(ws)
    ensures |ws| <= |s|
    ensures NoUpper(s) ==> forall i :: 0 <= i < |ws| ==> NoUpper(ws[i])
    decreases |s|
  {
    if s == [] then []
    else if IsSpace(s[0]) then Words(s[1..])
    else
      var n := WordLen(s);
      [s[..n]] + Words(s[n..])
  }

  /** `" ".join(ws)`. */
  function Join(ws: seq<string>): (s: string)
    ensures (forall i :: 0 <= i < |ws| ==> NoUpper(ws[i])) ==> NoUpper(s)
  {
    if ws == [] then ""
    else if |ws| == 1 then ws[0]
    else ws[0] + " " + Join(ws[1..])
  }

  lemma {:induction false} WordLenOfWord(w: string, t: string)
    requires NoSpace(w)
    requires t == [] || IsSpace(t[0])
    ensures WordLen(w + t) == |w|
    decreases |w|
  {
    if w != [] {
      assert (w + t)[1..] == w[1..] + t;
      WordLenOfWord(w[1..], t);
    } else {
      assert w + t == t;
    }
  }

  /** Whitespace in front of a string contributes no words. */
  lemma {:induction false} WordsSkipsSpace(sp: string, s: string)
    requires AllSpace(sp)
    ensures Words(sp + s) == Words(s)
    decreases |sp|
  {
    if sp != [] {
      assert (sp + s)[0] == sp[0];
      assert (sp + s)[1..] == sp[1..] + s;
      WordsSkipsSpace(sp[1..], s);
    } else {
      assert sp + s == s;
    }
  }

  /** A word followed by whitespace (or by nothing at all) is split off as the
      first word. With `Words([]) == []` and `WordsSkipsSpace`, this fixes
      `Words` on every string: the maximal whitespace-free runs, in order. */
  lemma {:induction false} WordsAfterWord(w: string, sp: string, rest: string)
    requires IsWord(w) && AllSpace(sp)
    requires sp != [] || rest == []
    ensures Words(w + sp + rest) == [w] + Words(rest)
  {
    var s := w + sp + rest;
    assert s == w + (sp + rest);
    WordLenOfWord(w, sp + rest);
    assert s[..|w|] == w;
    assert s[|w|..] == sp + rest;
    WordsSkipsSpace(sp, rest);
  }

  /** Splitting undoes joining whenever the pieces are genuine words. */
  lemma {:induction false} WordsJoin(ws: seq<string>)
    requires AllWords(ws)
    ensures Words(Join(ws)) == ws
    decreases |ws|
  {
    if ws == [] {
    } else if |ws| == 1 {
      var w := ws[0];
      WordLenOfWord(w, []);
      assert w + [] == w;
      assert w[..|w|] == w;
      assert w[|w|..] == [];
    } else {
      WordsAfterWord(ws[0], " ", Join(ws[1..]));
      assert ws[0] + " " + Join(ws[1..]) == Join(ws);
      WordsJoin(ws[1..]);
      assert ws == [ws[0]] + ws[1..];
    }
  }

  /** Leading whitespace removed. */
  function TrimLeft(s: string): (r: string)
    ensures |r| <= |s| && r == s[|s| - |r|..]
    ensures AllSpace(s[..|s| - |r|])
    ensures r == [] || !IsSpace(r[0])
  {
    if s != [] && IsSpace(s[0]) then
      var r := TrimLeft(s[1..]);
      assert s[..|s| - |r|] == [s[0]] + s[1..][..|s[1..]| - |r|];
      r
    else s
  }

  /** Slice fact for `TrimRight`: a prefix of `s` minus its last character is a
      prefix of `s`, and the rest of `s` is the rest of that prefix plus the last character. */
  lemma PrefixOfPrefix(s: string, t: string, r: string)
    requires s != [] && t == s[..|s| - 1] && |r| <= |t| && r == t[..|r|]
    ensures r == s[..|r|] && s[|r|..] == t[|r|..] + [s[|s| - 1]]
  {
  }

  /** Trailing whitespace removed. */
  function TrimRight(s: string): (r: string)
    ensures |r| <= |s| && r == s[..|r|]
    ensures AllSpace(s[|r|..])
    ensures r == [] || !IsSpace(r[|r| - 1])
  {
    if s != [] && IsSpace(s[|s| - 1]) then
      var t := s[..|s| - 1];
      var r := TrimRight(t);
      PrefixOfPrefix(s, t, r);
      r
    else s
  }

  /** Number of leading whitespace characters of `s`. */
  function LeadingSpace(s: string): (k: nat)
    ensures k <= |s|
  {
    |s| - |TrimLeft(s)|
  }

  /** Slice fact for `Strip`: a prefix of the suffix `s[k..]` is the slice of `s`
      starting at `k`, and what follows it in `s` is what follows it in the suffix. */
  lemma PrefixOfSuffix(s: string, k: nat, l: string, r: string)
    requires k <= |s| && l == s[k..] && |r| <= |l| && r == l[..|r|]
    ensures r == s[k..k + |r|] && s[k + |r|..] == l[|r|..]
  {
  }

  /** `str.strip()`: `s` with its whitespace border removed on both sides. */
  function Strip(s: string): (r: string)
    ensures LeadingSpace(s) + |r| <= |s|
    ensures r == s[LeadingSpace(s)..LeadingSpace(s) + |r|]
    ensures AllSpace(s[..LeadingSpace(s)]) && AllSpace(s[LeadingSpace(s) + |r|..])
    ensures r == [] || (!IsSpace(r[0]) && !IsSpace(r[|r| - 1]))
  {
    var l := TrimLeft(s);
    var r := TrimRight(l);
    PrefixOfSuffix(s, |s| - |l|, l, r);
    r
  }
}
