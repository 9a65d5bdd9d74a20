/**
  The lexer of the scene language.

  Characters are scanned left to right. Whitespace is dropped without ending the
  pending run of ordinary characters, so "a b" lexes to the single token "ab".
  Each of the nine punctuation characters becomes a token of its own and ends
  the pending run; every other character extends the run.
*/
module Lexer {

  /** C's isspace in the "C" locale: space, \t, \n, \v, \f, \r. */
  predicate IsSpace(c: char) {
    c == ' ' || '\t' <= c <= '\r'
  }

  predicate IsPunct(c: char) {
    c in "{}()[],;="
  }

  predicate IsPunctToken(t: string) {
    |t| == 1 && IsPunct(t[0])
  }

  /** A run of ordinary characters: non-empty, no whitespace, no punctuation. */
  predicate IsWord(t: string) {
    |t| > 0 && forall c | c in t :: !IsSpace(c) && !IsPunct(c)
  }

  /**
    What the lexer can produce: every token is a punctuation token or a word,
    and no two words are adjacent (a run only ends at punctuation or at the end).
  */
  predicate ValidTokens(ts: seq<string>) {
    && (forall i | 0 <= i < |ts| :: IsPunctToken(ts[i]) || IsWord(ts[i]))
    && (forall i | 0 <= i < |ts| - 1 :: !(IsWord(ts[i]) && IsWord(ts[i + 1])))
  }

  /** The tokens written one after another. */
  function Concat(ts: seq<string>): string {
    if ts == [] then [] else ts[0] + Concat(ts[1..])
  }

  /** The text with every whitespace character removed. */
  function Strip(s: string): string {
    if s == [] then []
    else Strip(s[..|s| - 1]) + (if IsSpace(s[|s| - 1]) then [] else [s[|s| - 1]])
  }

  /** The lexer's state between characters: the tokens pushed so far and the pending run. */
  datatype LexState = LexState(tokens: seq<string>, current: string)

  /** One iteration of the lexer's loop. */
  function Step(st: LexState, c: char): LexState {
    if IsSpace(c) then st
    else if IsPunct(c) then
      LexState((if st.current != [] then st.tokens + [st.current] else st.tokens) + [[c]], [])
    else
      LexState(st.tokens, st.current + [c])
  }

  /** The state after the loop has read all of s. */
  function Scan(s: string): LexState {
    if s == [] then LexState([], []) else Step(Scan(s[..|s| - 1]), s[|s| - 1])
  }

  /** tokenize: scan, then push the pending run if it is not empty. */
  function Lex(s: string): seq<string> {
    var st := Scan(s);
    if st.current != [] then st.tokens + [st.current] else st.tokens
  }

  method Tokenize(input: string) returns (tokens: seq<string>)
    ensures tokens == Lex(input)
    ensures ValidTokens(tokens) && Concat(tokens) == Strip(input)
    ensures input == [] ==> tokens == []
  {
    tokens := [];
    var current: string := [];
    for i := 0 to |input|
      invariant LexState(tokens, current) == Scan(input[..i])
    {
      assert input[..i + 1][..i] == input[..i];
      var c := input[i];
      if IsSpace(c) {
        continue;
      }
      if IsPunct(c) {
        if current != [] {
          tokens := tokens + [current];
          current := [];
        }
        tokens := tokens + [[c]];
      } else {
        current := current + [c];
      }
    }
    assert input[..|input|] == input;
    if current != [] {
      tokens := tokens + [current];
    }
    LexSound(input);
  }

  lemma {:induction false} ConcatSnoc(ts: seq<string>, t: string)
    ensures Concat(ts + [t]) == Concat(ts) + t
  {
    if ts != [] {
      assert (ts + [t])[1..] == ts[1..] + [t];
      ConcatSnoc(ts[1..], t);
    }
  }

  predicate NoSpace(s: string) {
    forall c | c in s :: !IsSpace(c)
  }

  /** The loop invariant of the lexer, proved for every prefix. */
  predicate ScanInvariant(st: LexState) {
    && ValidTokens(st.tokens)
    && (st.tokens == [] || !IsWord(st.tokens[|st.tokens| - 1]))
    && (st.current == [] || IsWord(st.current))
  }

  lemma PushWord(ts: seq<string>, w: string)
    requires ValidTokens(ts) && (ts == [] || !IsWord(ts[|ts| - 1])) && IsWord(w)
    ensures ValidTokens(ts + [w])
  {
    var r := ts + [w];
    forall i | 0 <= i < |r| - 1
      ensures !(IsWord(r[i]) && IsWord(r[i + 1]))
    {
      if i == |ts| - 1 { assert r[i] == ts[i]; } else { assert r[i] == ts[i] && r[i + 1] == ts[i + 1]; }
    }
  }

  lemma PushPunct(ts: seq<string>, c: char)
    requires ValidTokens(ts) && IsPunct(c)
    ensures ValidTokens(ts + [[c]])
  {
    var r := ts + [[c]];
    assert IsPunctToken([c]) && !IsWord([c]) by { assert c in [c]; }
    forall i | 0 <= i < |r| - 1
      ensures !(IsWord(r[i]) && IsWord(r[i + 1]))
    {
      if i < |ts| - 1 { assert r[i] == ts[i] && r[i + 1] == ts[i + 1]; }
    }
  }

  /** One step of the loop keeps the invariant and appends c unless it is whitespace. */
  lemma StepSound(st: LexState, c: char)
    requires ScanInvariant(st)
    ensures ScanInvariant(Step(st, c))
    ensures Concat(Step(st, c).tokens) + Step(st, c).current
         == Concat(st.tokens) + st.current + (if IsSpace(c) then [] else [c])
  {
    if IsSpace(c) {
    } else if IsPunct(c) {
      var ts := if st.current != [] then st.tokens + [st.current] else st.tokens;
      if st.current != [] {
        PushWord(st.tokens, st.current);
        ConcatSnoc(st.tokens, st.current);
      }
      PushPunct(ts, c);
      ConcatSnoc(ts, [c]);
      assert !IsWord([c]) by { assert c in [c]; }
    } else {
      assert IsWord(st.current + [c]);
    }
  }

  lemma {:induction false} ScanSound(s: string)
    ensures ScanInvariant(Scan(s))
    ensures Concat(Scan(s).tokens) + Scan(s).current == Strip(s)
  {
    if s != [] {
      ScanSound(s[..|s| - 1]);
      StepSound(Scan(s[..|s| - 1]), s[|s| - 1]);
    }
  }

  /** Lexing keeps every non-whitespace character, in order, and produces only valid tokens. */
  lemma LexSound(s: string)
    ensures ValidTokens(Lex(s))
    ensures Concat(Lex(s)) == Strip(s)
  {
    ScanSound(s);
    var st := Scan(s);
    if st.current != [] {
      ConcatSnoc(st.tokens, st.current);
    }
  }

  /** A valid token sequence is determined by the text it spells. */
  lemma {:induction false} ValidUnique(a: seq<string>, b: seq<string>)
    requires ValidTokens(a) && ValidTokens(b)
    requires Concat(a) == Concat(b)
    ensures a == b
    decreases |a|
  {
    if a == [] || b == [] {
    } else {
      var x, y := a[0], b[0];
      var ra, rb := a[1..], b[1..];
      assert ValidTokens(ra) && ValidTokens(rb);
      assert |x| > 0 && |y| > 0;
      assert Concat(a) == x + Concat(ra) && Concat(b) == y + Concat(rb);
      assert x[0] == Concat(a)[0] == y[0];
      if IsPunctToken(x) || IsPunctToken(y) {
        assert x[0] in x && y[0] in y;
        assert IsPunctToken(x) && IsPunctToken(y);
        assert x == y;
      } else {
        LeadingWord(a);
        LeadingWord(b);
        assert |x| == |y|;
        assert x == Concat(a)[..|x|] == y;
      }
      assert Concat(ra) == Concat(a)[|x|..] == Concat(rb);
      ValidUnique(ra, rb);
    }
  }

  /** The length of the longest prefix of s free of punctuation. */
  function WordLength(s: string): nat {
    if s == [] || IsPunct(s[0]) then 0 else 1 + WordLength(s[1..])
  }

  lemma {:induction false} WordLengthAppend(w: string, rest: string)
    requires forall c | c in w :: !IsPunct(c)
    requires rest == [] || IsPunct(rest[0])
    ensures WordLength(w + rest) == |w|
  {
    if w != [] {
      assert w[0] in w;
      assert (w + rest)[1..] == w[1..] + rest;
      WordLengthAppend(w[1..], rest);
    }
  }

  /** A valid sequence that starts with a word spells a text whose leading word is exactly that word. */
  lemma LeadingWord(a: seq<string>)
    requires ValidTokens(a) && a != [] && IsWord(a[0])
    ensures WordLength(Concat(a)) == |a[0]|
  {
    if a[1..] != [] {
      assert IsPunctToken(a[1]);
      assert Concat(a[1..]) == a[1] + Concat(a[2..]);
    }
    WordLengthAppend(a[0], Concat(a[1..]));
  }

  lemma {:induction false} ConcatNoSpace(ts: seq<string>)
    requires ValidTokens(ts)
    ensures NoSpace(Concat(ts))
  {
    if ts != [] {
      assert ValidTokens(ts[1..]);
      ConcatNoSpace(ts[1..]);
      assert IsPunctToken(ts[0]) || IsWord(ts[0]);
    }
  }

  lemma {:induction false} StripNoSpace(s: string)
    requires NoSpace(s)
    ensures Strip(s) == s
  {
    if s != [] {
      StripNoSpace(s[..|s| - 1]);
      assert s[|s| - 1] in s;
    }
  }

  /** Lexing the text spelled by a valid token sequence gives that sequence back. */
  lemma LexRoundTrip(ts: seq<string>)
    requires ValidTokens(ts)
    ensures Lex(Concat(ts)) == ts
  {
    LexSound(Concat(ts));
    ConcatNoSpace(ts);
    StripNoSpace(Concat(ts));
    ValidUnique(Lex(Concat(ts)), ts);
  }
}
