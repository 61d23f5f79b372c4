/** Characters, whitespace tokenising and joining, as Python's `str.split()`,
    `" ".join(...)`, `str.lower()` and `str.upper()` behave on ASCII text. */
module Text {

  /** Whitespace as `str.split()` with no separator sees it (the ASCII part:
      tab, line feed, vertical tab, form feed, carriage return, the four
      information separators 0x1C-0x1F, and space). */
  predicate IsSpace(c: char) {
    c == ' ' || (9 <= c as int <= 13) || (28 <= c as int <= 31)
  }

  /** A cased character for `str.title()`: an ASCII letter. */
  predicate IsLetter(c: char) {
    ('a' <= c <= 'z') || ('A' <= c <= 'Z')
  }

  function Upper(c: char): char {
    if 'a' <= c <= 'z' then (c as int - 32) as char else c
  }

  function Lower(c: char): char {
    if 'A' <= c <= 'Z' then (c as int + 32) as char else c
  }

  function LowerString(s: string): string {
    seq(|s|, i requires 0 <= i < |s| => Lower(s[i]))
  }

  /** What `str.split()` can return as one element: non-empty, no whitespace. */
  predicate IsToken(w: string) {
    |w| > 0 && forall i :: 0 <= i < |w| ==> !IsSpace(w[i])
  }

  /** Length of the run of non-whitespace characters that starts `s`. */
  function WordLength(s: string): (n: nat)
    ensures n <= |s|
    ensures forall i :: 0 <= i < n ==> !IsSpace(s[i])
    ensures n < |s| ==> IsSpace(s[n])
  {
    if s == [] || IsSpace(s[0]) then 0 else 1 + WordLength(s[1..])
  }

  /** `s.split()`: the maximal runs of non-whitespace characters, in order. */
  function Split(s: string): seq<string>
    decreases |s|
  {
    if s == [] then []
    else if IsSpace(s[0]) then Split(s[1..])
    else
      var n := WordLength(s);
      [s[..n]] + Split(s[n..])
  }

  /** Every element `str.split()` returns is a token. */
  lemma {:induction false} SplitTokens(s: string)
    ensures forall k :: 0 <= k < |Split(s)| ==> IsToken(Split(s)[k])
    decreases |s|
  {
    if s == [] {
    } else if IsSpace(s[0]) {
      SplitTokens(s[1..]);
    } else {
      SplitTokens(s[WordLength(s)..]);
    }
  }

  /** `" ".join(ts)`. */
  function Join(ts: seq<string>): string {
    if ts == [] then ""
    else if |ts| == 1 then ts[0]
    else ts[0] + " " + Join(ts[1..])
  }

  lemma {:induction false} WordLengthExtend(s: string, u: string)
    requires WordLength(s) < |s| || (|u| > 0 && IsSpace(u[0]))
    ensures WordLength(s + u) == WordLength(s)
    decreases |s|
  {
    if s == [] {
      assert s + u == u;
    } else if IsSpace(s[0]) {
      assert (s + u)[0] == s[0];
    } else {
      assert (s + u)[0] == s[0];
      assert (s + u)[1..] == s[1..] + u;
      WordLengthExtend(s[1..], u);
    }
  }

  lemma {:induction false} WordLengthOfToken(w: string)
    requires forall i :: 0 <= i < |w| ==> !IsSpace(w[i])
    ensures WordLength(w) == |w|
    decreases |w|
  {
    if w != [] {
      WordLengthOfToken(w[1..]);
    }
  }

  /** A token splits to itself. */
  lemma SplitToken(w: string)
    requires IsToken(w)
    ensures Split(w) == [w]
  {
    WordLengthOfToken(w);
    assert w[..|w|] == w;
    assert w[|w|..] == [];
  }

  /** A leading whitespace character does not change the tokens. */
  lemma LeadingSpace(c: char, s: string)
    requires IsSpace(c)
    ensures Split([c] + s) == Split(s)
  {
    assert ([c] + s)[1..] == s;
  }

  /** A string that starts with a word splits into that word and the rest. */
  lemma LeadingWord(x: string, n: nat)
    requires x != [] && !IsSpace(x[0]) && n == WordLength(x)
    ensures Split(x) == [x[..n]] + Split(x[n..])
  {
  }

  /** A leading space is dropped both with and without the appended text. */
  lemma SplitAroundSpace(s: string, c: char, t: string)
    requires s != [] && IsSpace(s[0])
    ensures Split(s + [c] + t) == Split(s[1..] + [c] + t)
    ensures Split(s) == Split(s[1..])
  {
    var rest := s[1..] + [c] + t;
    assert s + [c] + t == [s[0]] + rest;
    LeadingSpace(s[0], rest);
    assert s == [s[0]] + s[1..];
    LeadingSpace(s[0], s[1..]);
  }

  /** A leading word is the same word with and without the appended text,
      because a space ends it. */
  lemma SplitAroundWord(s: string, c: char, t: string)
    requires IsSpace(c) && s != [] && !IsSpace(s[0])
    ensures WordLength(s) <= |s|
    ensures Split(s + [c] + t) == [s[..WordLength(s)]] + Split(s[WordLength(s)..] + [c] + t)
    ensures Split(s) == [s[..WordLength(s)]] + Split(s[WordLength(s)..])
  {
    var n := WordLength(s);
    var x := s + [c] + t;
    assert x == s + ([c] + t);
    WordLengthExtend(s, [c] + t);
    assert x[..n] == s[..n];
    assert x[n..] == s[n..] + [c] + t;
    LeadingWord(x, n);
    LeadingWord(s, n);
  }

  /** Splitting around one whitespace character splits the two sides apart. */
  lemma {:induction false} SplitAround(s: string, c: char, t: string)
    requires IsSpace(c)
    ensures Split(s + [c] + t) == Split(s) + Split(t)
    decreases |s|
  {
    if s == [] {
      assert s + [c] + t == [c] + t;
      LeadingSpace(c, t);
    } else if IsSpace(s[0]) {
      SplitAroundSpace(s, c, t);
      SplitAround(s[1..], c, t);
    } else {
      SplitAroundWord(s, c, t);
      SplitAround(s[WordLength(s)..], c, t);
    }
  }

  /** Joining tokens with single spaces and splitting again gives the tokens back. */
  lemma {:induction false} SplitJoin(ts: seq<string>)
    requires forall k :: 0 <= k < |ts| ==> IsToken(ts[k])
    ensures Split(Join(ts)) == ts
  {
    if ts == [] {
    } else if |ts| == 1 {
      SplitToken(ts[0]);
    } else {
      SplitAround(ts[0], ' ', Join(ts[1..]));
      assert ts[0] + " " + Join(ts[1..]) == ts[0] + [' '] + Join(ts[1..]);
      SplitToken(ts[0]);
      SplitJoin(ts[1..]);
    }
  }

  /** A line built as `" ".join(ts) + "\n"` tokenises back to `ts`. */
  lemma JoinedLineTokens(ts: seq<string>)
    requires forall k :: 0 <= k < |ts| ==> IsToken(ts[k])
    ensures Split(Join(ts) + "\n") == ts
  {
    SplitAround(Join(ts), '\n', "");
    assert Join(ts) + "\n" == Join(ts) + ['\n'] + "";
    SplitJoin(ts);
  }

  /** A field line as the script writes it: two spaces, the tokens joined
      by single spaces, a newline. */
  function IndentedLine(ts: seq<string>): string {
    "  " + Join(ts) + "\n"
  }

  /** A line built by `IndentedLine` tokenises back to `ts`. */
  lemma IndentedLineTokens(ts: seq<string>)
    requires forall k :: 0 <= k < |ts| ==> IsToken(ts[k])
    ensures Split(IndentedLine(ts)) == ts
  {
    var body := Join(ts) + "\n";
    var once := [' '] + body;
    assert Split(body) == ts by { JoinedLineTokens(ts); }
    assert Split(once) == Split(body) by { LeadingSpace(' ', body); }
    assert Split([' '] + once) == Split(once) by { LeadingSpace(' ', once); }
    assert IndentedLine(ts) == [' '] + once by {
      var sp := "  ";
      assert sp == [' '] + [' '];
      assert IndentedLine(ts) == sp + Join(ts) + "\n";
    }
  }
}
