/** The name conversion of the schema casing script,
    `name.replace("_", " ").title().replace(" ", "")`, with `str.title()` on
    ASCII letters, and the character-by-character reading of what it does. */
module PascalCase {
  import opened Text

  /** `s.replace(a, b)` for one-character `a` and `b`. */
  function ReplaceChar(s: string, a: char, b: char): string {
    seq(|s|, i requires 0 <= i < |s| => if s[i] == a then b else s[i])
  }

  /** `str.title()` over the rest of a string, once the character before it
      was (`prevCased`) or was not a letter: a letter is upper-cased after a
      non-letter and lower-cased after a letter; anything else is kept. */
  function TitleFrom(s: string, prevCased: bool): (r: string)
    ensures |r| == |s|
  {
    if s == [] then []
    else
      var c := s[0];
      var d := if !IsLetter(c) then c else if prevCased then Lower(c) else Upper(c);
      [d] + TitleFrom(s[1..], IsLetter(c))
  }

  /** `s.title()`. */
  function Title(s: string): (r: string)
    ensures |r| == |s|
  {
    TitleFrom(s, false)
  }

  /** Number of occurrences of `c` in `s`. */
  function Count(s: string, c: char): nat {
    if s == [] then 0 else (if s[0] == c then 1 else 0) + Count(s[1..], c)
  }

  /** `s.replace(c, "")`: `s` without its occurrences of `c`. */
  function RemoveChar(s: string, c: char): string {
    if s == [] then []
    else (if s[0] == c then [] else [s[0]]) + RemoveChar(s[1..], c)
  }

  /** Removing `c` removes exactly its occurrences and keeps only characters of `s`. */
  lemma {:induction false} RemoveCharKeeps(s: string, c: char)
    ensures |RemoveChar(s, c)| == |s| - Count(s, c)
    ensures forall j :: 0 <= j < |RemoveChar(s, c)| ==> RemoveChar(s, c)[j] != c && RemoveChar(s, c)[j] in s
  {
    if s != [] {
      RemoveCharKeeps(s[1..], c);
    }
  }

  /** The conversion applied to every `model` and `enum` name. */
  function Pascal(name: string): string {
    RemoveChar(Title(ReplaceChar(name, '_', ' ')), ' ')
  }

  /** What the conversion makes of the character at position `i` of a name:
      a letter is upper-cased when it starts the name or follows a non-letter
      (an underscore included) and lower-cased when it follows a letter. */
  function CaseAt(s: string, i: nat): char
    requires i < |s|
  {
    if !IsLetter(s[i]) then s[i]
    else if i > 0 && IsLetter(s[i - 1]) then Lower(s[i])
    else Upper(s[i])
  }

  lemma {:induction false} TitleFromAt(s: string, prev: bool, i: nat)
    requires i < |s|
    ensures TitleFrom(s, prev)[i] ==
      if !IsLetter(s[i]) then s[i]
      else if (if i == 0 then prev else IsLetter(s[i - 1])) then Lower(s[i])
      else Upper(s[i])
    decreases i
  {
    if i > 0 {
      TitleFromAt(s[1..], IsLetter(s[0]), i - 1);
    }
  }

  /** After `_` becomes a space, `title()` treats it as a word break, so
      position `i` of the title-cased text holds `CaseAt(s, i)`. */
  lemma TitleOfReplacedAt(s: string, i: nat)
    requires i < |s|
    ensures Title(ReplaceChar(s, '_', ' '))[i] == if s[i] == '_' then ' ' else CaseAt(s, i)
  {
    var u := ReplaceChar(s, '_', ' ');
    TitleFromAt(u, false, i);
    assert IsLetter(u[i]) == IsLetter(s[i]);
    if i > 0 {
      assert IsLetter(u[i - 1]) == IsLetter(s[i - 1]);
    }
  }

  /** Where a kept character of `s` lands once the `c`s are removed. */
  lemma {:induction false} RemoveCharAt(s: string, c: char, i: nat)
    requires i < |s| && s[i] != c
    ensures Count(s[..i], c) <= i
    ensures i - Count(s[..i], c) < |RemoveChar(s, c)|
    ensures RemoveChar(s, c)[i - Count(s[..i], c)] == s[i]
    decreases i
  {
    RemoveCharKeeps(s, c);
    if i == 0 {
      assert s[..0] == [];
    } else {
      assert s[..i] == [s[0]] + s[1..][..i - 1];
      assert s[..i][1..] == s[1..][..i - 1];
      RemoveCharAt(s[1..], c, i - 1);
    }
  }

  /** Two strings that have `ca` and `cb` at the same positions hold equally many. */
  lemma {:induction false} CountAgree(a: string, ca: char, b: string, cb: char)
    requires |a| == |b|
    requires forall j :: 0 <= j < |a| ==> (a[j] == ca <==> b[j] == cb)
    ensures Count(a, ca) == Count(b, cb)
  {
    if a != [] {
      CountAgree(a[1..], ca, b[1..], cb);
    }
  }

  /** Under the replace-then-title step, the spaces stand exactly where the
      underscores of a space-free name stood. */
  lemma SpacesAreUnderscores(s: string, i: nat)
    requires forall j :: 0 <= j < |s| ==> s[j] != ' '
    requires i <= |s|
    ensures Count(Title(ReplaceChar(s, '_', ' '))[..i], ' ') == Count(s[..i], '_')
  {
    var t := Title(ReplaceChar(s, '_', ' '));
    forall j | 0 <= j < i
      ensures (t[..i][j] == ' ' <==> s[..i][j] == '_')
    {
      TitleOfReplacedAt(s, j);
    }
    CountAgree(t[..i], ' ', s[..i], '_');
  }

  /** The conversion of a name without spaces drops exactly its underscores
      and puts `CaseAt(s, i)` in the place of every other character, in the
      original order. */
  lemma PascalSpec(s: string)
    requires forall j :: 0 <= j < |s| ==> s[j] != ' '
    ensures |Pascal(s)| == |s| - Count(s, '_')
    ensures forall i :: 0 <= i < |s| && s[i] != '_' ==>
      Count(s[..i], '_') <= i &&
      i - Count(s[..i], '_') < |Pascal(s)| &&
      Pascal(s)[i - Count(s[..i], '_')] == CaseAt(s, i)
  {
    var t := Title(ReplaceChar(s, '_', ' '));
    assert |Pascal(s)| == |s| - Count(s, '_') by {
      SpacesAreUnderscores(s, |s|);
      assert t[..|t|] == t && s[..|s|] == s;
      RemoveCharKeeps(t, ' ');
    }
    forall i | 0 <= i < |s| && s[i] != '_'
      ensures Count(s[..i], '_') <= i
      ensures i - Count(s[..i], '_') < |Pascal(s)|
      ensures Pascal(s)[i - Count(s[..i], '_')] == CaseAt(s, i)
    {
      TitleOfReplacedAt(s, i);
      SpacesAreUnderscores(s, i);
      RemoveCharAt(t, ' ', i);
    }
  }

  /** The converted name never holds an underscore. */
  lemma PascalHasNoUnderscore(s: string)
    ensures forall j :: 0 <= j < |Pascal(s)| ==> Pascal(s)[j] != '_'
  {
    var t := Title(ReplaceChar(s, '_', ' '));
    forall j | 0 <= j < |t|
      ensures t[j] != '_'
    {
      TitleOfReplacedAt(s, j);
    }
    RemoveCharKeeps(t, ' ');
  }

  /** The conversion brings in no whitespace. */
  lemma PascalHasNoSpace(s: string)
    requires forall j :: 0 <= j < |s| ==> !IsSpace(s[j])
    ensures forall j :: 0 <= j < |Pascal(s)| ==> !IsSpace(Pascal(s)[j])
  {
    var t := Title(ReplaceChar(s, '_', ' '));
    forall j | 0 <= j < |t|
      ensures IsSpace(t[j]) ==> t[j] == ' '
    {
      TitleOfReplacedAt(s, j);
    }
    RemoveCharKeeps(t, ' ');
    forall j | 0 <= j < |Pascal(s)|
      ensures !IsSpace(Pascal(s)[j])
    {
      var x := Pascal(s)[j];
      assert x in t && x != ' ';
    }
  }

  /** A name token that is not all underscores converts to a token. */
  lemma PascalIsToken(s: string)
    requires IsToken(s)
    requires Count(s, '_') < |s|
    ensures IsToken(Pascal(s))
  {
    PascalSpec(s);
    PascalHasNoSpace(s);
  }

  lemma {:induction false} CountAbsent(s: string, c: char)
    requires forall j :: 0 <= j < |s| ==> s[j] != c
    ensures Count(s, c) == 0
  {
    if s != [] {
      CountAbsent(s[1..], c);
    }
  }

  /** A name that is already in Pascal case, with a capital right after a
      letter, is changed by the conversion: the capital is lower-cased. The
      conversion is therefore not idempotent. */
  lemma PascalLowersInnerCapital(s: string, i: nat)
    requires forall j :: 0 <= j < |s| ==> s[j] != '_' && s[j] != ' '
    requires 0 < i < |s| && IsLetter(s[i - 1]) && 'A' <= s[i] <= 'Z'
    ensures |Pascal(s)| == |s|
    ensures Pascal(s)[i] == Lower(s[i])
    ensures Pascal(s) != s
  {
    PascalSpec(s);
    CountAbsent(s, '_');
    CountAbsent(s[..i], '_');
  }

  /** `CardPrint` converts to `Cardprint`, not to itself. */
  lemma CamelNameIsChanged()
    ensures Pascal("CardPrint") != "CardPrint"
  {
    PascalLowersInnerCapital("CardPrint", 4);
  }
}
