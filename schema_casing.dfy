/** The casing pass over the lines of `schema.prisma`: every `model` and
    `enum` name goes to Pascal case, every model gets an `@@map("<old name>")`
    line right after its header, and field lines that refer to a renamed type
    are rewritten. The file's lines are read into a list that the pass edits
    in place (index assignment and `insert`) while it walks a snapshot of the
    original lines; `ConvertSchema` does the same on a local sequence. */
module SchemaCasing {
  import opened Text
  import opened PascalCase

  datatype Option<T> = None | Some(value: T)

  datatype Kind = Model | Enum

  /** A declaration whose name the pass converts. */
  datatype Decl = Decl(kind: Kind, name: string)

  /** The declaration a line opens: its first token is `model` or `enum` and
      it has a second token (a lone keyword makes the script's `line_list[1]`
      raise `IndexError`, and the line is skipped). */
  function DeclOf(line: string): Option<Decl> {
    var t := Split(line);
    if |t| >= 2 && t[0] == "model" then Some(Decl(Model, t[1]))
    else if |t| >= 2 && t[0] == "enum" then Some(Decl(Enum, t[1]))
    else None
  }

  predicate IsModelHeader(line: string) {
    DeclOf(line).Some? && DeclOf(line).value.kind == Model
  }

  /** The header as the pass writes it back: its tokens, the name converted,
      joined by single spaces, with no indent. */
  function HeaderText(line: string): string
    requires DeclOf(line).Some?
  {
    var t := Split(line);
    Join(t[1 := Pascal(t[1])]) + "\n"
  }

  /** The line inserted after a model header. */
  function MapLine(name: string): string {
    "  @@map(\"" + name + "\")\n"
  }

  /** The single token of an inserted `@@map` line. */
  function MapToken(name: string): string {
    "@@map(\"" + name + "\")"
  }

  predicate EndsWith(s: string, suffix: string) {
    |suffix| <= |s| && s[|s| - |suffix|..] == suffix
  }

  /** Whether a field's type token names the declaration: `X`, `X[]` or `X?`
      for a model, `X` or `X?` for an enum. */
  predicate Refers(token: string, d: Decl) {
    match d.kind
    case Model => token == d.name || token == d.name + "[]" || token == d.name + "?"
    case Enum => token == d.name || token == d.name + "?"
  }

  /** Whether `RewriteReference(line, d)` cannot touch the line. */
  predicate NotReferenced(line: string, d: Decl) {
    var t := Split(line);
    |t| < 2 || !Refers(t[1], d)
  }

  /** What the inner loop makes of one line for declaration `d`. A model
      reference is rewritten in its list form `X[]`, or in the forms `X`/`X?`
      when a third token starting with `@relation` follows, and then becomes
      the bare converted name; an enum reference keeps its `?`. Lines too
      short for `tmp_line_list[1]` or `[2]` are left as they are. */
  function RewriteReference(line: string, d: Decl): string {
    var t := Split(line);
    if |t| < 2 || !Refers(t[1], d) then line
    else
      match d.kind
      case Model =>
        if EndsWith(t[1], "[]") then IndentedLine(t[1 := Pascal(d.name) + "[]"])
        else if |t| >= 3 && "@relation" <= t[2] then IndentedLine(t[1 := Pascal(d.name)])
        else line
      case Enum =>
        if EndsWith(t[1], "?") then IndentedLine(t[1 := Pascal(d.name) + "?"])
        else IndentedLine(t[1 := Pascal(d.name)])
  }

  /** Number of model headers among the first `n` input lines: the value of
      the script's `added_lines` when it reaches line `n`. */
  function ModelsBefore(input: seq<string>, n: nat): nat
    requires n <= |input|
  {
    if n == 0 then 0
    else ModelsBefore(input, n - 1) + (if IsModelHeader(input[n - 1]) then 1 else 0)
  }

  /** Where original line `k` stands in the output: `k + added_lines`. */
  function Pos(input: seq<string>, k: nat): nat
    requires k <= |input|
  {
    k + ModelsBefore(input, k)
  }

  /** Where original line `k` stands once the first `i` original lines are done. */
  function Slot(input: seq<string>, k: nat, i: nat): nat
    requires k <= |input| && i <= |input|
  {
    k + ModelsBefore(input, if k < i then k else i)
  }

  /** The text of original line `k` once the first `i` original lines are
      done: each declaration met rewrites the references in every line, and a
      declaration's own header is first overwritten by its converted text. */
  function LineAfter(input: seq<string>, k: nat, i: nat): string
    requires k < |input| && i <= |input|
    decreases i
  {
    if i == 0 then input[k]
    else
      var prev := LineAfter(input, k, i - 1);
      match DeclOf(input[i - 1])
      case None => prev
      case Some(d) => RewriteReference(if k == i - 1 then HeaderText(input[k]) else prev, d)
  }

  /** The final text of original line `k`. */
  function Converted(input: seq<string>, k: nat): string
    requires k < |input|
  {
    LineAfter(input, k, |input|)
  }

  /** The state of the line list once the first `i` original lines are done. */
  ghost predicate Converting(input: seq<string>, i: nat, lines: seq<string>) {
    i <= |input| &&
    |lines| == |input| + ModelsBefore(input, i) &&
    (forall k :: 0 <= k < |input| ==>
      Slot(input, k, i) < |lines| && lines[Slot(input, k, i)] == LineAfter(input, k, i)) &&
    (forall k :: 0 <= k < i && IsModelHeader(input[k]) ==>
      Pos(input, k) + 1 < |lines| && lines[Pos(input, k) + 1] == MapLine(DeclOf(input[k]).value.name))
  }

  /** The inner loop over the current lines for one declaration. */
  method RewriteReferences(lines: seq<string>, d: Decl) returns (out: seq<string>)
    ensures |out| == |lines|
    ensures forall x :: 0 <= x < |lines| ==> out[x] == RewriteReference(lines[x], d)
  {
    out := lines;
    for j := 0 to |lines|
      invariant |out| == |lines|
      invariant forall x :: 0 <= x < j ==> out[x] == RewriteReference(lines[x], d)
      invariant forall x :: j <= x < |lines| ==> out[x] == lines[x]
    {
      out := out[j := RewriteReference(out[j], d)];
    }
  }

  /** The whole pass. The output has one more line per model header; each
      original line sits at `Pos(input, k)` with its final text, and each
      model header is directly followed by its `@@map` line. */
  method ConvertSchema(input: seq<string>) returns (lines: seq<string>)
    ensures |lines| == |input| + ModelsBefore(input, |input|)
    ensures forall k :: 0 <= k < |input| ==>
      Pos(input, k) < |lines| && lines[Pos(input, k)] == Converted(input, k)
    ensures forall k :: 0 <= k < |input| && IsModelHeader(input[k]) ==>
      Pos(input, k) + 1 < |lines| && lines[Pos(input, k) + 1] == MapLine(DeclOf(input[k]).value.name)
  {
    lines := input;
    var added := 0;
    for i := 0 to |input|
      invariant added == ModelsBefore(input, i)
      invariant Converting(input, i, lines)
    {
      var tokens := Split(input[i]);
      assert Slot(input, i, i) == i + added;
      if |tokens| >= 2 && tokens[0] == "model" {
        var toMap := tokens[1];
        ghost var before := lines;
        lines := lines[i + added := Join(tokens[1 := Pascal(toMap)]) + "\n"];
        lines := RewriteReferences(lines, Decl(Model, toMap));
        ghost var rewritten := lines;
        lines := lines[..i + 1 + added] + [MapLine(toMap)] + lines[i + 1 + added..];
        added := added + 1;
        ModelStep(input, i, before, rewritten, lines);
      } else if |tokens| >= 2 && tokens[0] == "enum" {
        var toMap := tokens[1];
        ghost var before := lines;
        lines := lines[i + added := Join(tokens[1 := Pascal(toMap)]) + "\n"];
        lines := RewriteReferences(lines, Decl(Enum, toMap));
        EnumStep(input, i, before, lines);
      } else {
        PlainStep(input, i, lines);
      }
    }
    forall k | 0 <= k < |input|
      ensures Slot(input, k, |input|) == Pos(input, k)
    {
    }
  }

  lemma {:induction false} ModelsBeforeMono(input: seq<string>, k: nat, i: nat)
    requires k < i <= |input|
    ensures ModelsBefore(input, k) + (if IsModelHeader(input[k]) then 1 else 0) <= ModelsBefore(input, i)
    decreases i
  {
    if i > k + 1 {
      ModelsBeforeMono(input, k, i - 1);
    }
  }

  /** An inserted `@@map` line is a single token, so no later declaration
      rewrites it. */
  lemma MapLineUntouched(name: string, d: Decl)
    requires IsToken(name)
    ensures Split(MapLine(name)) == [MapToken(name)]
    ensures RewriteReference(MapLine(name), d) == MapLine(name)
  {
    var tok := MapToken(name);
    assert forall j :: 0 <= j < |tok| ==> tok[j] in "@map(\")" || tok[j] in name;
    assert IsToken(tok);
    assert MapLine(name) == IndentedLine([tok]);
    IndentedLineTokens([tok]);
  }

  /** One outer iteration over a model header keeps `Converting`. */
  lemma ModelStep(input: seq<string>, i: nat, before: seq<string>, rewritten: seq<string>, after: seq<string>)
    requires i < |input| && IsModelHeader(input[i])
    requires Converting(input, i, before)
    requires i + ModelsBefore(input, i) < |before|
    requires |rewritten| == |before|
    requires forall x :: 0 <= x < |before| ==>
      rewritten[x] == RewriteReference(before[i + ModelsBefore(input, i) := HeaderText(input[i])][x], DeclOf(input[i]).value)
    requires after == rewritten[..i + ModelsBefore(input, i) + 1] + [MapLine(DeclOf(input[i]).value.name)]
                      + rewritten[i + ModelsBefore(input, i) + 1..]
    ensures Converting(input, i + 1, after)
  {
    var next := i + 1;
    assert ModelsBefore(input, next) == ModelsBefore(input, i) + 1;
    forall k | 0 <= k < |input|
      ensures Slot(input, k, next) < |after| && after[Slot(input, k, next)] == LineAfter(input, k, next)
    {
      ModelLineAt(input, i, before, rewritten, after, k);
    }
    forall k | 0 <= k < next && IsModelHeader(input[k])
      ensures Pos(input, k) + 1 < |after| && after[Pos(input, k) + 1] == MapLine(DeclOf(input[k]).value.name)
    {
      ModelMapAt(input, i, before, rewritten, after, k);
    }
  }

  /** Where original line `k` stands, and what it holds, after a model iteration. */
  lemma ModelLineAt(input: seq<string>, i: nat, before: seq<string>, rewritten: seq<string>, after: seq<string>, k: nat)
    requires i < |input| && IsModelHeader(input[i])
    requires Converting(input, i, before)
    requires i + ModelsBefore(input, i) < |before|
    requires |rewritten| == |before|
    requires forall x :: 0 <= x < |before| ==>
      rewritten[x] == RewriteReference(before[i + ModelsBefore(input, i) := HeaderText(input[i])][x], DeclOf(input[i]).value)
    requires after == rewritten[..i + ModelsBefore(input, i) + 1] + [MapLine(DeclOf(input[i]).value.name)]
                      + rewritten[i + ModelsBefore(input, i) + 1..]
    requires k < |input|
    ensures Slot(input, k, i + 1) < |after| && after[Slot(input, k, i + 1)] == LineAfter(input, k, i + 1)
  {
    var p := i + ModelsBefore(input, i);
    var headed := before[p := HeaderText(input[i])];
    var q := Slot(input, k, i);
    assert before[q] == LineAfter(input, k, i);
    if k < i {
      ModelsBeforeMono(input, k, i);
      assert Slot(input, k, i + 1) == q < p;
      assert after[q] == rewritten[q];
      assert headed[q] == before[q];
    } else if k == i {
      assert Slot(input, k, i + 1) == p == q;
      assert after[p] == rewritten[p];
    } else {
      assert Slot(input, k, i + 1) == q + 1;
      assert q > p;
      assert after[q + 1] == rewritten[q];
      assert headed[q] == before[q];
    }
  }

  /** The `@@map` lines already in place survive a model iteration, and the
      iteration adds its own right after the header. */
  lemma ModelMapAt(input: seq<string>, i: nat, before: seq<string>, rewritten: seq<string>, after: seq<string>, k: nat)
    requires i < |input| && IsModelHeader(input[i])
    requires Converting(input, i, before)
    requires i + ModelsBefore(input, i) < |before|
    requires |rewritten| == |before|
    requires forall x :: 0 <= x < |before| ==>
      rewritten[x] == RewriteReference(before[i + ModelsBefore(input, i) := HeaderText(input[i])][x], DeclOf(input[i]).value)
    requires after == rewritten[..i + ModelsBefore(input, i) + 1] + [MapLine(DeclOf(input[i]).value.name)]
                      + rewritten[i + ModelsBefore(input, i) + 1..]
    requires k <= i && IsModelHeader(input[k])
    ensures Pos(input, k) + 1 < |after| && after[Pos(input, k) + 1] == MapLine(DeclOf(input[k]).value.name)
  {
    var p := i + ModelsBefore(input, i);
    var headed := before[p := HeaderText(input[i])];
    if k < i {
      var q := Pos(input, k) + 1;
      ModelsBeforeMono(input, k, i);
      assert before[q] == MapLine(DeclOf(input[k]).value.name);
      assert q < p;
      assert after[q] == rewritten[q];
      assert headed[q] == before[q];
      SplitTokens(input[k]);
      MapLineUntouched(DeclOf(input[k]).value.name, DeclOf(input[i]).value);
    } else {
      assert Pos(input, k) + 1 == p + 1;
    }
  }

  /** One outer iteration over an enum header keeps `Converting`. */
  lemma EnumStep(input: seq<string>, i: nat, before: seq<string>, after: seq<string>)
    requires i < |input| && DeclOf(input[i]).Some? && DeclOf(input[i]).value.kind == Enum
    requires Converting(input, i, before)
    requires i + ModelsBefore(input, i) < |before|
    requires |after| == |before|
    requires forall x :: 0 <= x < |before| ==>
      after[x] == RewriteReference(before[i + ModelsBefore(input, i) := HeaderText(input[i])][x], DeclOf(input[i]).value)
    ensures Converting(input, i + 1, after)
  {
    var next := i + 1;
    assert ModelsBefore(input, next) == ModelsBefore(input, i);
    forall k | 0 <= k < |input|
      ensures Slot(input, k, next) < |after| && after[Slot(input, k, next)] == LineAfter(input, k, next)
    {
      EnumLineAt(input, i, before, after, k);
    }
    forall k | 0 <= k < next && IsModelHeader(input[k])
      ensures Pos(input, k) + 1 < |after| && after[Pos(input, k) + 1] == MapLine(DeclOf(input[k]).value.name)
    {
      EnumMapAt(input, i, before, after, k);
    }
  }

  lemma EnumLineAt(input: seq<string>, i: nat, before: seq<string>, after: seq<string>, k: nat)
    requires i < |input| && DeclOf(input[i]).Some? && DeclOf(input[i]).value.kind == Enum
    requires Converting(input, i, before)
    requires i + ModelsBefore(input, i) < |before|
    requires |after| == |before|
    requires forall x :: 0 <= x < |before| ==>
      after[x] == RewriteReference(before[i + ModelsBefore(input, i) := HeaderText(input[i])][x], DeclOf(input[i]).value)
    requires k < |input|
    ensures Slot(input, k, i + 1) < |after| && after[Slot(input, k, i + 1)] == LineAfter(input, k, i + 1)
  {
    var p := i + ModelsBefore(input, i);
    var headed := before[p := HeaderText(input[i])];
    var q := Slot(input, k, i);
    assert before[q] == LineAfter(input, k, i);
    assert Slot(input, k, i + 1) == q;
    if k < i {
      ModelsBeforeMono(input, k, i);
      assert headed[q] == before[q];
    } else if k > i {
      assert headed[q] == before[q];
    }
  }

  lemma EnumMapAt(input: seq<string>, i: nat, before: seq<string>, after: seq<string>, k: nat)
    requires i < |input| && DeclOf(input[i]).Some? && DeclOf(input[i]).value.kind == Enum
    requires Converting(input, i, before)
    requires i + ModelsBefore(input, i) < |before|
    requires |after| == |before|
    requires forall x :: 0 <= x < |before| ==>
      after[x] == RewriteReference(before[i + ModelsBefore(input, i) := HeaderText(input[i])][x], DeclOf(input[i]).value)
    requires k < i + 1 && IsModelHeader(input[k])
    ensures Pos(input, k) + 1 < |after| && after[Pos(input, k) + 1] == MapLine(DeclOf(input[k]).value.name)
  {
    var p := i + ModelsBefore(input, i);
    var headed := before[p := HeaderText(input[i])];
    var q := Pos(input, k) + 1;
    ModelsBeforeMono(input, k, i);
    assert before[q] == MapLine(DeclOf(input[k]).value.name);
    assert headed[q] == before[q];
    SplitTokens(input[k]);
    MapLineUntouched(DeclOf(input[k]).value.name, DeclOf(input[i]).value);
  }

  /** One outer iteration over any other line changes nothing. */
  lemma PlainStep(input: seq<string>, i: nat, lines: seq<string>)
    requires i < |input| && DeclOf(input[i]).None?
    requires Converting(input, i, lines)
    ensures Converting(input, i + 1, lines)
  {
    var next := i + 1;
    assert ModelsBefore(input, next) == ModelsBefore(input, i);
    forall k | 0 <= k < |input|
      ensures Slot(input, k, next) < |lines| && lines[Slot(input, k, next)] == LineAfter(input, k, next)
    {
      assert Slot(input, k, next) == Slot(input, k, i);
    }
  }

  /** A line that no declaration from `lo` on refers to keeps its text;
      a header line qualifies only once its own iteration is past. */
  lemma {:induction false} StableLine(input: seq<string>, k: nat, lo: nat, hi: nat)
    requires k < |input| && lo <= hi <= |input|
    requires k < lo || DeclOf(input[k]).None?
    requires forall m :: lo <= m < hi && DeclOf(input[m]).Some? ==>
      NotReferenced(LineAfter(input, k, lo), DeclOf(input[m]).value)
    ensures LineAfter(input, k, hi) == LineAfter(input, k, lo)
    decreases hi
  {
    if hi > lo {
      var j := hi - 1;
      StableLine(input, k, lo, j);
      StableStep(input, k, j);
      assert hi == j + 1;
    }
  }

  /** One iteration that does not touch line `k`. */
  lemma StableStep(input: seq<string>, k: nat, i: nat)
    requires k < |input| && i < |input|
    requires DeclOf(input[i]).Some? ==>
      k != i && NotReferenced(LineAfter(input, k, i), DeclOf(input[i]).value)
    ensures LineAfter(input, k, i + 1) == LineAfter(input, k, i)
  {
  }

  /** Lines with fewer than two tokens (blank lines, lone keywords, braces)
      come out unchanged. */
  lemma ShortLineKept(input: seq<string>, k: nat)
    requires k < |input| && |Split(input[k])| < 2
    ensures Converted(input, k) == input[k]
  {
    StableLine(input, k, 0, |input|);
  }

  /** A line that is not a header and whose second token refers to no
      declared type comes out unchanged. */
  lemma UnreferencedLineKept(input: seq<string>, k: nat)
    requires k < |input| && DeclOf(input[k]).None?
    requires forall m :: 0 <= m < |input| && DeclOf(input[m]).Some? ==>
      NotReferenced(input[k], DeclOf(input[m]).value)
    ensures Converted(input, k) == input[k]
  {
    StableLine(input, k, 0, |input|);
  }

  /** The header as written back splits into the original tokens with the
      name converted. */
  lemma HeaderTokens(line: string)
    requires DeclOf(line).Some?
    requires Count(DeclOf(line).value.name, '_') < |DeclOf(line).value.name|
    ensures Split(HeaderText(line)) == Split(line)[1 := Pascal(DeclOf(line).value.name)]
  {
    var t := Split(line);
    SplitTokens(line);
    PascalIsToken(t[1]);
    JoinedLineTokens(t[1 := Pascal(t[1])]);
  }

  /** A header keeps the text its own iteration gives it while every
      declaration visited from there on leaves that text alone. */
  lemma {:induction false} HeaderKept(input: seq<string>, k: nat, hi: nat)
    requires k < hi <= |input| && DeclOf(input[k]).Some?
    requires forall m :: k <= m < hi && DeclOf(input[m]).Some? ==>
      RewriteReference(HeaderText(input[k]), DeclOf(input[m]).value) == HeaderText(input[k])
    ensures LineAfter(input, k, hi) == HeaderText(input[k])
    decreases hi
  {
    if hi > k + 1 {
      HeaderKept(input, k, hi - 1);
    }
  }

  /** A header lands on its own line: the output holds its tokens re-joined
      with the name converted, provided each declaration from the header on,
      its own included, leaves that text alone (`ModelHeaderKept` and
      `EnumHeaderIndented` say when they do). */
  lemma HeaderLands(input: seq<string>, k: nat)
    requires k < |input| && DeclOf(input[k]).Some?
    requires Count(DeclOf(input[k]).value.name, '_') < |DeclOf(input[k]).value.name|
    requires forall m :: k <= m < |input| && DeclOf(input[m]).Some? ==>
      RewriteReference(HeaderText(input[k]), DeclOf(input[m]).value) == HeaderText(input[k])
    ensures Converted(input, k) == HeaderText(input[k])
    ensures Split(Converted(input, k)) == Split(input[k])[1 := Pascal(DeclOf(input[k]).value.name)]
  {
    HeaderKept(input, k, |input|);
    HeaderTokens(input[k]);
  }

  /** No model declaration rewrites a model header whose third token is not
      an `@relation` attribute, whatever names the two carry. */
  lemma ModelHeaderKept(line: string, d: Decl)
    requires IsModelHeader(line) && d.kind == Model
    requires Count(DeclOf(line).value.name, '_') < |DeclOf(line).value.name|
    requires !EndsWith(Pascal(DeclOf(line).value.name), "[]")
    requires |Split(line)| < 3 || !("@relation" <= Split(line)[2])
    ensures RewriteReference(HeaderText(line), d) == HeaderText(line)
  {
    HeaderTokens(line);
  }

  /** An enum header whose name the conversion leaves unchanged is rewritten
      by its own declaration as a field line: the same text, indented by two
      spaces. */
  lemma EnumHeaderIndented(line: string)
    requires DeclOf(line).Some? && DeclOf(line).value.kind == Enum
    requires Count(DeclOf(line).value.name, '_') < |DeclOf(line).value.name|
    requires Pascal(DeclOf(line).value.name) == DeclOf(line).value.name
    requires !EndsWith(DeclOf(line).value.name, "?")
    ensures RewriteReference(HeaderText(line), DeclOf(line).value) == "  " + HeaderText(line)
  {
    HeaderTokens(line);
    var t := Split(HeaderText(line));
    assert t[1 := Pascal(DeclOf(line).value.name)] == t;
  }

  /** A field line rewritten by one declaration keeps that rewrite when no
      other declaration refers to it before, nor to its new form after. */
  lemma ReferenceRewrittenOnce(input: seq<string>, k: nat, m: nat)
    requires k < |input| && DeclOf(input[k]).None?
    requires m < |input| && DeclOf(input[m]).Some?
    requires forall j :: 0 <= j < m && DeclOf(input[j]).Some? ==>
      NotReferenced(input[k], DeclOf(input[j]).value)
    requires forall j :: m < j < |input| && DeclOf(input[j]).Some? ==>
      NotReferenced(RewriteReference(input[k], DeclOf(input[m]).value), DeclOf(input[j]).value)
    ensures Converted(input, k) == RewriteReference(input[k], DeclOf(input[m]).value)
  {
    StableLine(input, k, 0, m);
    StableLine(input, k, m + 1, |input|);
  }

  /** For a model `X`, the list form `X[]` becomes `Pascal(X)[]`: the line is
      re-indented by two spaces and only its second token changes. */
  lemma ModelListReference(line: string, x: string)
    requires IsToken(x)
    requires |Split(line)| >= 2 && Split(line)[1] == x + "[]"
    ensures Split(RewriteReference(line, Decl(Model, x))) == Split(line)[1 := Pascal(x) + "[]"]
    ensures RewriteReference(line, Decl(Model, x)) == IndentedLine(Split(line)[1 := Pascal(x) + "[]"])
  {
    var t := Split(line);
    SplitTokens(line);
    PascalHasNoSpace(x);
    assert EndsWith(t[1], "[]");
    IndentedLineTokens(t[1 := Pascal(x) + "[]"]);
  }

  /** For a model `X`, the forms `X` and `X?` followed by an `@relation...`
      token become the bare `Pascal(X)`: the `?` is dropped, and the line is
      re-indented by two spaces. */
  lemma ModelRelationReference(line: string, x: string)
    requires IsToken(x) && Count(x, '_') < |x|
    requires |Split(line)| >= 3 && "@relation" <= Split(line)[2]
    requires Split(line)[1] == x + "?" || (Split(line)[1] == x && !EndsWith(x, "[]"))
    ensures Split(RewriteReference(line, Decl(Model, x))) == Split(line)[1 := Pascal(x)]
    ensures RewriteReference(line, Decl(Model, x)) == IndentedLine(Split(line)[1 := Pascal(x)])
  {
    var t := Split(line);
    SplitTokens(line);
    PascalIsToken(x);
    assert !EndsWith(t[1], "[]") by {
      if t[1] == x + "?" {
        assert t[1][|t[1]| - 1] == '?';
      }
    }
    IndentedLineTokens(t[1 := Pascal(x)]);
  }

  /** For a model `X`, the forms `X` and `X?` without an `@relation...` third
      token are left alone. */
  lemma ModelPlainReferenceKept(line: string, x: string)
    requires |Split(line)| >= 2
    requires Split(line)[1] == x + "?" || (Split(line)[1] == x && !EndsWith(x, "[]"))
    requires !(|Split(line)| >= 3 && "@relation" <= Split(line)[2])
    ensures RewriteReference(line, Decl(Model, x)) == line
  {
    var t := Split(line);
    assert !EndsWith(t[1], "[]") by {
      if t[1] == x + "?" {
        assert t[1][|t[1]| - 1] == '?';
      }
    }
  }

  /** For an enum `X`, `X?` becomes `Pascal(X)?` and `X` becomes `Pascal(X)`,
      whatever follows, on a line re-indented by two spaces. */
  lemma EnumReference(line: string, x: string)
    requires IsToken(x) && Count(x, '_') < |x|
    requires |Split(line)| >= 2
    requires Split(line)[1] == x + "?" || (Split(line)[1] == x && !EndsWith(x, "?"))
    ensures Split(RewriteReference(line, Decl(Enum, x))) ==
      Split(line)[1 := if Split(line)[1] == x then Pascal(x) else Pascal(x) + "?"]
    ensures RewriteReference(line, Decl(Enum, x)) ==
      IndentedLine(Split(line)[1 := if Split(line)[1] == x then Pascal(x) else Pascal(x) + "?"])
  {
    var t := Split(line);
    SplitTokens(line);
    PascalIsToken(x);
    if t[1] == x + "?" {
      assert EndsWith(t[1], "?");
      if t[1] == x {
        assert false;
      }
      IndentedLineTokens(t[1 := Pascal(x) + "?"]);
    } else {
      IndentedLineTokens(t[1 := Pascal(x)]);
    }
  }
}
