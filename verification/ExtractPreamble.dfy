/** The \newcommand pass of scripts/extract-preamble.js: brace counting, the definition loop, and the
    rewrite that removes LaTeX's optional first argument. */
module ExtractPreamble {
  import opened Text
  import opened Wrappers

  const COMMAND := "\\newcommand"

  // ---------- searching ----------

  predicate At(str: string, i: nat, s: string) {
    i + |s| <= |str| && str[i..i + |s|] == s
  }

  /** JavaScript's `indexOf` from a position. */
  function IndexOf(str: string, pattern: string, from: nat): (r: int)
    ensures r == -1 || (from <= r && At(str, r, pattern))
    ensures forall i | from <= i && (r == -1 || i < r) :: !At(str, i, pattern)
    decreases |str| - from
  {
    if from + |pattern| > |str| then -1
    else if At(str, from, pattern) then from
    else IndexOf(str, pattern, from + 1)
  }

  lemma IndexOfIs(str: string, pattern: string, from: nat, i: nat)
    requires from <= i && At(str, i, pattern) && forall k | from <= k < i :: !At(str, k, pattern)
    ensures IndexOf(str, pattern, from) == i
  {
    assert !(IndexOf(str, pattern, from) == -1);
  }

  lemma AtConcat(str: string, i: nat, s: string, t: string)
    ensures At(str, i, s + t) <==> At(str, i, s) && At(str, i + |s|, t)
  {
    if At(str, i, s + t) {
      assert str[i..i + |s|] == (s + t)[..|s|] == s;
      assert str[i + |s|..i + |s| + |t|] == (s + t)[|s|..] == t;
    }
    if At(str, i, s) && At(str, i + |s|, t) {
      assert str[i..i + |s + t|] == str[i..i + |s|] + str[i + |s|..i + |s| + |t|];
    }
  }

  /** The characters the loop itself skips. */
  function SkipBlanks(str: string, i: nat): (r: nat)
    ensures i <= r && (i <= |str| ==> r <= |str|)
    decreases |str| - i
  {
    if i < |str| && (str[i] == ' ' || str[i] == '\n') then SkipBlanks(str, i + 1) else i
  }

  // ---------- braces ----------

  function Weight(c: char): int {
    if c == '{' then 1 else if c == '}' then -1 else 0
  }

  /** Opening braces less closing ones. */
  function Level(s: string): int {
    if s == "" then 0 else Level(s[..|s| - 1]) + Weight(s[|s| - 1])
  }

  ghost predicate Balanced(s: string) {
    Level(s) == 0 && forall k | 0 <= k <= |s| :: Level(s[..k]) >= 0
  }

  lemma LevelStep(s: string, k: nat)
    requires k < |s|
    ensures Level(s[..k + 1]) == Level(s[..k]) + Weight(s[k])
  {
    assert s[..k + 1][..k] == s[..k];
  }

  /** `extractBraceContent` from position `i` with the counters it carries. */
  function BraceScan(str: string, i: nat, depth: int, start: nat): Option<(string, nat)>
    requires depth > 0 ==> start <= i
    decreases |str| - i
  {
    if i >= |str| then None
    else if str[i] == '{' then BraceScan(str, i + 1, depth + 1, if depth == 0 then i + 1 else start)
    else if str[i] == '}' then
      if depth == 1 then Some((str[start..i], i)) else BraceScan(str, i + 1, depth - 1, start)
    else BraceScan(str, i + 1, depth, start)
  }

  function BraceContent(str: string, from: nat): Option<(string, nat)> {
    BraceScan(str, from, 0, 0)
  }

  method ExtractBraceContent(str: string, startIdx: nat) returns (r: Option<(string, nat)>)
    ensures r == BraceContent(str, startIdx)
  {
    var depth, start, i := 0, 0, startIdx;
    while i < |str|
      invariant depth > 0 ==> start <= i
      invariant BraceScan(str, i, depth, start) == BraceContent(str, startIdx)
    {
      if str[i] == '{' {
        if depth == 0 {
          start := i + 1;
        }
        depth := depth + 1;
      } else if str[i] == '}' {
        depth := depth - 1;
        if depth == 0 {
          return Some((str[start..i], i));
        }
      }
      i := i + 1;
    }
    return None;
  }

  /** Inside a group, the scan runs to the brace that closes it. */
  lemma {:induction false} ScanInside(str: string, start: nat, body: string, k: nat)
    requires k <= |body| && Balanced(body) && At(str, start, body + "}")
    ensures BraceScan(str, start + k, 1 + Level(body[..k]), start) == Some((body, start + |body|))
    decreases |body| - k
  {
    AtConcat(str, start, body, "}");
    if k == |body| {
      assert body[..k] == body;
      assert str[start + k] == (str[start + |body|..start + |body| + 1])[0] == '}';
      assert str[start..start + k] == body;
    } else {
      assert str[start + k] == str[start..start + |body|][k] == body[k];
      LevelStep(body, k);
      assert Level(body[..k]) >= 0 && Level(body[..k + 1]) >= 0;
      ScanInside(str, start, body, k + 1);
    }
  }

  /** A group that stands at the position is read whole, whatever is nested in it. */
  lemma GroupIsRead(str: string, p: nat, body: string)
    requires Balanced(body) && At(str, p, "{" + body + "}")
    ensures BraceContent(str, p) == Some((body, p + 1 + |body|))
  {
    assert "{" + body + "}" == "{" + (body + "}");
    AtConcat(str, p, "{", body + "}");
    assert str[p] == str[p..p + 1][0] == '{';
    ScanInside(str, p + 1, body, 0);
    assert body[..0] == "";
  }

  /** The scan is inside a group that opened just before `start`. */
  ghost predicate InGroup(str: string, start: nat, i: nat, depth: int) {
    && 1 <= start <= i <= |str| && str[start - 1] == '{'
    && depth == 1 + Level(str[start..i])
    && forall k | start <= k <= i :: Level(str[start..k]) >= 0
  }

  lemma InGroupStep(str: string, start: nat, i: nat, depth: int)
    requires InGroup(str, start, i, depth) && i < |str| && depth + Weight(str[i]) > 0
    ensures InGroup(str, start, i + 1, depth + Weight(str[i]))
  {
    assert str[start..i + 1][..i - start] == str[start..i];
  }

  /** Conversely, whatever is read is a balanced group of the text. */
  lemma {:induction false} ReadIsAGroup(str: string, i: nat, depth: int, start: nat)
    requires depth > 0 ==> InGroup(str, start, i, depth)
    requires BraceScan(str, i, depth, start).Some?
    ensures var (content, end) := BraceScan(str, i, depth, start).value;
            && Balanced(content) && |content| + 1 <= end < |str| && end >= i
            && At(str, end - |content| - 1, "{" + content + "}")
    decreases |str| - i
  {
    hide InGroup, Balanced, At, Level;
    if depth == 1 && str[i] == '}' {
      ClosedGroup(str, start, i);
    } else if depth == 0 && str[i] == '{' {
      OpenedGroup(str, i);
      ReadIsAGroup(str, i + 1, 1, i + 1);
    } else {
      if depth > 0 {
        InGroupStep(str, start, i, depth);
      }
      ReadIsAGroup(str, i + 1, depth + Weight(str[i]), start);
    }
  }

  lemma OpenedGroup(str: string, i: nat)
    requires i < |str| && str[i] == '{'
    ensures InGroup(str, i + 1, i + 1, 1)
  {
    assert str[i + 1..i + 1] == "";
  }

  lemma ClosedGroup(str: string, start: nat, i: nat)
    requires InGroup(str, start, i, 1) && i < |str| && str[i] == '}'
    ensures 1 <= start <= i && Balanced(str[start..i]) && At(str, start - 1, "{" + str[start..i] + "}")
  {
    var content := str[start..i];
    forall k | 0 <= k <= |content| ensures Level(content[..k]) >= 0 {
      assert content[..k] == str[start..start + k];
    }
    assert str[start - 1..i + 1] == "{" + content + "}";
  }

  /** `matchBracket` from position `i`: the `]` at brace depth 0. */
  function BracketScan(str: string, i: nat, depth: int): (r: int)
    ensures r == -1 || i <= r < |str|
    decreases |str| - i
  {
    if i >= |str| then -1
    else if str[i] == ']' && depth == 0 then i
    else BracketScan(str, i + 1, depth + Weight(str[i]))
  }

  method MatchBracket(str: string, openIdx: nat) returns (r: int)
    ensures r == BracketScan(str, openIdx + 1, 0)
  {
    var depth, i := 0, openIdx + 1;
    while i < |str|
      invariant BracketScan(str, i, depth) == BracketScan(str, openIdx + 1, 0)
    {
      var c := str[i];
      if c == '{' {
        depth := depth + 1;
      } else if c == '}' {
        depth := depth - 1;
      } else if c == ']' && depth == 0 {
        return i;
      }
      i := i + 1;
    }
    return -1;
  }

  /** A text that can stand between `[` and `]` of a default. */
  ghost predicate BracketSafe(d: string) {
    Level(d) == 0 && forall k | 0 <= k < |d| :: d[k] == ']' ==> Level(d[..k]) != 0
  }

  lemma {:induction false} DefaultIsRead(str: string, p: nat, d: string, k: nat)
    requires k <= |d| && BracketSafe(d) && At(str, p, d + "]")
    ensures BracketScan(str, p + k, Level(d[..k])) == p + |d|
    decreases |d| - k
  {
    AtConcat(str, p, d, "]");
    if k == |d| {
      assert d[..k] == d;
      assert str[p + k] == str[p + |d|..p + |d| + 1][0] == ']';
    } else {
      assert str[p + k] == str[p..p + |d|][k] == d[k];
      LevelStep(d, k);
      DefaultIsRead(str, p, d, k + 1);
    }
  }

  // ---------- the optional argument ----------

  predicate IsDigit(c: char) {
    '0' <= c <= '9'
  }

  function DigitValue(c: char): nat
    requires IsDigit(c)
  {
    (c - '0') as nat
  }

  /** `#` and a digit at the front: what the regular expression matches. */
  predicate Placeholder(s: string) {
    |s| >= 2 && s[0] == '#' && IsDigit(s[1])
  }

  /** A decimal digit, or -1: `#${k - 1}` for k from 0 to 9. */
  function Shifted(k: nat): string
    requires k <= 9
  {
    if k == 0 then "#-1" else ['#', '0' + (k - 1) as char]
  }

  /** `body.replace(/#(\d)/g, ...)`. */
  function Substitute(body: string, def: string): string {
    if body == "" then ""
    else if Placeholder(body) then
      (if DigitValue(body[1]) == 1 then def else Shifted(DigitValue(body[1]))) + Substitute(body[2..], def)
    else [body[0]] + Substitute(body[1..], def)
  }

  /** `#1` gives the default, any other `#k` becomes `#k-1`, and the rest stays. */
  lemma SubstituteStep(c: char, rest: string, def: string)
    ensures Substitute("", def) == ""
    ensures var shifted := if c == '1' then def else if c == '0' then "#-1" else if '2' <= c <= '9' then ['#', (c as int - 1) as char] else ['#', c];
      '0' <= c <= '9' ==> Substitute(['#', c] + rest, def) == shifted + Substitute(rest, def)
    ensures c != '#' ==> Substitute([c] + rest, def) == [c] + Substitute(rest, def)
    ensures rest == "" || !('0' <= rest[0] <= '9') ==> Substitute("#" + rest, def) == "#" + Substitute(rest, def)
  {
    assert (['#', c] + rest)[2..] == rest && ([c] + rest)[1..] == rest && ("#" + rest)[1..] == rest;
    assert (['#', c] + rest)[1] == c;
    assert rest != "" ==> ("#" + rest)[1] == rest[0];
  }

  ghost predicate AllSpace(s: string) {
    forall c | c in s :: IsSpace(c)
  }

  function TrimEnd(s: string): string {
    if s != "" && IsSpace(s[|s| - 1]) then TrimEnd(s[..|s| - 1]) else s
  }

  predicate Contains(s: string, pattern: string) {
    IndexOf(s, pattern, 0) != -1
  }

  function CollapseOptionalArg(body: string, def: string): string {
    var out := TrimEnd(Substitute(body, def));
    if Contains(out, "\\operatorname*") then out else "{" + out + "}"
  }

  /** What a macro body means: each `#k` stands for argument `k`. */
  function Expand(body: string, args: seq<string>): string {
    if body == "" then ""
    else if StartsWithArg(body, |args|) then args[(body[1] - '1') as int] + Expand(body[2..], args)
    else [body[0]] + Expand(body[1..], args)
  }

  /** Every `#` of the body names one of its `n` arguments. */
  ghost predicate UsesOnly(body: string, n: nat) {
    forall i | 0 <= i < |body| && body[i] == '#' ::
      i + 1 < |body| && '1' <= body[i + 1] <= '9' && (body[i + 1] - '0') as int <= n
  }

  /** The first step of an expansion is an argument. */
  predicate StartsWithArg(body: string, n: nat) {
    |body| >= 2 && body[0] == '#' && '1' <= body[1] <= '9' && (body[1] - '0') as int <= n
  }

  lemma ExpandArg(body: string, args: seq<string>)
    requires StartsWithArg(body, |args|)
    ensures Expand(body, args) == args[DigitValue(body[1]) - 1] + Expand(body[2..], args)
  {
    assert (body[1] - '1') as int == DigitValue(body[1]) - 1;
  }

  lemma ExpandChar(body: string, args: seq<string>)
    requires body != "" && !StartsWithArg(body, |args|)
    ensures Expand(body, args) == [body[0]] + Expand(body[1..], args)
  {
  }

  lemma {:induction false} ExpandPlain(plain: string, rest: string, args: seq<string>)
    requires '#' !in plain
    ensures Expand(plain + rest, args) == plain + Expand(rest, args)
  {
    if plain == "" {
      assert plain + rest == rest;
    } else {
      assert (plain + rest)[1..] == plain[1..] + rest && (plain + rest)[0] == plain[0];
      ExpandChar(plain + rest, args);
      ExpandPlain(plain[1..], rest, args);
      hide Expand;
      Assoc([plain[0]], plain[1..], Expand(rest, args));
      assert [plain[0]] + plain[1..] == plain;
    }
  }

  lemma UsesOnlyTail(body: string, n: nat, k: nat)
    requires UsesOnly(body, n) && k <= |body|
    ensures UsesOnly(body[k..], n)
  {
    var tail := body[k..];
    forall i | 0 <= i < |tail| && tail[i] == '#'
      ensures i + 1 < |tail| && '1' <= tail[i + 1] <= '9' && (tail[i + 1] - '0') as int <= n
    {
      assert body[k + i] == '#';
    }
  }

  /** Expanding the shifted template with the remaining arguments is expanding the original with the
      default in first place. */
  lemma {:induction false} SubstituteKeepsMeaning(body: string, def: string, args: seq<string>)
    requires |args| >= 1 && args[0] == def && '#' !in def && UsesOnly(body, |args|)
    ensures Expand(Substitute(body, def), args[1..]) == Expand(body, args)
  {
    if body != "" {
      if Placeholder(body) {
        assert body[0] == '#';
        UsesOnlyTail(body, |args|, 2);
        SubstituteKeepsMeaning(body[2..], def, args);
        ExpandArg(body, args);
        hide Expand, UsesOnly;
        var k, rest := DigitValue(body[1]), Substitute(body[2..], def);
        if k == 1 {
          ExpandPlain(def, rest, args[1..]);
        } else {
          ShiftedMeans(k, rest, args);
        }
      } else {
        assert body[0] != '#';
        UsesOnlyTail(body, |args|, 1);
        SubstituteKeepsMeaning(body[1..], def, args);
        ExpandChar(body, args);
        hide Expand, UsesOnly;
        ExpandPlain([body[0]], Substitute(body[1..], def), args[1..]);
      }
    }
  }

  lemma ShiftedMeans(k: nat, rest: string, args: seq<string>)
    requires 2 <= k <= 9 && k <= |args|
    ensures Expand(Shifted(k) + rest, args[1..]) == args[k - 1] + Expand(rest, args[1..])
  {
    var s := Shifted(k) + rest;
    assert s[0] == '#' && s[1] == '0' + (k - 1) as char && IsDigit(s[1]) && DigitValue(s[1]) == k - 1;
    assert s[2..] == rest;
  }

  lemma {:induction false} TrimEndSplits(s: string) returns (tail: string)
    ensures s == TrimEnd(s) + tail && AllSpace(tail)
  {
    if s != "" && IsSpace(s[|s| - 1]) {
      var t := TrimEndSplits(s[..|s| - 1]);
      tail := t + [s[|s| - 1]];
      assert s == s[..|s| - 1] + [s[|s| - 1]];
    } else {
      tail := "";
    }
  }

  /** What follows a text that cannot complete a placeholder is expanded on its own. */
  lemma {:induction false} ExpandThen(s: string, tail: string, args: seq<string>)
    requires '#' !in tail && (tail == "" || !IsDigit(tail[0]))
    ensures Expand(s + tail, args) == Expand(s, args) + tail
  {
    hide *;
    var all := s + tail;
    if s == "" {
      ExpandNothing(args);
      ExpandPlain(tail, "", args);
      assert tail + "" == tail && all == tail;
    } else {
      SameStart(s, tail, |args|);
      if StartsWithArg(s, |args|) {
        StartsLong(s, |args|);
        ExpandArg(s, args);
        ExpandArg(all, args);
        ExpandThen(s[2..], tail, args);
        assert all[2..] == s[2..] + tail;
        Assoc(args[DigitValue(s[1]) - 1], Expand(s[2..], args), tail);
      } else {
        ExpandChar(s, args);
        ExpandChar(all, args);
        ExpandThen(s[1..], tail, args);
        assert all[1..] == s[1..] + tail && all[0] == s[0];
        Assoc([s[0]], Expand(s[1..], args), tail);
      }
    }
  }

  lemma ExpandNothing(args: seq<string>)
    ensures Expand("", args) == ""
  {
  }

  lemma StartsLong(s: string, n: nat)
    requires StartsWithArg(s, n)
    ensures |s| >= 2 && IsDigit(s[1]) && 1 <= DigitValue(s[1]) <= n
  {
  }

  lemma SameStart(s: string, tail: string, n: nat)
    requires s != "" && (tail == "" || !IsDigit(tail[0]))
    ensures StartsWithArg(s + tail, n) <==> StartsWithArg(s, n)
    ensures StartsWithArg(s, n) ==> (s + tail)[1] == s[1]
  {
    assert |s| == 1 && tail != "" ==> (s + tail)[1] == tail[0];
    assert |s| >= 2 ==> (s + tail)[1] == s[1];
  }

  lemma ExpandBraced(s: string, args: seq<string>)
    ensures Expand("{" + s + "}", args) == "{" + Expand(s, args) + "}"
  {
    hide Expand;
    Assoc("{", s, "}");
    ExpandPlain("{", s + "}", args);
    ExpandThen(s, "}", args);
    Assoc("{", Expand(s, args), "}");
  }

  lemma SpaceIsPlain(tail: string)
    requires AllSpace(tail)
    ensures '#' !in tail && (tail == "" || !IsDigit(tail[0]))
  {
    assert tail == "" || tail[0] in tail;
  }

  /** The whole rewrite: a call with the remaining arguments expands to what LaTeX gives for the call
      that leaves the first one out, but for trailing blanks and one pair of braces. */
  lemma CollapseKeepsMeaning(body: string, def: string, args: seq<string>) returns (core: string, tail: string)
    requires |args| >= 1 && args[0] == def && '#' !in def && UsesOnly(body, |args|)
    ensures Expand(body, args) == core + tail && AllSpace(tail)
    ensures Contains(TrimEnd(Substitute(body, def)), "\\operatorname*") ==> Expand(CollapseOptionalArg(body, def), args[1..]) == core
    ensures !Contains(TrimEnd(Substitute(body, def)), "\\operatorname*") ==> Expand(CollapseOptionalArg(body, def), args[1..]) == "{" + core + "}"
  {
    var s := Substitute(body, def);
    SubstituteKeepsMeaning(body, def, args);
    hide Expand, UsesOnly, Substitute, TrimEnd, Contains;
    tail := TrimEndSplits(s);
    core := Expand(TrimEnd(s), args[1..]);
    SpaceIsPlain(tail);
    hide AllSpace, IsDigit;
    ExpandThen(TrimEnd(s), tail, args[1..]);
    ExpandBraced(TrimEnd(s), args[1..]);
  }

  /** What the rewrite puts out: the substituted body without the blanks at its end, in braces unless it holds a
      starred operator. */
  lemma CollapseMeans(body: string, def: string, i: nat) returns (out: string, tail: string, found: nat)
    ensures Substitute(body, def) == out + tail && AllSpace(tail) && (out != "" ==> !IsSpace(out[|out| - 1]))
    ensures CollapseOptionalArg(body, def) == "{" + out + "}" || CollapseOptionalArg(body, def) == out
    ensures i + 14 <= |out| && out[i..i + 14] == "\\operatorname*" ==> CollapseOptionalArg(body, def) == out
    ensures CollapseOptionalArg(body, def) == out ==> found + 14 <= |out| && out[found..found + 14] == "\\operatorname*"
  {
    out := TrimEnd(Substitute(body, def));
    tail := TrimEndSplits(Substitute(body, def));
    TrimmedEnds(Substitute(body, def));
    hide Substitute, TrimEnd, AllSpace;
    assert |"{" + out + "}"| == |out| + 2;
    found := if Contains(out, "\\operatorname*") then IndexOf(out, "\\operatorname*", 0) else 0;
    if i + 14 <= |out| && out[i..i + 14] == "\\operatorname*" {
      assert At(out, i, "\\operatorname*");
    }
  }

  lemma {:induction false} TrimmedEnds(s: string)
    ensures TrimEnd(s) != "" ==> !IsSpace(TrimEnd(s)[|TrimEnd(s)| - 1])
  {
    if s != "" && IsSpace(s[|s| - 1]) {
      TrimmedEnds(s[..|s| - 1]);
    }
  }

  // ---------- one turn of the definition loop ----------

  type Macros = map<string, string>

  /** Where the brackets of a definition end, and the default if there is one.  With no `]` at all
      `indexOf` gives -1 and the scan for the body starts again at the front of the text. */
  function ReadBrackets(str: string, at: nat): (nat, Option<string>) {
    if !(at < |str| && str[at] == '[') then (at, None)
    else
      var after: nat := IndexOfChar(str, ']', at) + 1;
      var q := SkipBlanks(str, after);
      if q < |str| && str[q] == '[' && BracketScan(str, q + 1, 0) != -1 then
        var defEnd := BracketScan(str, q + 1, 0);
        (defEnd + 1, Some(str[q + 1..defEnd]))
      else (after, None)
  }

  function Value(body: string, optional: Option<string>): string {
    match optional
    case None => body
    case Some(def) => CollapseOptionalArg(body, def)
  }

  /** From the brace that opens a name to the one that closes it, if a name stands close enough. */
  function NameSpan(str: string, at: nat): (r: Option<(nat, nat)>)
    ensures r.Some? ==> at <= r.value.0 < r.value.1 < |str|
  {
    var nameStart := IndexOf(str, "{\\", at);
    if nameStart == -1 || nameStart > at + 20 then None
    else
      var nameEnd := IndexOfChar(str, '}', nameStart);
      if nameEnd == -1 then None
      else
        assert str[nameStart] == str[nameStart..nameStart + 2][0] == '{';
        Some((nameStart, nameEnd))
  }

  /** What the turn that starts at `idx` does: where the next one starts, and what it defines.
      `None` is the end of the loop. */
  function Turn(str: string, idx: nat): Option<(nat, Option<(string, string)>)> {
    var at := IndexOf(str, COMMAND, idx);
    if at == -1 then None
    else
      match NameSpan(str, at)
      case None => Some((at + 1, None))
      case Some((nameStart, nameEnd)) =>
        var (bodyAt, optional) := ReadBrackets(str, SkipBlanks(str, nameEnd + 1));
        match BraceContent(str, bodyAt)
        case None => Some((at + 1, None))
        case Some((body, end)) => Some((end, Some((str[nameStart + 1..nameEnd], Value(body, optional)))))
  }

  function Define(macros: Macros, def: Option<(string, string)>): Macros {
    match def
    case None => macros
    case Some((name, value)) => macros[name := value]
  }

  /** The loop comes to its end within so many turns. */
  ghost predicate Halts(str: string, idx: nat, turns: nat)
    decreases turns
  {
    Turn(str, idx).Some? ==> turns > 0 && Halts(str, Turn(str, idx).value.0, turns - 1)
  }

  ghost function Run(str: string, idx: nat, macros: Macros, turns: nat): Macros
    requires Halts(str, idx, turns)
    decreases turns
  {
    match Turn(str, idx)
    case None => macros
    case Some((next, def)) => Run(str, next, Define(macros, def), turns - 1)
  }

  /** The \newcommand pass of `extractMacros`, on a text on which it ends. */
  method ExtractNewcommands(preamble: string, ghost turns: nat) returns (macros: Macros)
    requires Halts(preamble, 0, turns)
    ensures macros == Run(preamble, 0, map[], turns)
  {
    hide BraceContent, BracketScan, SkipBlanks, ReadBrackets, Value, IndexOf, IndexOfChar, Halts, Run;
    macros := map[];
    var idx: nat := 0;
    ghost var left: nat := turns;
    while true
      invariant Halts(preamble, idx, left)
      invariant Run(preamble, idx, macros, left) == Run(preamble, 0, map[], turns)
      decreases left
    {
      ghost var from := idx;
      var at := IndexOf(preamble, COMMAND, idx);
      if at == -1 {
        RunEnds(preamble, idx, macros, left);
        return;
      }
      idx := at;
      var nameStart := IndexOf(preamble, "{\\", idx);
      if nameStart == -1 || nameStart > idx + 20 {
        RunStep(preamble, from, macros, left, idx + 1, None);
        idx, left := idx + 1, left - 1;
        continue;
      }
      var nameEnd := IndexOfChar(preamble, '}', nameStart);
      if nameEnd == -1 {
        RunStep(preamble, from, macros, left, idx + 1, None);
        idx, left := idx + 1, left - 1;
        continue;
      }
      assert preamble[nameStart] == preamble[nameStart..nameStart + 2][0] == '{';
      var name := preamble[nameStart + 1..nameEnd];
      var searchIdx, optionalDefault := ReadOptional(preamble, SkipBlanks(preamble, nameEnd + 1));
      var def := ExtractBraceContent(preamble, searchIdx);
      if def.Some? {
        var value := Value(def.value.0, optionalDefault);
        RunStep(preamble, from, macros, left, def.value.1, Some((name, value)));
        macros := macros[name := value];
        idx, left := def.value.1, left - 1;
      } else {
        RunStep(preamble, from, macros, left, idx + 1, None);
        idx, left := idx + 1, left - 1;
      }
    }
  }

  lemma RunStep(str: string, idx: nat, macros: Macros, turns: nat, next: nat, def: Option<(string, string)>)
    requires Halts(str, idx, turns) && Turn(str, idx) == Some((next, def))
    ensures turns > 0 && Halts(str, next, turns - 1)
    ensures Run(str, idx, macros, turns) == Run(str, next, Define(macros, def), turns - 1)
  {
    hide Turn;
  }

  lemma RunEnds(str: string, idx: nat, macros: Macros, turns: nat)
    requires Halts(str, idx, turns) && Turn(str, idx).None?
    ensures Run(str, idx, macros, turns) == macros
  {
    hide Turn;
  }

  method ReadOptional(preamble: string, at: nat) returns (searchIdx: nat, optionalDefault: Option<string>)
    ensures (searchIdx, optionalDefault) == ReadBrackets(preamble, at)
  {
    searchIdx, optionalDefault := at, None;
    if at < |preamble| && preamble[at] == '[' {
      searchIdx := IndexOfChar(preamble, ']', at) + 1;
      var q := SkipBlanks(preamble, searchIdx);
      if q < |preamble| && preamble[q] == '[' {
        var defEnd := MatchBracket(preamble, q);
        if defEnd != -1 {
          searchIdx, optionalDefault := defEnd + 1, Some(preamble[q + 1..defEnd]);
        }
      }
    }
  }

  /** A command whose name does not open within 20 characters, or never closes, defines
      nothing, and the search goes on behind its first character; without a command the loop is over. */
  lemma TurnSkips(str: string, idx: nat, at: nat)
    requires idx <= at <= |str| && forall k | idx <= k < at :: !At(str, k, COMMAND)
    ensures at == |str| ==> Turn(str, idx).None?
    ensures At(str, at, COMMAND) && (forall k | at <= k <= at + 20 :: !At(str, k, "{\\")) ==> Turn(str, idx) == Some((at + 1, None))
    ensures At(str, at, COMMAND) && (forall k | at < k < |str| :: str[k] != '}') ==> Turn(str, idx) == Some((at + 1, None))
  {
    hide ReadBrackets, SkipBlanks, Value;
    if At(str, at, COMMAND) {
      IndexOfIs(str, COMMAND, idx, at);
      if forall k | at < k < |str| :: str[k] != '}' {
        assert str[at] == str[at..at + |COMMAND|][0] == '\\';
        hide IndexOf, BraceContent, At;
      }
    }
  }

  // ---------- does the loop end? ----------

  /** The one way a turn can go back: after the name comes a bracket that never closes, which sends
      the scan for the body to the front of the text, and a group there ends before the command. */
  ghost predicate Stalls(str: string, at: nat) {
    NameSpan(str, at).Some? &&
    var open := SkipBlanks(str, NameSpan(str, at).value.1 + 1);
    && open < |str| && str[open] == '[' && IndexOfChar(str, ']', open) == -1
    && var found := BraceContent(str, ReadBrackets(str, open).0); found.Some? && found.value.1 <= at
  }

  lemma BodyIsAhead(str: string, open: nat)
    ensures ReadBrackets(str, open).0 >= open || (open < |str| && str[open] == '[' && IndexOfChar(str, ']', open) == -1)
  {
    hide BracketScan, SkipBlanks;
  }

  /** Where a turn for the command at `at` leaves the loop. */
  ghost function GoesTo(str: string, at: nat): nat {
    match NameSpan(str, at)
    case None => at + 1
    case Some(span) =>
      match BraceContent(str, ReadBrackets(str, SkipBlanks(str, span.1 + 1)).0)
      case None => at + 1
      case Some(found) => found.1
  }

  lemma TurnGoesTo(str: string, idx: nat)
    requires Turn(str, idx).Some?
    ensures IndexOf(str, COMMAND, idx) != -1 && Turn(str, idx).value.0 == GoesTo(str, IndexOf(str, COMMAND, idx))
  {
    hide BraceContent, IndexOf, NameSpan, SkipBlanks, ReadBrackets, Value;
  }

  lemma StallsIff(str: string, at: nat)
    requires at < |str|
    ensures GoesTo(str, at) > at <==> !Stalls(str, at)
    ensures GoesTo(str, at) <= |str|
  {
    hide BraceContent, NameSpan, IndexOfChar, SkipBlanks, ReadBrackets;
    if NameSpan(str, at).Some? {
      var open := SkipBlanks(str, NameSpan(str, at).value.1 + 1);
      BodyIsAhead(str, open);
      BraceContentEnds(str, ReadBrackets(str, open).0);
    }
  }

  /** A turn moves past its command exactly when it does not stall. */
  lemma TurnAdvancesIff(str: string, idx: nat)
    requires Turn(str, idx).Some?
    ensures var at := IndexOf(str, COMMAND, idx);
            at != -1 && idx <= at < |str| && (Turn(str, idx).value.0 > at <==> !Stalls(str, at))
    ensures Turn(str, idx).value.0 <= |str|
  {
    var at := IndexOf(str, COMMAND, idx);
    assert at != -1 && at < |str|;
    hide IndexOf, Stalls, Turn, GoesTo;
    TurnGoesTo(str, idx);
    StallsIff(str, at);
  }

  lemma BraceContentEnds(str: string, from: nat)
    ensures BraceContent(str, from).Some? ==> from <= BraceContent(str, from).value.1 < |str|
  {
    if BraceContent(str, from).Some? {
      ReadIsAGroup(str, from, 0, 0);
    }
  }

  ghost predicate BracketsClosed(str: string) {
    forall i | 0 <= i < |str| && str[i] == '[' :: exists j :: i < j < |str| && str[j] == ']'
  }

  /** If every bracket is closed somewhere later, the loop ends after at most one turn a character. */
  lemma {:induction false} ClosedBracketsHalt(str: string, idx: nat)
    requires BracketsClosed(str)
    requires idx <= |str|
    ensures Halts(str, idx, |str| - idx)
    decreases |str| - idx
  {
    if Turn(str, idx).Some? {
      TurnAdvancesIff(str, idx);
      NoStall(str, IndexOf(str, COMMAND, idx));
      hide Turn, Stalls, IndexOf, BracketsClosed;
      var next := Turn(str, idx).value.0;
      ClosedBracketsHalt(str, next);
      HaltsLater(str, next, |str| - next, |str| - idx - 1);
    }
  }

  lemma NoStall(str: string, at: nat)
    requires BracketsClosed(str)
    ensures !Stalls(str, at)
  {
    hide BraceContent, ReadBrackets;
    forall open | 0 <= open < |str| && str[open] == '[' ensures IndexOfChar(str, ']', open) != -1 {
      var j :| open < j < |str| && str[j] == ']';
    }
  }

  lemma {:induction false} HaltsLater(str: string, idx: nat, turns: nat, more: nat)
    requires Halts(str, idx, turns) && turns <= more
    ensures Halts(str, idx, more)
    decreases turns
  {
    if Turn(str, idx).Some? {
      HaltsLater(str, Turn(str, idx).value.0, turns - 1, more - 1);
    }
  }

  /** Where the scan for a body starts when a bracket never closes: the same place every time. */
  function Front(str: string): nat {
    var q := SkipBlanks(str, 0);
    if q < |str| && str[q] == '[' && BracketScan(str, q + 1, 0) != -1 then BracketScan(str, q + 1, 0) + 1 else 0
  }

  /** Where a stalled turn goes back to. */
  function ReturnPoint(str: string): nat {
    match BraceContent(str, Front(str)) case None => 0 case Some((_, end)) => end
  }

  lemma UnclosedGoesToFront(str: string, at: nat)
    requires at < |str| && str[at] == '[' && IndexOfChar(str, ']', at) == -1
    ensures ReadBrackets(str, at).0 == Front(str)
  {
    hide IndexOfChar, SkipBlanks, BracketScan;
  }

  lemma StallGoesBack(str: string, idx: nat)
    requires Turn(str, idx).Some? && Stalls(str, IndexOf(str, COMMAND, idx))
    ensures Turn(str, idx).value.0 == ReturnPoint(str)
  {
    var at := IndexOf(str, COMMAND, idx);
    hide BraceContent, IndexOf, NameSpan, IndexOfChar, SkipBlanks, BracketScan, Value, ReadBrackets, Front;
    UnclosedGoesToFront(str, SkipBlanks(str, NameSpan(str, at).value.1 + 1));
  }

  /** Going forward from here, the loop comes to a command at which it stalls. */
  predicate ComesToStall(str: string, idx: nat)
    decreases |str| - idx
  {
    var turn := Turn(str, idx);
    turn.Some? && (
      TurnAdvancesIff(str, idx);
      turn.value.0 <= IndexOf(str, COMMAND, idx) || ComesToStall(str, turn.value.0))
  }

  lemma {:induction false} RunsOut(str: string, idx: nat)
    requires idx <= |str| && !ComesToStall(str, idx)
    ensures Halts(str, idx, |str| - idx)
    decreases |str| - idx
  {
    if Turn(str, idx).Some? {
      TurnAdvancesIff(str, idx);
      hide Turn, Stalls, IndexOf;
      var next := Turn(str, idx).value.0;
      RunsOut(str, next);
      HaltsLater(str, next, |str| - next, |str| - idx - 1);
    }
  }

  /** A run that stalls and ends after all ends from the place it went back to, in fewer turns. */
  lemma {:induction false} EndsFromReturn(str: string, idx: nat, turns: nat) returns (left: nat)
    requires ComesToStall(str, idx) && Halts(str, idx, turns)
    ensures left < turns && Halts(str, ReturnPoint(str), left)
    decreases turns
  {
    TurnAdvancesIff(str, idx);
    if Turn(str, idx).value.0 <= IndexOf(str, COMMAND, idx) {
      StallGoesBack(str, idx);
      left := turns - 1;
    } else {
      hide Turn, Stalls, IndexOf, ReturnPoint;
      left := EndsFromReturn(str, Turn(str, idx).value.0, turns - 1);
    }
  }

  lemma {:induction false} EndsByReturn(str: string, idx: nat, turns: nat) returns (more: nat)
    requires ComesToStall(str, idx) && Halts(str, ReturnPoint(str), turns)
    ensures Halts(str, idx, more)
    decreases |str| - idx
  {
    TurnAdvancesIff(str, idx);
    if Turn(str, idx).value.0 <= IndexOf(str, COMMAND, idx) {
      StallGoesBack(str, idx);
      more := turns + 1;
    } else {
      hide Turn, Stalls, IndexOf, ReturnPoint;
      more := EndsByReturn(str, Turn(str, idx).value.0, turns);
      more := more + 1;
    }
  }

  lemma {:induction false} StallsForEver(str: string, idx: nat, turns: nat)
    requires ComesToStall(str, idx) && ComesToStall(str, ReturnPoint(str))
    ensures !Halts(str, idx, turns)
    decreases turns
  {
    if Halts(str, idx, turns) {
      var left := EndsFromReturn(str, idx, turns);
      StallsForEver(str, ReturnPoint(str), left);
    }
  }

  /** The loop ends exactly when it does not stall both on its way from the front and on its way from the place
      a stall goes back to. */
  lemma HaltsIff(str: string)
    ensures (exists turns :: Halts(str, 0, turns)) <==> !(ComesToStall(str, 0) && ComesToStall(str, ReturnPoint(str)))
  {
    if !ComesToStall(str, 0) {
      RunsOut(str, 0);
    } else if !ComesToStall(str, ReturnPoint(str)) {
      ReturnsInside(str);
      RunsOut(str, ReturnPoint(str));
      var more := EndsByReturn(str, 0, |str| - ReturnPoint(str));
    } else {
      forall turns: nat ensures !Halts(str, 0, turns) {
        StallsForEver(str, 0, turns);
      }
    }
  }

  lemma ReturnsInside(str: string)
    ensures ReturnPoint(str) <= |str|
  {
    BraceContentEnds(str, Front(str));
  }

  /** A turn, put together from what its searches find. */
  lemma TurnIs(str: string, idx: nat, at: nat, nameStart: nat, nameEnd: nat, brackets: (nat, Option<string>), body: string, end: nat)
    requires IndexOf(str, COMMAND, idx) == at
    requires NameSpan(str, at) == Some((nameStart, nameEnd))
    requires ReadBrackets(str, SkipBlanks(str, nameEnd + 1)) == brackets
    requires BraceContent(str, brackets.0) == Some((body, end))
    ensures Turn(str, idx) == Some((end, Some((str[nameStart + 1..nameEnd], Value(body, brackets.1)))))
  {
    hide IndexOf, NameSpan, SkipBlanks, ReadBrackets, BraceContent, Value;
  }

  /** The loop does not end on every text: here the turn goes back to the front group for ever. */
  const LOOPING := "{}" + (COMMAND + ("{\\" + ("x" + ("}" + "["))))

  lemma LoopingBrackets()
    ensures SkipBlanks(LOOPING, 17) == 17 && ReadBrackets(LOOPING, 17) == (0, None)
    ensures BraceContent(LOOPING, 0) == Some(("", 1))
  {
    assert LOOPING[0] == '{' && LOOPING[17] == '[' && |LOOPING| == 18;
    assert IndexOfChar(LOOPING, ']', 17) == -1;
    assert LOOPING[0..2] == "{" + "" + "}";
    GroupIsRead(LOOPING, 0, "");
  }

  lemma LoopingParts()
    ensures At(LOOPING, 2, COMMAND) && At(LOOPING, 13, "{\\") && At(LOOPING, 15, "x") && At(LOOPING, 16, "}")
    ensures !At(LOOPING, 0, COMMAND) && !At(LOOPING, 1, COMMAND)
  {
    var str := LOOPING;
    assert str[0] == '{' && str[1] == '}' && str[0..|str|] == str;
    AtPrefix(str, 0, "{}", COMMAND + ("{\\" + ("x" + ("}" + "["))));
    AtPrefix(str, 2, COMMAND, "{\\" + ("x" + ("}" + "[")));
    AtPrefix(str, 13, "{\\", "x" + ("}" + "["));
    AtPrefix(str, 15, "x", "}" + "[");
    AtPrefix(str, 16, "}", "[");
    NoCommandAtBrace(str, 0);
    NoCommandAtBrace(str, 1);
  }

  lemma LoopingTurn(idx: nat)
    requires idx <= 1
    ensures Turn(LOOPING, idx) == Some((1, Some(("\\x", ""))))
  {
    LoopingParts();
    LoopingBrackets();
    assert At(LOOPING, 13, "") && forall k | 0 <= k :: !At("", k, "{\\");
    hide At, Turn, ReadBrackets, BraceContent, SkipBlanks;
    IndexOfIs(LOOPING, COMMAND, idx, 2);
    OpeningIsFound(LOOPING, 2, "");
    NameEnds(LOOPING, 13, "x");
    assert "\\" + "x" == "\\x";
    TurnIs(LOOPING, idx, 2, 13, 16, (0, None), "", 1);
  }

  lemma {:induction false} LoopingNeverHalts(turns: nat, idx: nat)
    requires idx <= 1
    ensures !Halts(LOOPING, idx, turns)
    decreases turns
  {
    LoopingTurn(idx);
    if turns > 0 {
      LoopingNeverHalts(turns - 1, 1);
    }
  }

  // ---------- printing and reading back ----------

  /** One definition as an author writes it: the text before it, what stands between the command and the brace that
      opens the name, the name, the number of arguments and the default with the blanks before each, the text before the
      body, and the body. */
  datatype Macro = Macro(gap: string, lead: string, name: string, blanks: string, args: Option<string>, between: string,
                         optional: Option<string>, before: string, body: string)

  ghost predicate NoCommand(text: string) {
    forall i | 0 <= i :: !At(text, i, COMMAND)
  }

  /** The brace stands within 20 characters of the command, which is 11 long, and no other `{\` comes first. */
  ghost predicate Leads(lead: string) {
    |lead| <= 9 && forall k | 0 <= k < |lead| - 1 :: !(lead[k] == '{' && lead[k + 1] == '\\')
  }

  ghost predicate Blank(s: string) {
    forall k | 0 <= k < |s| :: s[k] == ' ' || s[k] == '\n'
  }

  ghost predicate NoBraces(s: string) {
    forall k | 0 <= k < |s| :: s[k] != '{' && s[k] != '}'
  }

  /** The first character that is not blank opens no bracket. */
  ghost predicate OpensNoBracket(s: string) {
    forall k | 0 <= k < |s| && s[k] == '[' :: exists j :: 0 <= j < k && s[j] != ' ' && s[j] != '\n'
  }

  ghost predicate Printable(m: Macro) {
    && NoCommand(m.gap) && Leads(m.lead) && '}' !in m.name && Balanced(m.body)
    && Blank(m.blanks) && Blank(m.between) && NoBraces(m.before)
    && (m.args.Some? ==> ']' !in m.args.value)
    && (m.optional.Some? ==> m.args.Some? && BracketSafe(m.optional.value))
    && (m.optional.None? ==> OpensNoBracket(m.before))
  }

  function Brackets(m: Macro): string {
    match m.args
    case None => ""
    case Some(n) => m.blanks + (Bracketed(n) + Second(m))
  }

  function Second(m: Macro): string {
    match m.optional
    case None => ""
    case Some(d) => m.between + Bracketed(d)
  }

  function Bracketed(s: string): (r: string)
    ensures |r| == |s| + 2
  {
    "[" + (s + "]")
  }

  function Rest(m: Macro): string {
    Brackets(m) + (m.before + ("{" + m.body + "}"))
  }

  function Definition(m: Macro): string {
    "\\newcommand" + (m.lead + ("{\\" + (m.name + ("}" + Rest(m)))))
  }

  function PrintAll(ms: seq<Macro>, tail: string): string {
    if ms == [] then tail else ms[0].gap + (Definition(ms[0]) + PrintAll(ms[1..], tail))
  }

  /** Each name with its last body. */
  function Defined(macros: Macros, ms: seq<Macro>): Macros
    decreases |ms|
  {
    if ms == [] then macros
    else Defined(macros["\\" + ms[0].name := Value(ms[0].body, ms[0].optional)], ms[1..])
  }

  lemma AtPrefix(str: string, i: nat, s: string, t: string)
    requires At(str, i, s + t)
    ensures At(str, i, s) && At(str, i + |s|, t)
  {
    AtConcat(str, i, s, t);
  }

  lemma AtChar(str: string, i: nat, s: string, k: nat)
    requires At(str, i, s) && k < |s|
    ensures i + k < |str| && str[i + k] == s[k]
  {
    assert str[i + k] == str[i..i + |s|][k];
  }

  /** A command begins nowhere in a gap that holds none, even one that would run into the next text:
      a backslash is only at the front of the command. */
  lemma GapHidesNothing(str: string, i: nat, gap: string, from: nat)
    requires At(str, i, gap) && NoCommand(gap) && from <= i
    requires forall k | from <= k < i :: !At(str, k, COMMAND)
    requires i + |gap| < |str| ==> str[i + |gap|] == '\\'
    ensures forall k | from <= k < i + |gap| :: !At(str, k, COMMAND)
  {
    forall k | i <= k < i + |gap| ensures !At(str, k, COMMAND) {
      if At(str, k, COMMAND) {
        if k + |COMMAND| <= i + |gap| {
          AtWithin(str, i, gap, k, COMMAND);
        } else {
          var j := i + |gap| - k;
          AtChar(str, k, COMMAND, j);
          CommandBackslash(j);
        }
      }
    }
  }

  lemma AtWithin(str: string, i: nat, outer: string, k: nat, inner: string)
    requires At(str, i, outer) && At(str, k, inner) && i <= k && k + |inner| <= i + |outer|
    ensures At(outer, k - i, inner)
  {
    forall j | 0 <= j < |inner| ensures outer[k - i + j] == inner[j] {
      AtChar(str, i, outer, k - i + j);
      AtChar(str, k, inner, j);
    }
    assert outer[k - i..k - i + |inner|] == inner;
  }

  lemma CommandBackslash(j: nat)
    requires 0 < j < |COMMAND|
    ensures COMMAND[j] != '\\' && COMMAND[j] != '{'
  {
  }

  /** Where the name's brace stands. */
  function NameAt(at: nat, m: Macro): nat {
    at + |COMMAND| + |m.lead|
  }

  lemma DefinitionParts(str: string, at: nat, m: Macro)
    requires At(str, at, Definition(m))
    ensures var p := NameAt(at, m);
      && At(str, at, COMMAND) && At(str, at + |COMMAND|, m.lead) && At(str, p, "{\\") && At(str, p + 2, m.name)
      && At(str, p + 2 + |m.name|, "}") && At(str, p + 3 + |m.name|, Rest(m))
  {
    hide At, Rest;
    var p := NameAt(at, m);
    AtPrefix(str, at, COMMAND, m.lead + ("{\\" + (m.name + ("}" + Rest(m)))));
    AtPrefix(str, at + |COMMAND|, m.lead, "{\\" + (m.name + ("}" + Rest(m))));
    AtPrefix(str, p, "{\\", m.name + ("}" + Rest(m)));
    AtPrefix(str, p + 2, m.name, "}" + Rest(m));
    AtPrefix(str, p + 2 + |m.name|, "}", Rest(m));
  }

  lemma NameIsFound(str: string, at: nat, m: Macro)
    requires At(str, at, Definition(m)) && Printable(m)
    ensures var p := NameAt(at, m);
      && NameSpan(str, at) == Some((p, p + 2 + |m.name|)) && str[p + 1..p + 2 + |m.name|] == "\\" + m.name
      && At(str, p + 3 + |m.name|, Rest(m))
  {
    hide *;
    DefinitionParts(str, at, m);
    NameAtIs(at, m);
    PrintableName(m);
    OpeningIsFound(str, at, m.lead);
    NameEnds(str, NameAt(at, m), m.name);
    NameSpanIs(str, at, NameAt(at, m), NameAt(at, m) + 2 + |m.name|);
  }

  lemma PrintableName(m: Macro)
    requires Printable(m)
    ensures NoCommand(m.gap) && Leads(m.lead) && |m.lead| <= 9 && '}' !in m.name
  {
    hide NoCommand, Balanced, BracketSafe, Blank, NoBraces, OpensNoBracket;
  }

  lemma NameSpanIs(str: string, at: nat, p: nat, end: nat)
    requires IndexOf(str, "{\\", at) == p && p <= at + 20 && IndexOfChar(str, '}', p) == end
    ensures NameSpan(str, at) == Some((p, end))
  {
    hide IndexOf, IndexOfChar;
  }

  lemma OpeningIsFound(str: string, at: nat, lead: string)
    requires At(str, at, COMMAND) && At(str, at + |COMMAND|, lead) && At(str, at + |COMMAND| + |lead|, "{\\") && Leads(lead)
    ensures IndexOf(str, "{\\", at) == at + |COMMAND| + |lead|
  {
    var p := at + |COMMAND|;
    AtChar(str, p + |lead|, "{\\", 0);
    forall k | at <= k < p + |lead| ensures !At(str, k, "{\\") {
      if At(str, k, "{\\") {
        AtChar(str, k, "{\\", 0);
        AtChar(str, k, "{\\", 1);
        if k < p {
          AtChar(str, at, COMMAND, k - at);
          NoBraceInCommand(k - at);
        } else {
          AtChar(str, p, lead, k - p);
          if k + 1 < p + |lead| {
            AtChar(str, p, lead, k + 1 - p);
          }
        }
      }
    }
    hide At;
    IndexOfIs(str, "{\\", at, p + |lead|);
  }

  lemma NoBraceInCommand(j: nat)
    requires j < |COMMAND|
    ensures COMMAND[j] != '{'
  {
  }

  lemma NameEnds(str: string, p: nat, name: string)
    requires At(str, p, "{\\") && At(str, p + 2, name) && At(str, p + 2 + |name|, "}") && '}' !in name
    ensures IndexOfChar(str, '}', p) == p + 2 + |name|
    ensures str[p + 1..p + 2 + |name|] == "\\" + name
  {
    AtChar(str, p, "{\\", 0);
    AtChar(str, p, "{\\", 1);
    AtChar(str, p + 2 + |name|, "}", 0);
    forall k | p <= k < p + 2 + |name| ensures str[k] != '}' {
      if k >= p + 2 {
        AtChar(str, p + 2, name, k - p - 2);
        assert name[k - p - 2] in name;
      }
    }
    FindChar(str, '}', p, p + 2 + |name|);
    assert str[p + 1..p + 2 + |name|] == [str[p + 1]] + str[p + 2..p + 2 + |name|];
  }

  lemma FindChar(str: string, c: char, from: nat, i: nat)
    requires from <= i < |str| && str[i] == c && forall k | from <= k < i :: str[k] != c
    ensures IndexOfChar(str, c, from) == i
  {
  }

  /** Blanks are skipped up to what follows them. */
  lemma {:induction false} BlanksAreSkipped(str: string, p: nat, blanks: string, k: nat)
    requires k <= |blanks| && At(str, p, blanks) && Blank(blanks)
    requires p + |blanks| < |str| && str[p + |blanks|] != ' ' && str[p + |blanks|] != '\n'
    ensures SkipBlanks(str, p + k) == p + |blanks|
    decreases |blanks| - k
  {
    if k < |blanks| {
      AtChar(str, p, blanks, k);
      BlanksAreSkipped(str, p, blanks, k + 1);
    }
  }

  lemma {:induction false} SkippedAreBlank(str: string, i: nat, k: nat)
    requires i <= |str|
    ensures i <= k < SkipBlanks(str, i) <= |str| ==> str[k] == ' ' || str[k] == '\n'
    ensures SkipBlanks(str, i) < |str| ==> str[SkipBlanks(str, i)] != ' ' && str[SkipBlanks(str, i)] != '\n'
    decreases |str| - i
  {
    if i < |str| && (str[i] == ' ' || str[i] == '\n') {
      SkippedAreBlank(str, i + 1, k);
    }
  }

  /** No bracket is read in a text that opens none. */
  lemma NoBracketAhead(str: string, p: nat, before: string)
    requires At(str, p, before) && OpensNoBracket(before) && p + |before| < |str| && str[p + |before|] == '{'
    ensures p <= SkipBlanks(str, p) <= p + |before| && str[SkipBlanks(str, p)] != '['
  {
    var q := SkipBlanks(str, p);
    SkippedAreBlank(str, p, p + |before|);
    if p <= q < p + |before| && str[q] == '[' {
      AtChar(str, p, before, q - p);
      var j :| 0 <= j < q - p && before[j] != ' ' && before[j] != '\n';
      AtChar(str, p, before, j);
      SkippedAreBlank(str, p, p + j);
    }
  }

  /** The scan for the body passes over a text without braces. */
  lemma {:induction false} TextIsPassed(str: string, i: nat, end: nat)
    requires i <= end <= |str| && forall k | i <= k < end :: str[k] != '{' && str[k] != '}'
    ensures BraceScan(str, i, 0, 0) == BraceScan(str, end, 0, 0)
    decreases end - i
  {
    if i < end {
      TextIsPassed(str, i + 1, end);
    }
  }

  /** The brackets are read for what they are, and the body is what follows them. */
  lemma RestIsRead(str: string, p: nat, m: Macro) returns (from: nat)
    requires At(str, p, Rest(m)) && Printable(m)
    ensures ReadBrackets(str, SkipBlanks(str, p)) == (from, m.optional)
    ensures BraceContent(str, from) == Some((m.body, p + |Rest(m)| - 1))
  {
    hide *;
    var q, end := p + |Brackets(m)|, p + |Brackets(m)| + |m.before|;
    RestParts(str, p, m);
    from := BracketsAreRead(str, p, m);
    BodyIsRead(str, from, q, end, m);
  }

  lemma RestParts(str: string, p: nat, m: Macro)
    requires At(str, p, Rest(m)) && Printable(m)
    ensures var q := p + |Brackets(m)|;
      && At(str, p, Brackets(m)) && At(str, q, m.before) && At(str, q + |m.before|, "{" + m.body + "}")
      && q + |m.before| < |str| && str[q + |m.before|] == '{' && |Rest(m)| == |Brackets(m)| + |m.before| + |m.body| + 2
  {
    hide Brackets, At, Printable;
    var q, group := p + |Brackets(m)|, "{" + m.body + "}";
    assert |Rest(m)| == |Brackets(m)| + |m.before| + |group|;
    AtPrefix(str, p, Brackets(m), m.before + group);
    AtPrefix(str, q, m.before, group);
    AtChar(str, q + |m.before|, group, 0);
  }

  lemma BodyIsRead(str: string, from: nat, q: nat, end: nat, m: Macro)
    requires Printable(m) && q <= from <= end == q + |m.before| && At(str, q, m.before) && At(str, end, "{" + m.body + "}")
    ensures BraceContent(str, from) == Some((m.body, end + 1 + |m.body|))
  {
    GroupIsRead(str, end, m.body);
    forall k | from <= k < end ensures str[k] != '{' && str[k] != '}' {
      AtChar(str, q, m.before, k - q);
    }
    hide BraceScan, Balanced;
    TextIsPassed(str, from, end);
  }

  lemma NoBracketIsRead(str: string, p: nat)
    requires p < |str| && str[p] != '['
    ensures ReadBrackets(str, p) == (p, None)
  {
  }

  lemma OneBracketIsRead(str: string, p: nat, after: nat, q: nat)
    requires p < after <= |str| && str[p] == '[' && IndexOfChar(str, ']', p) == after - 1
    requires SkipBlanks(str, after) == q && q < |str| && str[q] != '['
    ensures ReadBrackets(str, p) == (after, None)
  {
    hide BracketScan, IndexOfChar, SkipBlanks;
  }

  lemma TwoBracketsAreRead(str: string, p: nat, after: nat, q: nat, end: nat)
    requires p < after <= q < end < |str| && str[p] == '[' && IndexOfChar(str, ']', p) == after - 1
    requires SkipBlanks(str, after) == q && str[q] == '[' && BracketScan(str, q + 1, 0) == end
    ensures ReadBrackets(str, p) == (end + 1, Some(str[q + 1..end]))
  {
    hide BracketScan, IndexOfChar, SkipBlanks;
  }

  /** What `Printable` says of the text after the name. */
  lemma PrintableRest(m: Macro)
    requires Printable(m)
    ensures Blank(m.blanks) && Blank(m.between) && (m.args.Some? ==> ']' !in m.args.value)
    ensures match m.optional
      case None => OpensNoBracket(m.before)
      case Some(d) => m.args.Some? && BracketSafe(d)
    ensures m.args.None? ==> Brackets(m) == ""
  {
    hide Balanced, BracketSafe, Leads, Blank, NoBraces, OpensNoBracket, NoCommand;
  }

  lemma BracketsAreRead(str: string, p: nat, m: Macro) returns (from: nat)
    requires At(str, p, Brackets(m)) && Printable(m)
    requires At(str, p + |Brackets(m)|, m.before)
    requires p + |Brackets(m)| + |m.before| < |str| && str[p + |Brackets(m)| + |m.before|] == '{'
    ensures ReadBrackets(str, SkipBlanks(str, p)) == (from, m.optional)
    ensures p + |Brackets(m)| <= from <= p + |Brackets(m)| + |m.before|
  {
    hide *;
    PrintableRest(m);
    match m.args {
      case None =>
        NoBracketAhead(str, p, m.before);
        from := SkipBlanks(str, p);
        NoBracketIsRead(str, from);
      case Some(n) =>
        from := ArgsAreRead(str, p, n, m);
    }
  }

  lemma ArgsAreRead(str: string, p: nat, n: string, m: Macro) returns (from: nat)
    requires m.args == Some(n) && At(str, p, Brackets(m)) && Printable(m)
    requires At(str, p + |Brackets(m)|, m.before)
    requires p + |Brackets(m)| + |m.before| < |str| && str[p + |Brackets(m)| + |m.before|] == '{'
    ensures ReadBrackets(str, SkipBlanks(str, p)) == (from, m.optional)
    ensures p + |Brackets(m)| <= from <= p + |Brackets(m)| + |m.before|
  {
    hide *;
    PrintableRest(m);
    SecondIs(m);
    var q, after := p + |m.blanks|, p + |m.blanks| + |n| + 2;
    FirstBracket(str, p, n, m);
    BlanksAreSkipped(str, p, m.blanks, 0);
    match m.optional {
      case None =>
        from := after;
        NoBracketAhead(str, after, m.before);
        OneBracketIsRead(str, q, after, SkipBlanks(str, after));
      case Some(d) =>
        SecondBracket(str, after, d, m);
        BlanksAreSkipped(str, after, m.between, 0);
        from := after + |m.between| + |d| + 2;
        TwoBracketsAreRead(str, q, after, after + |m.between|, from - 1);
    }
  }

  lemma SecondIs(m: Macro)
    ensures |Second(m)| == match m.optional case None => 0 case Some(d) => |m.between| + |d| + 2
  {
  }

  lemma SecondBracket(str: string, after: nat, d: string, m: Macro)
    requires m.optional == Some(d) && At(str, after, Second(m)) && BracketSafe(d)
    ensures var q := after + |m.between|;
      && At(str, after, m.between) && q + |d| + 1 < |str| && str[q] == '['
      && BracketScan(str, q + 1, 0) == q + 1 + |d| && str[q + 1..q + 1 + |d|] == d
  {
    hide At, Bracketed, BracketSafe, BracketScan;
    AtPrefix(str, after, m.between, Bracketed(d));
    DefaultInBrackets(str, after + |m.between|, d);
  }

  lemma DefaultInBrackets(str: string, q: nat, d: string)
    requires At(str, q, Bracketed(d)) && BracketSafe(d)
    ensures q + |d| + 1 < |str| && str[q] == '[' && BracketScan(str, q + 1, 0) == q + 1 + |d| && str[q + 1..q + 1 + |d|] == d
  {
    AtPrefix(str, q, "[", d + "]");
    AtChar(str, q, "[", 0);
    AtPrefix(str, q + 1, d, "]");
    DefaultIsRead(str, q + 1, d, 0);
    assert d[..0] == "";
  }

  lemma BracketsAre(m: Macro, n: string)
    requires m.args == Some(n)
    ensures Brackets(m) == m.blanks + (Bracketed(n) + Second(m))
  {
  }

  lemma FirstBracket(str: string, p: nat, n: string, m: Macro)
    requires m.args == Some(n) && ']' !in n && At(str, p, Brackets(m))
    ensures var q := p + |m.blanks|;
      && At(str, p, m.blanks) && q < |str| && str[q] == '[' && IndexOfChar(str, ']', q) == q + |n| + 1
      && At(str, q + |n| + 2, Second(m)) && |Brackets(m)| == |m.blanks| + |n| + 2 + |Second(m)|
  {
    hide *;
    BracketsAre(m, n);
    AtParts(str, p, m.blanks, Bracketed(n), Second(m));
    BracketEnds(str, p + |m.blanks|, n);
  }

  lemma AtParts(str: string, p: nat, a: string, b: string, c: string)
    requires At(str, p, a + (b + c))
    ensures At(str, p, a) && At(str, p + |a|, b) && At(str, p + |a| + |b|, c)
  {
    hide At;
    AtPrefix(str, p, a, b + c);
    AtPrefix(str, p + |a|, b, c);
  }

  lemma BracketEnds(str: string, p: nat, n: string)
    requires ']' !in n && At(str, p, Bracketed(n))
    ensures p < |str| && str[p] == '[' && IndexOfChar(str, ']', p) == p + |n| + 1
  {
    hide At, IndexOfChar;
    AtParts(str, p, "[", n, "]");
    AtChar(str, p, "[", 0);
    AtChar(str, p + 1 + |n|, "]", 0);
    forall k | p < k < p + |n| + 1 ensures str[k] != ']' {
      AtChar(str, p + 1, n, k - p - 1);
    }
    FindChar(str, ']', p, p + |n| + 1);
  }

  lemma CommandIsFound(str: string, idx: nat, at: nat, m: Macro)
    requires idx <= at && At(str, at, Definition(m)) && forall k | idx <= k < at :: !At(str, k, COMMAND)
    ensures IndexOf(str, COMMAND, idx) == at
  {
    AtPrefix(str, at, COMMAND, m.lead + ("{\\" + (m.name + ("}" + Rest(m)))));
    IndexOfIs(str, COMMAND, idx, at);
  }

  lemma DefinitionLength(m: Macro)
    ensures |Definition(m)| == |COMMAND| + |m.lead| + 3 + |m.name| + |Rest(m)| && |Rest(m)| > 0
  {
  }

  /** The turn that meets a printed definition defines it and moves to its closing brace. */
  lemma DefinitionIsRead(str: string, idx: nat, at: nat, m: Macro)
    requires idx <= at && At(str, at, Definition(m)) && Printable(m)
    requires forall k | idx <= k < at :: !At(str, k, COMMAND)
    ensures Turn(str, idx) == Some((at + |Definition(m)| - 1, Some(("\\" + m.name, Value(m.body, m.optional)))))
  {
    hide *;
    CommandIsFound(str, idx, at, m);
    NameIsFound(str, at, m);
    DefinitionLength(m);
    var p := NameAt(at, m);
    NameAtIs(at, m);
    var restAt := p + 3 + |m.name|;
    var from := RestIsRead(str, restAt, m);
    TurnIs(str, idx, at, p, p + 2 + |m.name|, (from, m.optional), m.body, restAt + |Rest(m)| - 1);
  }

  lemma NameAtIs(at: nat, m: Macro)
    ensures NameAt(at, m) == at + |COMMAND| + |m.lead| && |COMMAND| == 11
  {
  }

  lemma {:induction false} ReadsBackFrom(str: string, i: nat, idx: nat, ms: seq<Macro>, tail: string, macros: Macros)
    requires idx <= i && At(str, i, PrintAll(ms, tail)) && i + |PrintAll(ms, tail)| == |str|
    requires (forall m | m in ms :: Printable(m)) && NoCommand(tail)
    requires forall k | idx <= k < i :: !At(str, k, COMMAND)
    ensures Halts(str, idx, |ms|) && Run(str, idx, macros, |ms|) == Defined(macros, ms)
    decreases |ms|
  {
    hide Turn, Definition, At, Printable, NoCommand, Value, Run, Halts;
    if ms == [] {
      TailEndsIt(str, i, idx, tail);
    } else {
      var m, at := ms[0], i + |ms[0].gap|;
      var end := FirstDefinition(str, i, idx, ms, tail);
      ReadsBackFrom(str, end + 1, end, ms[1..], tail, macros["\\" + m.name := Value(m.body, m.optional)]);
      RunStepBack(str, idx, macros, |ms|, end, "\\" + m.name, Value(m.body, m.optional));
    }
  }

  lemma TailEndsIt(str: string, i: nat, idx: nat, tail: string)
    requires idx <= i && At(str, i, tail) && i + |tail| == |str| && NoCommand(tail)
    requires forall k | idx <= k < i :: !At(str, k, COMMAND)
    ensures Turn(str, idx).None? && Halts(str, idx, 0) && forall macros :: Run(str, idx, macros, 0) == macros
  {
    GapHidesNothing(str, i, tail, idx);
    assert forall k | |str| <= k :: !At(str, k, COMMAND);
  }

  /** One definition of a printed list is read, and the rest of the list follows it. */
  lemma FirstDefinition(str: string, i: nat, idx: nat, ms: seq<Macro>, tail: string) returns (end: nat)
    requires ms != [] && idx <= i && At(str, i, PrintAll(ms, tail)) && Printable(ms[0])
    requires forall k | idx <= k < i :: !At(str, k, COMMAND)
    ensures Turn(str, idx) == Some((end, Some(("\\" + ms[0].name, Value(ms[0].body, ms[0].optional)))))
    ensures At(str, end + 1, PrintAll(ms[1..], tail)) && !At(str, end, COMMAND)
    ensures end + 1 + |PrintAll(ms[1..], tail)| == i + |PrintAll(ms, tail)|
  {
    hide *;
    var m, at := ms[0], i + |ms[0].gap|;
    PrintedParts(str, i, ms, tail);
    GapIsSkipped(str, i, idx, m);
    DefinitionIsRead(str, idx, at, m);
    end := at + |Definition(m)| - 1;
    DefinitionEndsInBrace(str, at, m);
  }

  lemma GapIsSkipped(str: string, i: nat, idx: nat, m: Macro)
    requires idx <= i && At(str, i, m.gap) && At(str, i + |m.gap|, Definition(m)) && Printable(m)
    requires forall k | idx <= k < i :: !At(str, k, COMMAND)
    ensures forall k | idx <= k < i + |m.gap| :: !At(str, k, COMMAND)
  {
    hide *;
    PrintableName(m);
    DefinitionEnds(m);
    AtChar(str, i + |m.gap|, Definition(m), 0);
    GapHidesNothing(str, i, m.gap, idx);
  }

  lemma DefinitionEndsInBrace(str: string, at: nat, m: Macro)
    requires At(str, at, Definition(m))
    ensures |Definition(m)| > 0 && !At(str, at + |Definition(m)| - 1, COMMAND)
  {
    hide *;
    DefinitionEnds(m);
    AtChar(str, at, Definition(m), |Definition(m)| - 1);
    NoCommandAtBrace(str, at + |Definition(m)| - 1);
  }

  lemma PrintedParts(str: string, i: nat, ms: seq<Macro>, tail: string)
    requires ms != [] && At(str, i, PrintAll(ms, tail))
    ensures var gap, def, rest := ms[0].gap, Definition(ms[0]), PrintAll(ms[1..], tail);
            && At(str, i, gap) && At(str, i + |gap|, def) && At(str, i + |gap| + |def|, rest)
            && |PrintAll(ms, tail)| == |gap| + |def| + |rest|
  {
    hide At, Definition;
    var gap, def, rest := ms[0].gap, Definition(ms[0]), PrintAll(ms[1..], tail);
    assert PrintAll(ms, tail) == gap + (def + rest);
    AtPrefix(str, i, gap, def + rest);
    AtPrefix(str, i + |gap|, def, rest);
  }

  lemma DefinitionEnds(m: Macro)
    ensures |Definition(m)| > 0 && Definition(m)[0] == '\\' && Definition(m)[|Definition(m)| - 1] == '}'
  {
  }

  lemma NoCommandAtBrace(str: string, i: nat)
    requires i < |str| && (str[i] == '}' || str[i] == '{')
    ensures !At(str, i, COMMAND)
  {
    assert i + |COMMAND| <= |str| ==> str[i..i + |COMMAND|][0] == str[i];
  }

  lemma RunStepBack(str: string, idx: nat, macros: Macros, turns: nat, next: nat, name: string, value: string)
    requires turns > 0 && Turn(str, idx) == Some((next, Some((name, value)))) && Halts(str, next, turns - 1)
    ensures Halts(str, idx, turns) && Run(str, idx, macros, turns) == Run(str, next, macros[name := value], turns - 1)
  {
    hide Turn;
  }

  lemma {:induction false} DefinedNames(macros: Macros, ms: seq<Macro>, name: string)
    ensures name in Defined(macros, ms) <==> name in macros || exists i :: 0 <= i < |ms| && "\\" + ms[i].name == name
    ensures name in macros && (forall i | 0 <= i < |ms| :: "\\" + ms[i].name != name) ==> Defined(macros, ms)[name] == macros[name]
    decreases |ms|
  {
    hide Value;
    if ms != [] {
      DefinedNames(macros["\\" + ms[0].name := Value(ms[0].body, ms[0].optional)], ms[1..], name);
      if i :| 0 <= i < |ms| && "\\" + ms[i].name == name {
        assert i > 0 ==> ms[1..][i - 1] == ms[i];
      }
    }
  }

  /** The last definition of a name is the one that stays. */
  lemma {:induction false} DefinedLast(macros: Macros, ms: seq<Macro>, k: nat)
    requires k < |ms| && forall i | k < i < |ms| :: ms[i].name != ms[k].name
    ensures var name := "\\" + ms[k].name; name in Defined(macros, ms) && Defined(macros, ms)[name] == Value(ms[k].body, ms[k].optional)
    decreases |ms|
  {
    hide Value;
    var next := macros["\\" + ms[0].name := Value(ms[0].body, ms[0].optional)];
    if k == 0 {
      forall i | 0 <= i < |ms[1..]| ensures "\\" + ms[1..][i].name != "\\" + ms[0].name {
        assert ("\\" + ms[1..][i].name)[1..] == ms[i + 1].name && ("\\" + ms[0].name)[1..] == ms[0].name;
      }
      DefinedNames(next, ms[1..], "\\" + ms[0].name);
    } else {
      DefinedLast(next, ms[1..], k - 1);
    }
  }

  /** Any list of definitions, printed one after another with other text around and between their parts, is read
      back in as many turns as there are definitions: exactly their names, each with its last body, which is as
      written, or collapsed if there is a default; and no definition from inside a body. */
  lemma RoundTrip(ms: seq<Macro>, tail: string)
    requires (forall m | m in ms :: Printable(m)) && NoCommand(tail)
    ensures var str := PrintAll(ms, tail);
      && Halts(str, 0, |ms|)
      && (forall name :: name in Run(str, 0, map[], |ms|) <==> exists i :: 0 <= i < |ms| && "\\" + ms[i].name == name)
      && forall k | 0 <= k < |ms| && (forall i | k < i < |ms| :: ms[i].name != ms[k].name) ::
           Run(str, 0, map[], |ms|)["\\" + ms[k].name] == match ms[k].optional
                                                          case None => ms[k].body
                                                          case Some(def) => CollapseOptionalArg(ms[k].body, def)
  {
    hide *;
    AtFront(PrintAll(ms, tail));
    ReadsBackFrom(PrintAll(ms, tail), 0, 0, ms, tail, map[]);
    DefinedMeans(ms);
  }

  lemma AtFront(str: string)
    ensures At(str, 0, str)
  {
    assert str[0..|str|] == str;
  }

  lemma DefinedMeans(ms: seq<Macro>)
    ensures forall name :: name in Defined(map[], ms) <==> exists i :: 0 <= i < |ms| && "\\" + ms[i].name == name
    ensures forall k | 0 <= k < |ms| && (forall i | k < i < |ms| :: ms[i].name != ms[k].name) ::
      Defined(map[], ms)["\\" + ms[k].name] == match ms[k].optional
                                               case None => ms[k].body
                                               case Some(def) => CollapseOptionalArg(ms[k].body, def)
  {
    hide Defined, CollapseOptionalArg;
    forall name ensures name in Defined(map[], ms) <==> exists i :: 0 <= i < |ms| && "\\" + ms[i].name == name {
      DefinedNames(map[], ms, name);
    }
    forall k | 0 <= k < |ms| && (forall i | k < i < |ms| :: ms[i].name != ms[k].name)
      ensures Defined(map[], ms)["\\" + ms[k].name] == Value(ms[k].body, ms[k].optional)
    {
      DefinedLast(map[], ms, k);
    }
  }
}
