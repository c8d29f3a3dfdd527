/** References in rendered HTML made clickable: `linkifyDocRefs` of src/docLinks.ts.

    The HTML is cut into tags and text; references are wrapped in the text outside the elements to be skipped. */
module DocLinks {
  import opened DocRefs
  import opened Text
  import opened Wrappers

  // ---------- tags and text ----------

  datatype Part = Tag(text: string) | Chars(text: string)

  /** Where the tag that starts here ends, or -1: a `<`, something other than `>`, and the next `>`. */
  function TagEnd(html: string, i: nat): (end: int)
    requires i < |html|
    ensures end == -1 || i + 2 < end <= |html|
  {
    if html[i] != '<' then -1
    else
      var close := IndexOfChar(html, '>', i + 1);
      if close == -1 || close == i + 1 then -1 else close + 1
  }

  /** A tag has something between its brackets, and its closing bracket is the first one. */
  lemma TagIs(html: string, i: nat)
    requires i < |html|
    ensures var end := TagEnd(html, i);
      if end == -1 then html[i] != '<' || (forall k | i < k < |html| :: html[k] != '>') || html[i + 1] == '>'
      else html[i] == '<' && i + 2 < end && html[end - 1] == '>' && forall k | i < k < end - 1 :: html[k] != '>'
  {
  }

  function NextTag(html: string, from: nat): (i: int)
    ensures i == -1 || (from <= i < |html| && TagEnd(html, i) != -1)
    ensures forall j | from <= j < |html| && (i == -1 || j < i) :: TagEnd(html, j) == -1
    decreases |html| - from
  {
    if from >= |html| then -1 else if TagEnd(html, from) != -1 then from else NextTag(html, from + 1)
  }

  function CharsBetween(html: string, from: nat, to: nat): seq<Part>
    requires from <= to <= |html|
  {
    if from < to then [Chars(html[from..to])] else []
  }

  function PartsOf(html: string, from: nat): seq<Part>
    requires from <= |html|
    decreases |html| - from
  {
    var i := NextTag(html, from);
    if i == -1 then CharsBetween(html, from, |html|)
    else CharsBetween(html, from, i) + [Tag(html[i..TagEnd(html, i)])] + PartsOf(html, TagEnd(html, i))
  }

  lemma PartsStep(html: string, from: nat, i: nat, parts: seq<Part>, more: seq<Part>)
    requires from <= |html| && NextTag(html, from) == i
    requires more == parts + CharsBetween(html, from, i) + [Tag(html[i..TagEnd(html, i)])]
    ensures more + PartsOf(html, TagEnd(html, i)) == parts + PartsOf(html, from)
  {
    hide TagEnd, NextTag, CharsBetween;
    var chars, tag, rest := CharsBetween(html, from, i), [Tag(html[i..TagEnd(html, i)])], PartsOf(html, TagEnd(html, i));
    assert PartsOf(html, from) == chars + tag + rest;
    assert parts + chars + tag + rest == parts + (chars + tag + rest);
  }

  method SplitTags(html: string) returns (parts: seq<Part>)
    ensures parts == PartsOf(html, 0)
  {
    parts := [];
    var lastIdx := 0;
    var i := NextTag(html, 0);
    while i != -1
      invariant 0 <= lastIdx <= |html| && i == NextTag(html, lastIdx)
      invariant parts + PartsOf(html, lastIdx) == PartsOf(html, 0)
      decreases |html| - lastIdx
    {
      hide PartsOf;
      ghost var was := parts;
      if i > lastIdx {
        parts := parts + [Chars(html[lastIdx..i])];
      }
      parts := parts + [Tag(html[i..TagEnd(html, i)])];
      PartsStep(html, lastIdx, i, was, parts);
      lastIdx := TagEnd(html, i);
      i := NextTag(html, lastIdx);
    }
    assert html[lastIdx..] == html[lastIdx..|html|];
    if lastIdx < |html| {
      parts := parts + [Chars(html[lastIdx..])];
    }
  }

  function Offset(parts: seq<Part>, k: nat): nat
    requires k <= |parts|
  {
    if k == 0 then 0 else Offset(parts, k - 1) + |parts[k - 1].text|
  }

  /** A tag part is a tag of the HTML; a text part is a stretch of it that no tag starts in. */
  ghost predicate IsPart(html: string, part: Part, start: nat) {
    && start + |part.text| <= |html| && html[start..start + |part.text|] == part.text != ""
    && (part.Tag? ==> TagEnd(html, start) == start + |part.text|)
    && (part.Chars? ==> forall i | start <= i < start + |part.text| :: TagEnd(html, i) == -1)
  }

  lemma {:induction false} OffsetConcat(a: seq<Part>, b: seq<Part>, k: nat)
    requires k <= |a| + |b|
    ensures Offset(a + b, k) == if k <= |a| then Offset(a, k) else Offset(a, |a|) + Offset(b, k - |a|)
  {
    if k > 0 {
      OffsetConcat(a, b, k - 1);
    }
  }

  /** Parts lying end to end from here. */
  ghost predicate Placed(html: string, parts: seq<Part>, from: nat) {
    forall k | 0 <= k < |parts| :: IsPart(html, parts[k], from + Offset(parts, k))
  }

  lemma OffsetStart(parts: seq<Part>)
    ensures Offset(parts, 0) == 0
  {
  }

  lemma PlacedConcat(html: string, a: seq<Part>, b: seq<Part>, from: nat)
    requires Placed(html, a, from) && Placed(html, b, from + Offset(a, |a|))
    ensures Placed(html, a + b, from) && Offset(a + b, |a + b|) == Offset(a, |a|) + Offset(b, |b|)
  {
    hide IsPart, Offset;
    OffsetStart(b);
    OffsetConcat(a, b, |a + b|);
    forall k | 0 <= k < |a + b| ensures IsPart(html, (a + b)[k], from + Offset(a + b, k)) {
      OffsetConcat(a, b, k);
      if k < |a| {
        assert IsPart(html, a[k], from + Offset(a, k));
      } else {
        assert IsPart(html, b[k - |a|], from + Offset(a, |a|) + Offset(b, k - |a|));
      }
    }
  }

  lemma OnePlaced(html: string, part: Part, from: nat)
    requires IsPart(html, part, from)
    ensures Placed(html, [part], from) && Offset([part], |[part]|) == |part.text|
  {
    assert Offset([part], 0) == 0;
    assert Offset([part], 1) == |part.text|;
  }

  lemma CharsPlaced(html: string, from: nat, to: nat)
    requires from <= to <= |html| && forall i | from <= i < to :: TagEnd(html, i) == -1
    ensures Placed(html, CharsBetween(html, from, to), from)
    ensures Offset(CharsBetween(html, from, to), |CharsBetween(html, from, to)|) == to - from
  {
    if from < to {
      OnePlaced(html, Chars(html[from..to]), from);
    }
  }

  /** The parts lie end to end over the HTML. */
  lemma {:induction false} PartsCover(html: string, from: nat)
    requires from <= |html|
    ensures from + Offset(PartsOf(html, from), |PartsOf(html, from)|) == |html|
    ensures Placed(html, PartsOf(html, from), from)
    decreases |html| - from
  {
    hide Placed, Offset, CharsBetween;
    var i := NextTag(html, from);
    if i == -1 {
      CharsPlaced(html, from, |html|);
    } else {
      var end := TagEnd(html, i);
      var chars, tag, rest := CharsBetween(html, from, i), Tag(html[i..end]), PartsOf(html, end);
      CharsPlaced(html, from, i);
      OnePlaced(html, tag, i);
      PlacedConcat(html, chars, [tag], from);
      PartsCover(html, end);
      PlacedConcat(html, chars + [tag], rest, from);
    }
  }

  // ---------- which elements are skipped ----------

  function Lower(c: char): char {
    if 'A' <= c <= 'Z' then (c as int + 32) as char else c
  }

  /** A case-insensitive match of lower-case text at the start. */
  predicate StartsWith(s: string, prefix: string) {
    |prefix| <= |s| && forall k | 0 <= k < |prefix| :: Lower(s[k]) == prefix[k]
  }

  /** `^<name[\s>]` */
  predicate Opens(tag: string, name: string) {
    StartsWith(tag, "<" + name) && |tag| > |name| + 1 && (IsSpace(tag[|name| + 1]) || tag[|name| + 1] == '>')
  }

  /** `^</name>` */
  predicate Closes(tag: string, name: string) {
    StartsWith(tag, "</" + name + ">")
  }

  predicate SkipOpen(tag: string) {
    Opens(tag, "a") || Opens(tag, "code") || Opens(tag, "pre")
  }

  predicate SkipClose(tag: string) {
    Closes(tag, "a") || Closes(tag, "code") || Closes(tag, "pre") || Closes(tag, "span")
  }

  predicate SpanOpen(tag: string) {
    Opens(tag, "span")
  }

  /** A `class` attribute that mentions a link or a chip, before any `>`. */
  predicate SpanSkipOpen(tag: string) {
    && StartsWith(tag, "<span") && |tag| > 5 && IsSpace(tag[5])
    && exists i, j | 6 <= i <= j <= |tag| :: ClassMentions(tag, i, j)
  }

  predicate ClassMentions(tag: string, i: nat, j: nat)
    requires 6 <= i <= j <= |tag|
  {
    && (forall k | 6 <= k < i :: tag[k] != '>') && StartsWith(tag[i..], "class=\"") && i + 7 <= j
    && (forall k | i + 7 <= k < j :: tag[k] != '"') && (StartsWith(tag[j..], "doc-link") || StartsWith(tag[j..], "ref-chip"))
  }

  /** The text from here on spells the word, in letters of any case. */
  ghost predicate Spells(s: string, i: nat, word: string) {
    && i + |word| <= |s|
    && forall k | 0 <= k < |word| :: s[i + k] == word[k] || ('a' <= word[k] <= 'z' && s[i + k] as int + 32 == word[k] as int)
  }

  lemma StartsIfSpelled(s: string, i: nat, word: string)
    requires i <= |s| && forall k | 0 <= k < |word| :: !('A' <= word[k] <= 'Z')
    ensures StartsWith(s[i..], word) <==> Spells(s, i, word)
  {
  }

  /** The tags the counter looks at. */
  lemma TagsThatCount(tag: string)
    ensures SkipOpen(tag) <==> exists name | name in {"a", "code", "pre"} ::
      Spells(tag, 0, "<" + name) && |tag| > |name| + 1 && (IsSpace(tag[|name| + 1]) || tag[|name| + 1] == '>')
    ensures SpanOpen(tag) <==> Spells(tag, 0, "<span") && |tag| > 5 && (IsSpace(tag[5]) || tag[5] == '>')
    ensures SkipClose(tag) <==> exists name | name in {"a", "code", "pre", "span"} :: Spells(tag, 0, "</" + name + ">")
  {
    hide IsSpace, Spells, StartsWith;
    assert tag[0..] == tag;
    assert "<" + "span" == "<span";
    forall name | name in {"a", "code", "pre", "span"}
      ensures StartsWith(tag, "<" + name) <==> Spells(tag, 0, "<" + name)
      ensures StartsWith(tag, "</" + name + ">") <==> Spells(tag, 0, "</" + name + ">")
    {
      StartsIfSpelled(tag, 0, "<" + name);
      StartsIfSpelled(tag, 0, "</" + name + ">");
    }
  }

  /** The spans that are links or chips: a `class` attribute that says so, before any `>`. */
  lemma SpansThatCount(tag: string)
    ensures SpanSkipOpen(tag) <==>
      && Spells(tag, 0, "<span") && |tag| > 5 && IsSpace(tag[5])
      && exists i, j | 6 <= i <= j <= |tag| ::
           && i + 7 <= j && Spells(tag, i, "class=\"") && (Spells(tag, j, "doc-link") || Spells(tag, j, "ref-chip"))
           && (forall k | 6 <= k < i :: tag[k] != '>') && (forall k | i + 7 <= k < j :: tag[k] != '"')
  {
    assert tag[0..] == tag;
    StartsIfSpelled(tag, 0, "<span");
    hide IsSpace, Spells, StartsWith, ClassMentions;
    if i, j :| 6 <= i <= j <= |tag| && ClassMentions(tag, i, j) {
      MentionIs(tag, i, j);
    }
    forall i, j | 6 <= i <= j <= |tag| && Spells(tag, i, "class=\"") && (Spells(tag, j, "doc-link") || Spells(tag, j, "ref-chip")) {
      MentionIs(tag, i, j);
    }
  }

  lemma MentionIs(tag: string, i: nat, j: nat)
    requires 6 <= i <= j <= |tag|
    ensures ClassMentions(tag, i, j) <==>
      && i + 7 <= j && Spells(tag, i, "class=\"") && (Spells(tag, j, "doc-link") || Spells(tag, j, "ref-chip"))
      && (forall k | 6 <= k < i :: tag[k] != '>') && (forall k | i + 7 <= k < j :: tag[k] != '"')
  {
    StartsIfSpelled(tag, i, "class=\"");
    StartsIfSpelled(tag, j, "doc-link");
    StartsIfSpelled(tag, j, "ref-chip");
    hide Spells, StartsWith;
  }

  function AtLeastZero(n: int): nat {
    if n < 0 then 0 else n
  }

  /** What a tag does to the skip counter. */
  function StepDepth(depth: nat, tag: string): nat {
    if depth > 0 then
      if SpanOpen(tag) then depth + 1 else if SkipClose(tag) then depth - 1 else depth
    else
      if SkipOpen(tag) || SpanSkipOpen(tag) then depth + 1
      else if SkipClose(tag) then AtLeastZero(depth as int - 1)
      else depth
  }

  function DepthAt(parts: seq<Part>, k: nat): nat
    requires k <= |parts|
  {
    if k == 0 then 0
    else if parts[k - 1].Tag? then StepDepth(DepthAt(parts, k - 1), parts[k - 1].text)
    else DepthAt(parts, k - 1)
  }

  // ---------- the pieces of the result ----------

  datatype Piece = Kept(text: string) | Linked(ref: DocRef, text: string)

  function EscAttr(s: string): string {
    if s == "" then ""
    else (if s[0] == '&' then "&amp;" else if s[0] == '"' then "&quot;" else [s[0]]) + EscAttr(s[1..])
  }

  /** An escaped value stays inside its quotes. */
  lemma {:induction false} EscapedHasNoQuote(s: string)
    ensures forall c | c in EscAttr(s) :: c != '"'
  {
    if s != "" {
      EscapedHasNoQuote(s[1..]);
    }
  }

  /** How HTML reads an attribute value. */
  ghost function Unescaped(s: string): string {
    if s == "" then ""
    else if "&amp;" <= s then "&" + Unescaped(s[5..])
    else if "&quot;" <= s then "\"" + Unescaped(s[6..])
    else [s[0]] + Unescaped(s[1..])
  }

  lemma {:induction false} EscapedIsReadBack(s: string)
    ensures Unescaped(EscAttr(s)) == s
  {
    if s != "" {
      EscapedIsReadBack(s[1..]);
      var rest := EscAttr(s[1..]);
      hide EscAttr;
      if s[0] == '&' {
        assert ("&amp;" + rest)[..5] == "&amp;" && ("&amp;" + rest)[5..] == rest;
      } else if s[0] == '"' {
        assert ("&quot;" + rest)[..6] == "&quot;" && ("&quot;" + rest)[6..] == rest && ("&quot;" + rest)[1] == 'q';
      } else {
        assert ([s[0]] + rest)[0] == s[0] && ([s[0]] + rest)[1..] == rest;
      }
    }
  }

  function Attr(name: string, escaped: string): string {
    name + "=\"" + escaped + "\""
  }

  /** The attributes of a link, joined by blanks. */
  function Attrs(ref: DocRef): string {
    Attr("class", "doc-link") + (" " + (Attr("data-ref-type", ref.kind) + (" " + (Attr("data-ref-value", EscAttr(ref.value)) + EnvAttr(ref)))))
  }

  function EnvAttr(ref: DocRef): string {
    if ref.envType.Some? && ref.envType.value != "" then " " + Attr("data-env-type", ref.envType.value) else ""
  }

  function Render(piece: Piece): string {
    match piece
    case Kept(text) => text
    case Linked(ref, text) => "<span " + Attrs(ref) + ">" + text + "</span>"
  }

  function Rendered(pieces: seq<Piece>): string {
    if pieces == [] then "" else Rendered(pieces[..|pieces| - 1]) + Render(pieces[|pieces| - 1])
  }

  /** The result with the inserted spans taken away. */
  function Erased(pieces: seq<Piece>): string {
    if pieces == [] then "" else Erased(pieces[..|pieces| - 1]) + pieces[|pieces| - 1].text
  }

  lemma NothingAdded(x: string)
    ensures x + "" == x
  {
  }

  lemma RenderedMore(pieces: seq<Piece>, p: Piece)
    ensures Rendered(pieces + [p]) == Rendered(pieces) + Render(p)
  {
    assert (pieces + [p])[..|pieces|] == pieces;
  }

  lemma {:induction false} RenderedConcat(a: seq<Piece>, b: seq<Piece>)
    ensures Rendered(a + b) == Rendered(a) + Rendered(b)
    decreases |b|, 1
  {
    NothingRendered();
    hide Rendered, Render;
    if b == [] {
      assert a + b == a;
      NothingAdded(Rendered(a));
    } else {
      RenderedStep(a, b[..|b| - 1], b[|b| - 1]);
      assert b[..|b| - 1] + [b[|b| - 1]] == b;
    }
  }

  lemma RenderedStep(a: seq<Piece>, b: seq<Piece>, p: Piece)
    ensures Rendered(a + (b + [p])) == Rendered(a) + Rendered(b + [p])
    decreases |b|, 2
  {
    hide Rendered, Render;
    RenderedConcat(a, b);
    RenderedMore(b, p);
    RenderedMore(a + b, p);
    assert a + (b + [p]) == (a + b) + [p];
    Assoc(Rendered(a), Rendered(b), Render(p));
  }

  lemma ErasedMore(pieces: seq<Piece>, p: Piece)
    ensures Erased(pieces + [p]) == Erased(pieces) + p.text
  {
    assert (pieces + [p])[..|pieces|] == pieces;
  }

  lemma {:induction false} ErasedConcat(a: seq<Piece>, b: seq<Piece>)
    ensures Erased(a + b) == Erased(a) + Erased(b)
    decreases |b|, 1
  {
    NothingErased();
    hide Erased;
    if b == [] {
      assert a + b == a;
      NothingAdded(Erased(a));
    } else {
      ErasedStep(a, b[..|b| - 1], b[|b| - 1]);
      assert b[..|b| - 1] + [b[|b| - 1]] == b;
    }
  }

  lemma ErasedStep(a: seq<Piece>, b: seq<Piece>, p: Piece)
    ensures Erased(a + (b + [p])) == Erased(a) + Erased(b + [p])
    decreases |b|, 2
  {
    hide Erased;
    ErasedConcat(a, b);
    ErasedMore(b, p);
    ErasedMore(a + b, p);
    assert a + (b + [p]) == (a + b) + [p];
    Assoc(Erased(a), Erased(b), p.text);
  }

  function CursorAt(refs: seq<DocRef>, n: nat): nat
    requires n <= |refs|
  {
    if n == 0 then 0 else refs[n - 1].end
  }

  function KeptBetween(text: string, from: nat, to: nat): seq<Piece>
    requires to <= |text|
  {
    if from < to then [Kept(text[from..to])] else []
  }

  ghost predicate Linkable(text: string, refs: seq<DocRef>) {
    InOrder(refs) && Within(refs, text, 0, |text|)
  }

  lemma CursorFits(text: string, refs: seq<DocRef>, n: nat)
    requires Linkable(text, refs) && n < |refs|
    ensures CursorAt(refs, n) <= refs[n].start < refs[n].end <= |text|
  {
    assert Marks(refs[n], text);
    assert n > 0 ==> Before(refs[n - 1], refs[n]);
  }

  /** The text up to the end of its `n`th reference. */
  function WrappedTo(text: string, refs: seq<DocRef>, n: nat): seq<Piece>
    requires Linkable(text, refs) && n <= |refs|
  {
    if n == 0 then []
    else
      CursorFits(text, refs, n - 1);
      var ref := refs[n - 1];
      WrappedTo(text, refs, n - 1) + KeptBetween(text, CursorAt(refs, n - 1), ref.start) + [Linked(ref, text[ref.start..ref.end])]
  }

  function Wrapped(text: string, refs: seq<DocRef>): seq<Piece>
    requires Linkable(text, refs)
  {
    if refs == [] then [Kept(text)]
    else WrappedTo(text, refs, |refs|) + KeptBetween(text, CursorAt(refs, |refs|), |text|)
  }

  lemma KeptErased(text: string, from: nat, to: nat)
    requires from <= to <= |text|
    ensures Erased(KeptBetween(text, from, to)) == text[from..to]
  {
    if from < to {
      OnePiece(Kept(text[from..to]));
    }
  }

  lemma OnePiece(p: Piece)
    ensures Erased([p]) == p.text && Rendered([p]) == Render(p)
  {
    assert [p][..0] == [];
  }

  lemma {:induction false} WrappedToErased(text: string, refs: seq<DocRef>, n: nat)
    requires Linkable(text, refs) && n <= |refs|
    ensures CursorAt(refs, n) <= |text| && Erased(WrappedTo(text, refs, n)) == text[..CursorAt(refs, n)]
  {
    if n == 0 {
      NothingErased();
      assert text[..0] == "";
    } else {
      WrappedToErased(text, refs, n - 1);
      ErasedNext(text, refs, n - 1);
    }
  }

  lemma ErasedNext(text: string, refs: seq<DocRef>, i: nat)
    requires Linkable(text, refs) && i < |refs| && CursorAt(refs, i) <= |text|
    requires Erased(WrappedTo(text, refs, i)) == text[..CursorAt(refs, i)]
    ensures CursorAt(refs, i + 1) <= |text| && Erased(WrappedTo(text, refs, i + 1)) == text[..CursorAt(refs, i + 1)]
  {
    hide WrappedTo, Erased, KeptBetween, Linkable;
    WrappedToNext(text, refs, i);
    var ref, cursor := refs[i], CursorAt(refs, i);
    var before, kept, link := WrappedTo(text, refs, i), KeptBetween(text, cursor, ref.start), Linked(ref, text[ref.start..ref.end]);
    KeptErased(text, cursor, ref.start);
    ErasedConcat(before, kept);
    ErasedMore(before + kept, link);
    Slices(text, cursor, ref.start, ref.end);
  }

  lemma WrappedToNext(text: string, refs: seq<DocRef>, i: nat)
    requires Linkable(text, refs) && i < |refs|
    ensures CursorAt(refs, i) <= refs[i].start < refs[i].end <= |text|
    ensures WrappedTo(text, refs, i + 1)
         == WrappedTo(text, refs, i) + KeptBetween(text, CursorAt(refs, i), refs[i].start) + [Linked(refs[i], text[refs[i].start..refs[i].end])]
  {
    CursorFits(text, refs, i);
  }

  lemma Slices(text: string, a: nat, b: nat, c: nat)
    requires a <= b <= c <= |text|
    ensures text[..a] + text[a..b] + text[b..c] == text[..c]
  {
  }

  lemma WrappedErased(text: string, refs: seq<DocRef>)
    requires Linkable(text, refs)
    ensures Erased(Wrapped(text, refs)) == text
  {
    if refs == [] {
      OnePiece(Kept(text));
    } else {
      hide Erased, WrappedTo, KeptBetween, Linkable;
      var cursor := CursorAt(refs, |refs|);
      WrappedToErased(text, refs, |refs|);
      KeptErased(text, cursor, |text|);
      ErasedConcat(WrappedTo(text, refs, |refs|), KeptBetween(text, cursor, |text|));
      CutInTwo(text, cursor);
    }
  }

  lemma CutInTwo(text: string, cursor: nat)
    requires cursor <= |text|
    ensures text[..cursor] + text[cursor..|text|] == text
  {
  }

  // ---------- the whole pass ----------

  /** What the patterns match in a text. */
  type Finder = string -> seq<seq<Match>>

  ghost predicate Finds(find: Finder) {
    forall text :: FoundIn(find(text), text)
  }

  function PiecesOf(parts: seq<Part>, k: nat, find: Finder): seq<Piece>
    requires k < |parts| && Finds(find)
  {
    var part := parts[k];
    if part.Tag? || DepthAt(parts, k) > 0 then [Kept(part.text)]
    else
      RefsInOrder(part.text, find(part.text));
      Wrapped(part.text, Refs(part.text, find(part.text)))
  }

  function PiecesTo(parts: seq<Part>, n: nat, find: Finder): seq<Piece>
    requires n <= |parts| && Finds(find)
  {
    if n == 0 then [] else PiecesTo(parts, n - 1, find) + PiecesOf(parts, n - 1, find)
  }

  function Pieces(html: string, find: Finder): seq<Piece>
    requires Finds(find)
  {
    PiecesTo(PartsOf(html, 0), |PartsOf(html, 0)|, find)
  }

  lemma RenderedKept(pieces: seq<Piece>, text: string, from: nat, to: nat)
    requires from <= to <= |text|
    ensures Rendered(pieces + KeptBetween(text, from, to)) == Rendered(pieces) + text[from..to]
  {
    if from < to {
      RenderedMore(pieces, Kept(text[from..to]));
    } else {
      assert pieces + [] == pieces;
    }
  }

  /** One reference further. */
  lemma WrapStep(text: string, refs: seq<DocRef>, i: nat)
    requires Linkable(text, refs) && i < |refs|
    ensures CursorAt(refs, i) <= refs[i].start < refs[i].end <= |text|
    ensures Rendered(WrappedTo(text, refs, i + 1))
         == Rendered(WrappedTo(text, refs, i)) + text[CursorAt(refs, i)..refs[i].start] + Render(Linked(refs[i], text[refs[i].start..refs[i].end]))
  {
    hide Rendered, Linkable, Render, KeptBetween;
    CursorFits(text, refs, i);
    RenderedKept(WrappedTo(text, refs, i), text, CursorAt(refs, i), refs[i].start);
    RenderedMore(WrappedTo(text, refs, i) + KeptBetween(text, CursorAt(refs, i), refs[i].start), Linked(refs[i], text[refs[i].start..refs[i].end]));
  }

  lemma WrapStarts(text: string, refs: seq<DocRef>)
    requires Linkable(text, refs)
    ensures Rendered(WrappedTo(text, refs, 0)) == ""
    ensures refs == [] ==> Rendered(Wrapped(text, refs)) == text
  {
    if refs == [] {
      OnePiece(Kept(text));
    }
  }

  lemma WrapEnds(text: string, refs: seq<DocRef>)
    requires Linkable(text, refs) && refs != []
    ensures CursorAt(refs, |refs|) <= |text|
    ensures Rendered(Wrapped(text, refs)) == Rendered(WrappedTo(text, refs, |refs|)) + text[CursorAt(refs, |refs|)..]
  {
    hide Rendered, Render, KeptBetween;
    CursorFits(text, refs, |refs| - 1);
    var cursor := CursorAt(refs, |refs|);
    RenderedKept(WrappedTo(text, refs, |refs|), text, cursor, |text|);
    assert text[cursor..] == text[cursor..|text|];
  }

  method WrapText(text: string, refs: seq<DocRef>) returns (out: string)
    requires Linkable(text, refs)
    ensures out == Rendered(Wrapped(text, refs))
  {
    hide Rendered, Linkable, Render, Wrapped, WrappedTo;
    WrapStarts(text, refs);
    if |refs| == 0 {
      return text;
    }
    WrapEnds(text, refs);
    out := "";
    var cursor := 0;
    for i := 0 to |refs|
      invariant cursor == CursorAt(refs, i) <= |text|
      invariant out == Rendered(WrappedTo(text, refs, i))
    {
      var ref := refs[i];
      WrapStep(text, refs, i);
      if ref.start > cursor {
        out := out + text[cursor..ref.start];
      }
      out := out + Render(Linked(ref, text[ref.start..ref.end]));
      cursor := ref.end;
    }
    if cursor < |text| {
      out := out + text[cursor..];
    }
  }

  method LinkifyDocRefs(html: string, find: Finder) returns (out: string)
    requires Finds(find)
    ensures out == Rendered(Pieces(html, find))
  {
    hide Wrapped, Refs, Rendered, StepDepth;
    var parts := SplitTags(html);
    var skipDepth := 0;
    out := "";
    assert out == Rendered([]) by {
      NothingRendered();
    }
    for k := 0 to |parts|
      invariant skipDepth == DepthAt(parts, k)
      invariant out == Rendered(PiecesTo(parts, k, find))
    {
      var part := parts[k];
      RenderedConcat(PiecesTo(parts, k, find), PiecesOf(parts, k, find));
      OnePiece(Kept(part.text));
      if part.Tag? {
        skipDepth := StepDepth(skipDepth, part.text);
        out := out + part.text;
        continue;
      }
      if skipDepth > 0 {
        out := out + part.text;
        continue;
      }
      RefsInOrder(part.text, find(part.text));
      var refs := FindRefs(part.text, find(part.text));
      var wrapped := WrapText(part.text, refs);
      out := out + wrapped;
    }
  }

  lemma NothingErased()
    ensures Erased([]) == ""
  {
  }

  lemma NothingRendered()
    ensures Rendered([]) == ""
  {
  }

  /** Taking the inserted spans away gives the HTML back. */
  lemma ErasingGivesBack(html: string, find: Finder)
    requires Finds(find)
    ensures Erased(Pieces(html, find)) == html
  {
    var parts := PartsOf(html, 0);
    PartsCover(html, 0);
    ErasedTo(html, parts, |parts|, find);
    assert html[..|html|] == html;
  }

  lemma PiecesErased(parts: seq<Part>, k: nat, find: Finder)
    requires k < |parts| && Finds(find)
    ensures Erased(PiecesOf(parts, k, find)) == parts[k].text
  {
    var part := parts[k];
    if part.Tag? || DepthAt(parts, k) > 0 {
      OnePiece(Kept(part.text));
    } else {
      RefsInOrder(part.text, find(part.text));
      WrappedErased(part.text, Refs(part.text, find(part.text)));
    }
  }

  lemma PartText(html: string, parts: seq<Part>, k: nat)
    requires Placed(html, parts, 0) && k < |parts|
    ensures Offset(parts, k) <= Offset(parts, k + 1) <= |html| && html[Offset(parts, k)..Offset(parts, k + 1)] == parts[k].text
  {
    assert IsPart(html, parts[k], 0 + Offset(parts, k));
  }

  lemma {:induction false} ErasedTo(html: string, parts: seq<Part>, n: nat, find: Finder)
    requires n <= |parts| && Finds(find)
    requires Placed(html, parts, 0)
    ensures Offset(parts, n) <= |html| && Erased(PiecesTo(parts, n, find)) == html[..Offset(parts, n)]
  {
    hide PiecesOf, Erased, Placed;
    NothingErased();
    if n > 0 {
      ErasedTo(html, parts, n - 1, find);
      PiecesErased(parts, n - 1, find);
      ErasedConcat(PiecesTo(parts, n - 1, find), PiecesOf(parts, n - 1, find));
      PartText(html, parts, n - 1);
      Slices(html, 0, Offset(parts, n - 1), Offset(parts, n));
    }
  }

  // ---------- where spans go ----------

  /** A place in the HTML where the pass may insert a span: in text, with the skip counter at zero. */
  ghost predicate OpenText(parts: seq<Part>, start: nat, end: nat) {
    exists k | 0 <= k < |parts| ::
      parts[k].Chars? && DepthAt(parts, k) == 0 && Offset(parts, k) <= start && end <= Offset(parts, k + 1)
  }

  /** Where a piece of the result comes from in the HTML. */
  function PieceStart(pieces: seq<Piece>, p: nat): nat
    requires p <= |pieces|
  {
    |Erased(pieces[..p])|
  }

  /** Every span inserted is around a stretch of one text part with the skip counter at zero: never in a tag, and
      never while the counter is positive. */
  lemma {:induction false} SpansInOpenText(html: string, parts: seq<Part>, n: nat, find: Finder, p: nat)
    requires n <= |parts| && Finds(find) && Placed(html, parts, 0)
    requires p < |PiecesTo(parts, n, find)| && PiecesTo(parts, n, find)[p].Linked?
    ensures var pieces := PiecesTo(parts, n, find);
            OpenText(parts, PieceStart(pieces, p), PieceStart(pieces, p) + |pieces[p].text|)
  {
    hide PiecesOf, Erased, Placed;
    var before, last := PiecesTo(parts, n - 1, find), PiecesOf(parts, n - 1, find);
    if p < |before| {
      assert (before + last)[..p] == before[..p];
      SpansInOpenText(html, parts, n - 1, find, p);
    } else {
      var q := p - |before|;
      assert (before + last)[..p] == before + last[..q];
      ErasedConcat(before, last[..q]);
      ErasedTo(html, parts, n - 1, find);
      PiecesErased(parts, n - 1, find);
      OnlyOpenTextLinks(parts, n - 1, find, q);
      ErasedPrefix(last, q);
      PartText(html, parts, n - 1);
    }
  }

  lemma OnlyOpenTextLinks(parts: seq<Part>, k: nat, find: Finder, q: nat)
    requires k < |parts| && Finds(find) && q < |PiecesOf(parts, k, find)| && PiecesOf(parts, k, find)[q].Linked?
    ensures parts[k].Chars? && DepthAt(parts, k) == 0
  {
  }

  lemma ErasedPrefix(pieces: seq<Piece>, q: nat)
    requires q < |pieces|
    ensures |Erased(pieces[..q])| + |pieces[q].text| <= |Erased(pieces)|
  {
    hide Erased;
    ErasedConcat(pieces[..q + 1], pieces[q + 1..]);
    assert pieces[..q + 1] + pieces[q + 1..] == pieces;
    ErasedMore(pieces[..q], pieces[q]);
    assert pieces[..q] + [pieces[q]] == pieces[..q + 1];
  }

  /** The first attribute of a tag as HTML reads it, a name and a value in quotes, and where it ends. */
  ghost function ReadAttr(s: string): (r: Option<((string, string), nat)>)
    ensures r.Some? ==> 0 < r.value.1 <= |s|
  {
    var eq := IndexOfChar(s, '=', 0);
    if eq == -1 || eq + 1 >= |s| || s[eq + 1] != '"' then None
    else
      var close := IndexOfChar(s, '"', eq + 2);
      if close == -1 then None else Some(((s[..eq], Unescaped(s[eq + 2..close])), close + 1))
  }

  /** Attributes parted by blanks. */
  ghost function ReadAttrs(s: string): Option<seq<(string, string)>>
    decreases |s|
  {
    match ReadAttr(s)
    case None => None
    case Some((one, end)) =>
      if end == |s| then Some([one])
      else if s[end] != ' ' then None
      else
        match ReadAttrs(s[end + 1..])
        case None => None
        case Some(rest) => Some([one] + rest)
  }

  lemma LastAttrIsRead(name: string, escaped: string)
    requires '=' !in name && '"' !in escaped
    ensures ReadAttrs(Attr(name, escaped)) == Some([(name, Unescaped(escaped))])
  {
    OneAttr(Attr(name, escaped), name, escaped);
    hide ReadAttr;
  }

  lemma AttrIsRead(name: string, escaped: string, rest: string)
    requires '=' !in name && '"' !in escaped && ReadAttrs(rest).Some?
    ensures ReadAttrs(Attr(name, escaped) + (" " + rest)) == Some([(name, Unescaped(escaped))] + ReadAttrs(rest).value)
  {
    hide ReadAttr, Unescaped;
    var s, n := Attr(name, escaped) + (" " + rest), |name| + |escaped| + 3;
    AttrThen(Attr(name, escaped), rest, s);
    assert |Attr(name, escaped)| == n;
    hide Attr;
    OneAttr(s, name, escaped);
  }

  lemma AttrThen(attr: string, rest: string, s: string)
    requires s == attr + (" " + rest)
    ensures |s| == |attr| + 1 + |rest| && s[..|attr|] == attr && s[|attr|] == ' ' && s[|attr| + 1..] == rest
  {
  }

  lemma OneAttr(s: string, name: string, escaped: string)
    requires '=' !in name && '"' !in escaped && |s| >= |name| + |escaped| + 3 && s[..|name| + |escaped| + 3] == Attr(name, escaped)
    ensures ReadAttr(s) == Some(((name, Unescaped(escaped)), |name| + |escaped| + 3))
  {
    hide *;
    var eq, close := |name|, |name| + 2 + |escaped|;
    AttrName(s, name, escaped);
    AttrValue(s, name, escaped);
    assert eq + 1 < |s| && s[..eq] == name && s[eq + 2..close] == escaped;
    ReadAttrIs(s, eq, close);
  }

  lemma ReadAttrIs(s: string, eq: nat, close: nat)
    requires IndexOfChar(s, '=', 0) == eq && eq + 1 < |s| && s[eq + 1] == '"' && IndexOfChar(s, '"', eq + 2) == close
    ensures eq + 2 <= close < |s| && ReadAttr(s) == Some(((s[..eq], Unescaped(s[eq + 2..close])), close + 1))
  {
    hide IndexOfChar, Unescaped;
  }

  lemma AttrName(s: string, name: string, escaped: string)
    requires '=' !in name && |s| >= |name| + |escaped| + 3 && s[..|name| + |escaped| + 3] == Attr(name, escaped)
    ensures IndexOfChar(s, '=', 0) == |name| && s[..|name|] == name && s[|name| + 1] == '"'
  {
    var a := Attr(name, escaped);
    assert forall k | 0 <= k < |name| :: s[k] == a[k] == name[k];
    assert s[|name|] == a[|name|] == '=' && s[|name| + 1] == a[|name| + 1] == '"';
    FirstChar(s, '=', 0, |name|);
  }

  lemma AttrValue(s: string, name: string, escaped: string)
    requires '"' !in escaped && |s| >= |name| + |escaped| + 3 && s[..|name| + |escaped| + 3] == Attr(name, escaped)
    ensures var n := |name| + 2; IndexOfChar(s, '"', n) == n + |escaped| && s[n..n + |escaped|] == escaped
  {
    var a, n := Attr(name, escaped), |name| + 2;
    AttrParts(name, escaped);
    hide Attr;
    assert s[n..n + |escaped|] == a[n..n + |escaped|] && s[n + |escaped|] == a[n + |escaped|];
    forall k | n <= k < n + |escaped| ensures s[k] != '"' {
      assert s[n..n + |escaped|][k - n] == s[k];
    }
    FirstChar(s, '"', n, n + |escaped|);
  }

  lemma AttrParts(name: string, escaped: string)
    ensures var a, n := Attr(name, escaped), |name| + 2;
      |a| == n + |escaped| + 1 && a[n..n + |escaped|] == escaped && a[n + |escaped|] == '"'
  {
    assert Attr(name, escaped) == name + "=\"" + (escaped + "\"");
  }

  lemma FirstChar(s: string, c: char, from: nat, i: nat)
    requires from <= i < |s| && s[i] == c && forall k | from <= k < i :: s[k] != c
    ensures IndexOfChar(s, c, from) == i
  {
  }

  /** A word that stands for itself between quotes. */
  ghost predicate Plain(s: string) {
    '"' !in s && '&' !in s
  }

  lemma {:induction false} PlainIsItself(s: string)
    requires Plain(s)
    ensures Unescaped(s) == s
  {
    if s != "" {
      assert s[0] in s;
      PlainIsItself(s[1..]);
    }
  }

  /** A link says what it links to: read as HTML it has the reference's kind and value, and the environment if there
      is one. */
  lemma LinkSays(ref: DocRef, text: string) returns (attrs: string)
    requires Plain(ref.kind) && (ref.envType.Some? ==> Plain(ref.envType.value))
    ensures Render(Linked(ref, text)) == "<span " + attrs + ">" + text + "</span>"
    ensures ReadAttrs(attrs) == Some([("class", "doc-link"), ("data-ref-type", ref.kind), ("data-ref-value", ref.value)]
      + if ref.envType.Some? && ref.envType.value != "" then [("data-env-type", ref.envType.value)] else [])
  {
    attrs := Attrs(ref);
    AttrsSay(ref);
    hide Attrs;
  }

  lemma AttrsSay(ref: DocRef)
    requires Plain(ref.kind) && (ref.envType.Some? ==> Plain(ref.envType.value))
    ensures ReadAttrs(Attrs(ref)) == Some([("class", "doc-link"), ("data-ref-type", ref.kind), ("data-ref-value", ref.value)]
      + if ref.envType.Some? && ref.envType.value != "" then [("data-env-type", ref.envType.value)] else [])
  {
    PlainWords(ref);
    hide *;
    PlainIsItself("doc-link");
    PlainIsItself(ref.kind);
    ValueAndEnv(ref);
    AttrsAre(ref);
    var value := Attr("data-ref-value", EscAttr(ref.value)) + EnvAttr(ref);
    var env := if ref.envType.Some? && ref.envType.value != "" then [("data-env-type", ref.envType.value)] else [];
    AttrIsRead("data-ref-type", ref.kind, value);
    AttrIsRead("class", "doc-link", Attr("data-ref-type", ref.kind) + (" " + value));
    InOneList(("class", "doc-link"), ("data-ref-type", ref.kind), ("data-ref-value", ref.value), env);
  }

  lemma PlainWords(ref: DocRef)
    ensures Plain("doc-link") && '=' !in "class" && '=' !in "data-ref-type" && (Plain(ref.kind) ==> '"' !in ref.kind)
  {
  }

  lemma AttrsAre(ref: DocRef)
    ensures Attrs(ref) == Attr("class", "doc-link") + (" " + (Attr("data-ref-type", ref.kind) + (" "
      + (Attr("data-ref-value", EscAttr(ref.value)) + EnvAttr(ref)))))
  {
    hide Attr, EscAttr, EnvAttr;
  }

  lemma InOneList<T>(a: T, b: T, c: T, rest: seq<T>)
    ensures [a] + ([b] + ([c] + rest)) == [a, b, c] + rest
  {
  }

  lemma ValueAndEnv(ref: DocRef)
    requires ref.envType.Some? ==> Plain(ref.envType.value)
    ensures ReadAttrs(Attr("data-ref-value", EscAttr(ref.value)) + EnvAttr(ref)) == Some([("data-ref-value", ref.value)]
      + if ref.envType.Some? && ref.envType.value != "" then [("data-env-type", ref.envType.value)] else [])
  {
    EscapedIsReadBack(ref.value);
    EscapedHasNoQuote(ref.value);
    hide ReadAttrs, Unescaped, EscAttr, Attr;
    if ref.envType.Some? && ref.envType.value != "" {
      PlainIsItself(ref.envType.value);
      LastAttrIsRead("data-env-type", ref.envType.value);
      AttrIsRead("data-ref-value", EscAttr(ref.value), Attr("data-env-type", ref.envType.value));
    } else {
      LastAttrIsRead("data-ref-value", EscAttr(ref.value));
      NothingAdded(Attr("data-ref-value", EscAttr(ref.value)));
      assert [("data-ref-value", ref.value)] + [] == [("data-ref-value", ref.value)];
    }
  }

  lemma ErasedThrough(a: seq<Piece>, b: seq<Piece>, p: nat)
    requires p < |b|
    ensures (a + b)[|a| + p] == b[p] && PieceStart(a + b, |a| + p) == |Erased(a)| + PieceStart(b, p)
  {
    assert (a + b)[..|a| + p] == a + b[..p];
    hide Erased;
    ErasedConcat(a, b[..p]);
  }

  lemma ErasedBefore(a: seq<Piece>, b: seq<Piece>, p: nat)
    requires p < |a|
    ensures (a + b)[p] == a[p] && PieceStart(a + b, p) == PieceStart(a, p)
  {
    assert (a + b)[..p] == a[..p];
  }

  /** Each reference of a text has its link, where it stands in the text. */
  lemma {:induction false} LinkOf(text: string, refs: seq<DocRef>, n: nat, i: nat) returns (p: nat)
    requires Linkable(text, refs) && i < n <= |refs|
    ensures refs[i].start < refs[i].end <= |text|
    ensures p < |WrappedTo(text, refs, n)| && WrappedTo(text, refs, n)[p] == Linked(refs[i], text[refs[i].start..refs[i].end])
    ensures PieceStart(WrappedTo(text, refs, n), p) == refs[i].start
  {
    hide WrappedTo, Linkable, Erased, PieceStart, KeptBetween;
    WrappedToNext(text, refs, n - 1);
    var before, kept := WrappedTo(text, refs, n - 1), KeptBetween(text, CursorAt(refs, n - 1), refs[n - 1].start);
    var link := [Linked(refs[n - 1], text[refs[n - 1].start..refs[n - 1].end])];
    if i < n - 1 {
      p := LinkOf(text, refs, n - 1, i);
      ErasedBefore(before, kept, p);
      ErasedBefore(before + kept, link, p);
    } else {
      p := |before + kept|;
      WrappedToErased(text, refs, n - 1);
      KeptErased(text, CursorAt(refs, n - 1), refs[n - 1].start);
      ErasedConcat(before, kept);
      ErasedThrough(before + kept, link, 0);
      StartsAtZero(link);
    }
  }

  lemma StartsAtZero(pieces: seq<Piece>)
    ensures PieceStart(pieces, 0) == 0
  {
    assert pieces[..0] == [];
  }

  /** Each link of a text is one of its references, where it stands in the text. */
  lemma {:induction false} LinkIsOf(text: string, refs: seq<DocRef>, n: nat, p: nat) returns (i: nat)
    requires Linkable(text, refs) && 0 < n <= |refs| && p < |WrappedTo(text, refs, n)| && WrappedTo(text, refs, n)[p].Linked?
    ensures i < n && refs[i].start < refs[i].end <= |text|
    ensures WrappedTo(text, refs, n)[p] == Linked(refs[i], text[refs[i].start..refs[i].end])
    ensures PieceStart(WrappedTo(text, refs, n), p) == refs[i].start
  {
    hide WrappedTo, Linkable, Erased, PieceStart, KeptBetween;
    WrappedToNext(text, refs, n - 1);
    var before, kept := WrappedTo(text, refs, n - 1), KeptBetween(text, CursorAt(refs, n - 1), refs[n - 1].start);
    var link := [Linked(refs[n - 1], text[refs[n - 1].start..refs[n - 1].end])];
    if p < |before| {
      SomeWrapped(text, refs, n - 1);
      i := LinkIsOf(text, refs, n - 1, p);
      ErasedBefore(before, kept, p);
      ErasedBefore(before + kept, link, p);
    } else {
      i := n - 1;
      KeptNoLink(text, CursorAt(refs, n - 1), refs[n - 1].start);
      assert p == |before + kept|;
      WrappedToErased(text, refs, n - 1);
      KeptErased(text, CursorAt(refs, n - 1), refs[n - 1].start);
      ErasedConcat(before, kept);
      ErasedThrough(before + kept, link, 0);
      StartsAtZero(link);
    }
  }

  lemma SomeWrapped(text: string, refs: seq<DocRef>, n: nat)
    requires Linkable(text, refs) && n <= |refs| && WrappedTo(text, refs, n) != []
    ensures n > 0
  {
  }

  /** The references found in a text part. */
  function RefsOf(parts: seq<Part>, k: nat, find: Finder): (refs: seq<DocRef>)
    requires k < |parts| && Finds(find)
    ensures Linkable(parts[k].text, refs)
  {
    RefsInOrder(parts[k].text, find(parts[k].text));
    Refs(parts[k].text, find(parts[k].text))
  }

  lemma RefsFit(parts: seq<Part>, k: nat, find: Finder, i: nat)
    requires k < |parts| && Finds(find) && i < |RefsOf(parts, k, find)|
    ensures var r := RefsOf(parts, k, find)[i]; r.start < r.end <= |parts[k].text| && r.text == parts[k].text[r.start..r.end]
  {
    assert Marks(RefsOf(parts, k, find)[i], parts[k].text);
  }

  lemma PiecesOfText(parts: seq<Part>, k: nat, find: Finder)
    requires k < |parts| && Finds(find) && parts[k].Chars? && DepthAt(parts, k) == 0
    ensures var text, refs := parts[k].text, RefsOf(parts, k, find);
      PiecesOf(parts, k, find) == if refs == [] then [Kept(text)] else WrappedTo(text, refs, |refs|) + KeptBetween(text, CursorAt(refs, |refs|), |text|)
  {
    hide WrappedTo, KeptBetween, DepthAt;
  }

  /** Every reference of a text part the counter lets through gets its link: around the text it marks, where it stands
      in the HTML. */
  lemma {:induction false} EveryReferenceIsLinked(html: string, parts: seq<Part>, n: nat, find: Finder, k: nat, i: nat) returns (p: nat)
    requires k < n <= |parts| && Finds(find) && Placed(html, parts, 0) && parts[k].Chars? && DepthAt(parts, k) == 0
    requires i < |RefsOf(parts, k, find)|
    ensures var r := RefsOf(parts, k, find)[i];
      && p < |PiecesTo(parts, n, find)| && PiecesTo(parts, n, find)[p] == Linked(r, r.text)
      && PieceStart(PiecesTo(parts, n, find), p) == Offset(parts, k) + r.start
  {
    hide PiecesOf, Erased, Placed, PieceStart, RefsOf, DepthAt, Offset;
    var before, last := PiecesTo(parts, n - 1, find), PiecesOf(parts, n - 1, find);
    if k < n - 1 {
      p := EveryReferenceIsLinked(html, parts, n - 1, find, k, i);
      ErasedBefore(before, last, p);
    } else {
      var q := LinkInPart(parts, k, find, i);
      p := |before| + q;
      ErasedThrough(before, last, q);
      ErasedTo(html, parts, k, find);
    }
  }

  lemma LinkInPart(parts: seq<Part>, k: nat, find: Finder, i: nat) returns (q: nat)
    requires k < |parts| && Finds(find) && parts[k].Chars? && DepthAt(parts, k) == 0 && i < |RefsOf(parts, k, find)|
    ensures var r := RefsOf(parts, k, find)[i];
      q < |PiecesOf(parts, k, find)| && PiecesOf(parts, k, find)[q] == Linked(r, r.text) && PieceStart(PiecesOf(parts, k, find), q) == r.start
  {
    hide PiecesOf, Erased, PieceStart, RefsOf, DepthAt, WrappedTo, KeptBetween, Linkable, CursorAt;
    var text, refs := parts[k].text, RefsOf(parts, k, find);
    PiecesOfText(parts, k, find);
    RefsFit(parts, k, find, i);
    q := LinkOf(text, refs, |refs|, i);
    ErasedBefore(WrappedTo(text, refs, |refs|), KeptBetween(text, CursorAt(refs, |refs|), |text|), q);
  }

  /** And nothing else does. */
  lemma {:induction false} LinksAreReferences(html: string, parts: seq<Part>, n: nat, find: Finder, p: nat) returns (k: nat, i: nat)
    requires n <= |parts| && Finds(find) && Placed(html, parts, 0)
    requires p < |PiecesTo(parts, n, find)| && PiecesTo(parts, n, find)[p].Linked?
    ensures k < n && parts[k].Chars? && DepthAt(parts, k) == 0 && i < |RefsOf(parts, k, find)|
    ensures var r := RefsOf(parts, k, find)[i];
      && PiecesTo(parts, n, find)[p] == Linked(r, r.text)
      && PieceStart(PiecesTo(parts, n, find), p) == Offset(parts, k) + r.start
  {
    hide PiecesOf, Erased, Placed, PieceStart, RefsOf, DepthAt, Offset;
    var before, last := PiecesTo(parts, n - 1, find), PiecesOf(parts, n - 1, find);
    if p < |before| {
      k, i := LinksAreReferences(html, parts, n - 1, find, p);
      ErasedBefore(before, last, p);
    } else {
      k := n - 1;
      i := ReferenceInPart(parts, k, find, p - |before|);
      ErasedThrough(before, last, p - |before|);
      ErasedTo(html, parts, k, find);
    }
  }

  lemma ReferenceInPart(parts: seq<Part>, k: nat, find: Finder, q: nat) returns (i: nat)
    requires k < |parts| && Finds(find) && q < |PiecesOf(parts, k, find)| && PiecesOf(parts, k, find)[q].Linked?
    ensures parts[k].Chars? && DepthAt(parts, k) == 0 && i < |RefsOf(parts, k, find)|
    ensures var r := RefsOf(parts, k, find)[i];
      PiecesOf(parts, k, find)[q] == Linked(r, r.text) && PieceStart(PiecesOf(parts, k, find), q) == r.start
  {
    OnlyOpenTextLinks(parts, k, find, q);
    hide PiecesOf, Erased, PieceStart, RefsOf, DepthAt, WrappedTo, KeptBetween, Linkable, CursorAt;
    var text, refs := parts[k].text, RefsOf(parts, k, find);
    PiecesOfText(parts, k, find);
    var links, rest := WrappedTo(text, refs, |refs|), KeptBetween(text, CursorAt(refs, |refs|), |text|);
    KeptNoLink(text, CursorAt(refs, |refs|), |text|);
    assert refs != [] && q < |links|;
    i := LinkIsOf(text, refs, |refs|, q);
    RefsFit(parts, k, find, i);
    ErasedBefore(links, rest, q);
  }

  lemma KeptNoLink(text: string, from: nat, to: nat)
    requires to <= |text|
    ensures forall p | 0 <= p < |KeptBetween(text, from, to)| :: KeptBetween(text, from, to)[p].Kept?
  {
  }

  // ---------- does the counter track the elements it means to skip? ----------

  datatype Element = Skipped(name: string) | Span(chip: bool)

  function Name(e: Element): string {
    match e case Skipped(name) => name case Span(_) => "span"
  }

  predicate IsSkipped(e: Element) {
    e.Skipped? || e.chip
  }

  /** The element this tag opens, if the counter looks at it at all. */
  function Opened(tag: string): Option<Element> {
    if Opens(tag, "a") then Some(Skipped("a"))
    else if Opens(tag, "code") then Some(Skipped("code"))
    else if Opens(tag, "pre") then Some(Skipped("pre"))
    else if Opens(tag, "span") then Some(Span(SpanSkipOpen(tag)))
    else None
  }

  function Closed(tag: string): Option<string> {
    if Closes(tag, "a") then Some("a")
    else if Closes(tag, "code") then Some("code")
    else if Closes(tag, "pre") then Some("pre")
    else if Closes(tag, "span") then Some("span")
    else None
  }

  /** The elements open before part `k`, or nothing if a tag closed an element that was not the innermost. */
  function OpenAt(parts: seq<Part>, k: nat): Option<seq<Element>>
    requires k <= |parts|
  {
    if k == 0 then Some([])
    else
      var before := OpenAt(parts, k - 1);
      if before.None? || parts[k - 1].Chars? then before
      else
        var tag := parts[k - 1].text;
        if Opened(tag).Some? then Some(before.value + [Opened(tag).value])
        else if Closed(tag).None? then before
        else if before.value != [] && Name(before.value[|before.value| - 1]) == Closed(tag).value
        then Some(before.value[..|before.value| - 1])
        else None
  }

  /** How many elements are open from the outermost skipped one on; zero outside all of them. */
  function Above(open: seq<Element>): nat {
    if open == [] then 0
    else
      var before := Above(open[..|open| - 1]);
      if before > 0 then before + 1 else if IsSkipped(open[|open| - 1]) then 1 else 0
  }

  /** How often, before part `k`, a link, code or preformatted element was opened inside a skipped one. */
  function Nested(parts: seq<Part>, k: nat): nat
    requires k <= |parts| && OpenAt(parts, k).Some?
  {
    if k == 0 then 0
    else if parts[k - 1].Tag? && SkipOpen(parts[k - 1].text) && Above(OpenAt(parts, k - 1).value) > 0
    then Nested(parts, k - 1) + 1
    else Nested(parts, k - 1)
  }

  lemma TagIsOneThing(tag: string)
    ensures SkipOpen(tag) <==> Opened(tag).Some? && Opened(tag).value.Skipped?
    ensures SpanOpen(tag) <==> Opened(tag).Some? && Opened(tag).value.Span?
    ensures SpanSkipOpen(tag) <==> Opened(tag).Some? && Opened(tag).value.Span? && Opened(tag).value.chip
    ensures SkipClose(tag) <==> Closed(tag).Some?
    ensures Opened(tag).Some? ==> Closed(tag).None?
  {
    if SpanSkipOpen(tag) {
      assert Opens(tag, "span");
    }
    if Opens(tag, "span") {
      assert StartsWith(tag, "<span") && Lower(tag[1]) == "<span"[1];
    }
    if Opens(tag, "a") {
      assert StartsWith(tag, "<a") && Lower(tag[1]) == "<a"[1];
    }
    if Opens(tag, "code") {
      assert StartsWith(tag, "<code") && Lower(tag[1]) == "<code"[1];
    }
    if Opens(tag, "pre") {
      assert StartsWith(tag, "<pre") && Lower(tag[1]) == "<pre"[1];
    }
    if Closed(tag).Some? {
      assert StartsWith(tag, "</" + Closed(tag).value + ">") && Lower(tag[1]) == ("</" + Closed(tag).value + ">")[1];
    }
  }

  lemma AbovePush(open: seq<Element>, e: Element)
    ensures Above(open + [e]) == if Above(open) > 0 then Above(open) + 1 else if IsSkipped(e) then 1 else 0
  {
    assert (open + [e])[..|open|] == open;
  }

  /** As long as the counter stays positive inside skipped elements, it is their depth less the elements nested in
      them that it missed; and none was missed once they are all closed. */
  lemma {:induction false} CounterWhileSafe(parts: seq<Part>, k: nat)
    requires k <= |parts| && OpenAt(parts, k).Some?
    requires forall j | 0 <= j < k && OpenAt(parts, j).Some? && Above(OpenAt(parts, j).value) > 0 :: DepthAt(parts, j) > 0
    ensures Above(OpenAt(parts, k).value) == 0 ==> DepthAt(parts, k) == 0 && Nested(parts, k) == 0
    ensures Above(OpenAt(parts, k).value) > 0 ==> DepthAt(parts, k) == Above(OpenAt(parts, k).value) - Nested(parts, k)
  {
    if k > 0 {
      CounterWhileSafe(parts, k - 1);
      if parts[k - 1].Tag? {
        OneTag(parts, k - 1);
      }
    }
  }

  lemma OneTag(parts: seq<Part>, k: nat)
    requires k < |parts| && parts[k].Tag? && OpenAt(parts, k + 1).Some?
    requires var above := Above(OpenAt(parts, k).value);
             && (above == 0 ==> DepthAt(parts, k) == 0 && Nested(parts, k) == 0)
             && (above > 0 ==> DepthAt(parts, k) == above - Nested(parts, k) > 0)
    ensures var above := Above(OpenAt(parts, k + 1).value);
            && (above == 0 ==> DepthAt(parts, k + 1) == 0 && Nested(parts, k + 1) == 0)
            && (above > 0 ==> DepthAt(parts, k + 1) == above - Nested(parts, k + 1))
  {
    hide Opened, Closed, SkipOpen, SpanOpen, SpanSkipOpen, SkipClose;
    var tag, open := parts[k].text, OpenAt(parts, k).value;
    TagIsOneThing(tag);
    if Opened(tag).Some? {
      AbovePush(open, Opened(tag).value);
    }
  }

  lemma {:induction false} NestedGrows(parts: seq<Part>, j: nat, k: nat)
    requires j <= k <= |parts| && OpenAt(parts, k).Some?
    ensures OpenAt(parts, j).Some? && Nested(parts, j) <= Nested(parts, k)
  {
    if j < k {
      NestedGrows(parts, j, k - 1);
    }
  }

  /** The counter is positive in every skipped element. */
  ghost predicate SkipsAll(parts: seq<Part>) {
    forall j | 0 <= j <= |parts| && OpenAt(parts, j).Some? && Above(OpenAt(parts, j).value) > 0 :: DepthAt(parts, j) > 0
  }

  /** For well-nested HTML with everything closed, the pass leaves all links, code, preformatted text and chips
      alone exactly when no link, code or preformatted element is nested inside a skipped one. */
  lemma SkipsAllIff(parts: seq<Part>)
    requires OpenAt(parts, |parts|) == Some([])
    ensures SkipsAll(parts) <==> Nested(parts, |parts|) == 0
  {
    if SkipsAll(parts) {
      CounterWhileSafe(parts, |parts|);
    }
    if Nested(parts, |parts|) == 0 {
      forall j | 0 <= j <= |parts| && OpenAt(parts, j).Some? && Above(OpenAt(parts, j).value) > 0
        ensures DepthAt(parts, j) > 0
      {
        NestedGrows(parts, j, |parts|);
        CounterExact(parts, j);
      }
    }
  }

  lemma NothingOpen()
    ensures Above([]) == 0
  {
  }

  /** Without such nesting the counter is the depth inside skipped elements. */
  lemma {:induction false} CounterExact(parts: seq<Part>, k: nat)
    requires k <= |parts| && OpenAt(parts, k).Some? && Nested(parts, k) == 0
    ensures DepthAt(parts, k) == Above(OpenAt(parts, k).value)
  {
    hide Opened, Closed, SkipOpen, StepDepth, Above;
    if k == 0 {
      AtStart(parts);
      NothingOpen();
    } else {
      NestedGrows(parts, k - 1, k);
      CounterExact(parts, k - 1);
      if parts[k - 1].Tag? {
        OneTag(parts, k - 1);
      }
    }
  }

  /** The HTML from here on starts with this text. */
  predicate Here(html: string, at: nat, text: string) {
    at + |text| <= |html| && html[at..at + |text|] == text
  }

  predicate PlainTag(tag: string) {
    |tag| > 2 && tag[0] == '<' && tag[|tag| - 1] == '>' && forall k | 0 < k < |tag| - 1 :: tag[k] != '>'
  }

  lemma PlainTags()
    ensures PlainTag("<pre>") && PlainTag("<code>") && PlainTag("</code>") && PlainTag("</pre>")
    ensures |"<pre>"| == 5 && |"<code>"| == 6 && |"</code>"| == 7 && |"</pre>"| == 6
  {
  }

  /** A tag with nothing odd in it is cut out whole. */
  lemma TagIsCut(html: string, at: nat, tag: string)
    requires Here(html, at, tag) && PlainTag(tag)
    ensures NextTag(html, at) == at && TagEnd(html, at) == at + |tag|
    ensures PartsOf(html, at) == [Tag(tag)] + PartsOf(html, at + |tag|)
  {
    ClosesAt(html, at, tag);
    assert html[at] == '<' by {
      assert html[at..at + |tag|][0] == tag[0];
    }
    hide IndexOfChar, PartsOf, PlainTag;
    assert NextTag(html, at) == at;
    PartsUpTo(html, at, at);
    assert CharsBetween(html, at, at) == [];
    assert [] + [Tag(tag)] == [Tag(tag)];
  }

  lemma ClosesAt(html: string, at: nat, tag: string)
    requires Here(html, at, tag) && PlainTag(tag)
    ensures IndexOfChar(html, '>', at + 1) == at + |tag| - 1 && |tag| > 2
  {
    assert forall k | 0 <= k < |tag| :: html[at + k] == html[at..at + |tag|][k] == tag[k];
    assert html[at + (|tag| - 1)] == '>';
    forall j | at + 1 <= j < at + |tag| - 1 ensures html[j] != '>' {
      assert html[at + (j - at)] == tag[j - at];
    }
  }

  lemma PartsUpTo(html: string, from: nat, i: nat)
    requires from <= |html| && NextTag(html, from) == i
    ensures PartsOf(html, from) == CharsBetween(html, from, i) + [Tag(html[i..TagEnd(html, i)])] + PartsOf(html, TagEnd(html, i))
  {
  }

  /** Text up to the next tag is cut out whole. */
  lemma CharsAreCut(html: string, at: nat, text: string, tag: string)
    requires Here(html, at, text) && text != "" && '<' !in text
    requires Here(html, at + |text|, tag) && PlainTag(tag)
    ensures PartsOf(html, at) == [Chars(text), Tag(tag)] + PartsOf(html, at + |text| + |tag|)
  {
    hide PartsOf, NextTag, TagEnd;
    TagIsCut(html, at + |text|, tag);
    NextAfter(html, at, at + |text|, text);
    PartsUpTo(html, at, at + |text|);
    assert CharsBetween(html, at, at + |text|) == [Chars(text)];
    assert [Chars(text)] + [Tag(tag)] == [Chars(text), Tag(tag)];
  }

  lemma {:induction false} NextAfter(html: string, from: nat, at: nat, text: string)
    requires from <= at < |html| && html[from..at] == text && '<' !in text && NextTag(html, at) == at
    ensures NextTag(html, from) == at
    decreases at - from
  {
    if from < at {
      assert html[from] == html[from..at][0];
      assert html[from + 1..at] == text[1..];
      NextAfter(html, from + 1, at, text[1..]);
    }
  }

  /** Preformatted code is the common case that goes wrong: after `</code>` the counter is back at zero, and the
      rest of the `<pre>` is open to links. */
  lemma PreformattedCodeEscapes(listing: string, rest: string)
    requires listing != "" && '<' !in listing && rest != "" && '<' !in rest
    ensures var parts := PartsOf("<pre><code>" + listing + "</code>" + rest + "</pre>", 0);
            && parts == [Tag("<pre>"), Tag("<code>"), Chars(listing), Tag("</code>"), Chars(rest), Tag("</pre>")]
            && OpenAt(parts, 4) == Some([Skipped("pre")]) && DepthAt(parts, 4) == 0
  {
    hide PartsOf, OpenAt, DepthAt, Opened, Closed;
    var pre, code, codeEnd := "<pre>", "<code>", "</code>";
    var html := "<pre><code>" + listing + codeEnd + rest + "</pre>";
    CutListing(html, listing, rest);
    var parts := [Tag(pre), Tag(code), Chars(listing), Tag(codeEnd), Chars(rest), Tag("</pre>")];
    PreOpens();
    CodeOpens();
    CodeCloses();
    NestedCode(parts, pre, code, codeEnd);
  }

  lemma Within6(html: string, a: string, b: string, c: string, d: string, e: string, f: string)
    requires html == a + b + c + d + e + f
    ensures Here(html, 0, a) && Here(html, |a|, b) && Here(html, |a| + |b|, c) && Here(html, |a| + |b| + |c|, d)
    ensures Here(html, |a| + |b| + |c| + |d|, e) && Here(html, |a| + |b| + |c| + |d| + |e|, f)
    ensures |html| == |a| + |b| + |c| + |d| + |e| + |f|
  {
  }

  lemma CutListing(html: string, listing: string, rest: string)
    requires listing != "" && '<' !in listing && rest != "" && '<' !in rest
    requires html == "<pre><code>" + listing + "</code>" + rest + "</pre>"
    ensures PartsOf(html, 0) == [Tag("<pre>"), Tag("<code>"), Chars(listing), Tag("</code>"), Chars(rest), Tag("</pre>")]
  {
    var pre, code, codeEnd, preEnd := "<pre>", "<code>", "</code>", "</pre>";
    assert "<pre><code>" == pre + code;
    Within6(html, pre, code, listing, codeEnd, rest, preEnd);
    PlainTags();
    Cut6(html, pre, code, listing, codeEnd, rest, preEnd);
  }

  lemma Cut6(html: string, a: string, b: string, c: string, d: string, e: string, f: string)
    requires PlainTag(a) && PlainTag(b) && c != "" && '<' !in c && PlainTag(d) && e != "" && '<' !in e && PlainTag(f)
    requires Here(html, 0, a) && Here(html, |a|, b) && Here(html, |a| + |b|, c) && Here(html, |a| + |b| + |c|, d)
    requires Here(html, |a| + |b| + |c| + |d|, e) && Here(html, |a| + |b| + |c| + |d| + |e|, f)
    requires |html| == |a| + |b| + |c| + |d| + |e| + |f|
    ensures PartsOf(html, 0) == [Tag(a), Tag(b), Chars(c), Tag(d), Chars(e), Tag(f)]
  {
    hide *;
    TagIsCut(html, 0, a);
    TagIsCut(html, |a|, b);
    CharsAreCut(html, |a| + |b|, c, d);
    CharsAreCut(html, |a| + |b| + |c| + |d|, e, f);
    NothingLeft(html);
    assert |a| + |b| + |c| + |d| + |e| + |f| == |html|;
    assert [Chars(e), Tag(f)] + [] == [Chars(e), Tag(f)];
    assert [Chars(c), Tag(d)] + [Chars(e), Tag(f)] == [Chars(c), Tag(d), Chars(e), Tag(f)];
    assert [Tag(b)] + [Chars(c), Tag(d), Chars(e), Tag(f)] == [Tag(b), Chars(c), Tag(d), Chars(e), Tag(f)];
    assert [Tag(a)] + [Tag(b), Chars(c), Tag(d), Chars(e), Tag(f)] == [Tag(a), Tag(b), Chars(c), Tag(d), Chars(e), Tag(f)];
  }

  lemma NothingLeft(html: string)
    ensures PartsOf(html, |html|) == []
  {
  }

  lemma NestedCode(parts: seq<Part>, pre: string, code: string, codeEnd: string)
    requires |parts| > 4 && parts[0] == Tag(pre) && parts[1] == Tag(code) && parts[2].Chars? && parts[3] == Tag(codeEnd)
    requires Opened(pre) == Some(Skipped("pre")) && Opened(code) == Some(Skipped("code"))
    requires Opened(codeEnd) == None && Closed(codeEnd) == Some("code")
    ensures OpenAt(parts, 4) == Some([Skipped("pre")]) && DepthAt(parts, 4) == 0
  {
    hide *;
    AtStart(parts);
    SkippedOpens(parts, 0, "pre");
    assert [] + [Skipped("pre")] == [Skipped("pre")];
    SkippedOpens(parts, 1, "code");
    assert [Skipped("pre")] + [Skipped("code")] == [Skipped("pre"), Skipped("code")];
    TextPasses(parts, 2);
    SkippedCloses(parts, 3, "code");
    assert [Skipped("pre"), Skipped("code")][..1] == [Skipped("pre")];
  }

  lemma AtStart(parts: seq<Part>)
    ensures OpenAt(parts, 0) == Some([]) && DepthAt(parts, 0) == 0
  {
  }

  lemma TextPasses(parts: seq<Part>, k: nat)
    requires k < |parts| && parts[k].Chars?
    ensures OpenAt(parts, k + 1) == OpenAt(parts, k) && DepthAt(parts, k + 1) == DepthAt(parts, k)
  {
  }

  lemma SkippedOpens(parts: seq<Part>, k: nat, name: string)
    requires k < |parts| && parts[k].Tag? && OpenAt(parts, k).Some? && Opened(parts[k].text) == Some(Skipped(name))
    ensures OpenAt(parts, k + 1) == Some(OpenAt(parts, k).value + [Skipped(name)])
    ensures DepthAt(parts, k + 1) == if DepthAt(parts, k) > 0 then DepthAt(parts, k) else 1
  {
    hide Opened, Closed, SkipOpen, SpanOpen, SpanSkipOpen, SkipClose;
    TagIsOneThing(parts[k].text);
  }

  lemma SkippedCloses(parts: seq<Part>, k: nat, name: string)
    requires k < |parts| && parts[k].Tag? && OpenAt(parts, k).Some? && OpenAt(parts, k).value != []
    requires Opened(parts[k].text) == None && Closed(parts[k].text) == Some(name)
    requires OpenAt(parts, k).value[|OpenAt(parts, k).value| - 1] == Skipped(name)
    ensures OpenAt(parts, k + 1) == Some(OpenAt(parts, k).value[..|OpenAt(parts, k).value| - 1])
    ensures DepthAt(parts, k + 1) == if DepthAt(parts, k) > 0 then DepthAt(parts, k) - 1 else 0
  {
    hide Opened, Closed, SkipOpen, SpanOpen, SpanSkipOpen, SkipClose;
    TagIsOneThing(parts[k].text);
  }

  lemma OpensNot(tag: string, name: string)
    requires |tag| > 1 && name != "" && Lower(tag[1]) != name[0]
    ensures !Opens(tag, name)
  {
    assert ("<" + name)[1] == name[0];
  }

  lemma ClosesNot(tag: string, name: string)
    requires |tag| > 2 && name != "" && Lower(tag[2]) != name[0]
    ensures !Closes(tag, name)
  {
    assert ("</" + name + ">")[2] == name[0];
  }

  lemma PreOpens()
    ensures Opened("<pre>") == Some(Skipped("pre"))
  {
    OpensNot("<pre>", "a");
    OpensNot("<pre>", "code");
    assert "<" + "pre" == "<pre";
    assert Opens("<pre>", "pre");
  }

  lemma CodeOpens()
    ensures Opened("<code>") == Some(Skipped("code"))
  {
    OpensNot("<code>", "a");
    assert "<" + "code" == "<code";
    assert Opens("<code>", "code");
  }

  lemma CodeCloses()
    ensures Opened("</code>") == None && Closed("</code>") == Some("code")
  {
    hide Opens;
    OpensNot("</code>", "a");
    OpensNot("</code>", "code");
    OpensNot("</code>", "pre");
    OpensNot("</code>", "span");
    ClosesNot("</code>", "a");
    assert "</" + "code" + ">" == "</code>";
    assert Closes("</code>", "code");
  }
}
