/** References to pages, lines, theorems and sections found in a text: `findRefs` of src/docLinks.ts.

    What each pattern matches is an input, one list of non-empty matches a pattern, the patterns in their order
    of priority. */
module DocRefs {
  import opened Wrappers

  /** What a match says. A list of lines gives one reference for each number in it. */
  datatype Reading =
    | Single(kind: string, value: string, envType: Option<string>)
    | Lines(numbers: seq<(nat, nat)>)

  datatype Match = Match(start: nat, end: nat, reading: Reading)

  datatype DocRef = DocRef(kind: string, text: string, value: string, envType: Option<string>, start: nat, end: nat)

  predicate WellFormed(m: Match, text: string) {
    && m.start < m.end <= |text|
    && (m.reading.Lines? ==>
          && (forall k | 0 <= k < |m.reading.numbers| :: m.reading.numbers[k].0 < m.reading.numbers[k].1 <= m.end - m.start)
          && (forall j, k | 0 <= j < k < |m.reading.numbers| :: m.reading.numbers[j].1 <= m.reading.numbers[k].0))
  }

  predicate AllWellFormed(ms: seq<Match>, text: string) {
    forall k | 0 <= k < |ms| :: WellFormed(ms[k], text)
  }

  // ---------- which matches are kept ----------

  predicate Overlaps(a: Match, b: Match) {
    a.start < b.end && b.start < a.end
  }

  predicate ClearOf(m: Match, kept: seq<Match>) {
    forall k | 0 <= k < |kept| :: !Overlaps(kept[k], m)
  }

  /** Matches in order of priority: each is kept unless it overlaps one kept before it. */
  function Accepted(ms: seq<Match>): seq<Match> {
    if ms == [] then []
    else
      var before, m := Accepted(ms[..|ms| - 1]), ms[|ms| - 1];
      if ClearOf(m, before) then before + [m] else before
  }

  /** Those kept come from the input in order and do not overlap; anything dropped overlaps one of those kept
      before it. */
  lemma {:induction false} AcceptedIsGreedy(ms: seq<Match>, k: nat)
    requires k < |ms|
    ensures |Accepted(ms[..k])| <= |Accepted(ms)| && Accepted(ms)[..|Accepted(ms[..k])|] == Accepted(ms[..k])
    ensures ClearOf(ms[k], Accepted(ms[..k])) ==>
      |Accepted(ms[..k])| < |Accepted(ms)| && Accepted(ms)[|Accepted(ms[..k])|] == ms[k]
    ensures !ClearOf(ms[k], Accepted(ms[..k])) ==> Accepted(ms[..k + 1]) == Accepted(ms[..k])
  {
    assert ms[..k + 1][..k] == ms[..k];
    if k + 1 < |ms| {
      var before := ms[..|ms| - 1];
      AcceptedIsGreedy(before, k);
      assert before[..k] == ms[..k] && before[..k + 1] == ms[..k + 1];
    } else {
      assert ms[..k + 1] == ms;
    }
  }

  lemma {:induction false} AcceptedDisjoint(ms: seq<Match>)
    ensures forall i, j | 0 <= i < j < |Accepted(ms)| :: !Overlaps(Accepted(ms)[i], Accepted(ms)[j])
    ensures forall m :: m in Accepted(ms) ==> m in ms
  {
    if ms != [] {
      AcceptedDisjoint(ms[..|ms| - 1]);
    }
  }

  /** The next match is kept exactly when it has no position in common with one that is kept already. */
  lemma KeptIff(ms: seq<Match>, m: Match)
    ensures Accepted([]) == []
    ensures Accepted(ms + [m]) ==
      if exists j | 0 <= j < |Accepted(ms)| :: Accepted(ms)[j].start < m.end && m.start < Accepted(ms)[j].end
      then Accepted(ms) else Accepted(ms) + [m]
  {
    assert (ms + [m])[..|ms|] == ms;
  }

  // ---------- the references ----------

  function EmitLines(text: string, m: Match, n: nat): seq<DocRef>
    requires WellFormed(m, text) && m.reading.Lines? && n <= |m.reading.numbers|
  {
    if n == 0 then []
    else
      var (a, b) := m.reading.numbers[n - 1];
      var number := text[m.start + a..m.start + b];
      EmitLines(text, m, n - 1) + [DocRef("line", number, number, None, m.start + a, m.start + b)]
  }

  function Emit(text: string, m: Match): seq<DocRef>
    requires WellFormed(m, text)
  {
    match m.reading
    case Single(kind, value, envType) => [DocRef(kind, text[m.start..m.end], value, envType, m.start, m.end)]
    case Lines(numbers) => EmitLines(text, m, |numbers|)
  }

  function Emitted(text: string, ms: seq<Match>): seq<DocRef>
    requires AllWellFormed(ms, text)
  {
    if ms == [] then [] else Emitted(text, ms[..|ms| - 1]) + Emit(text, ms[|ms| - 1])
  }

  /** A reference marks the text it says it does. */
  ghost predicate Marks(r: DocRef, text: string) {
    r.start < r.end <= |text| && r.text == text[r.start..r.end]
  }

  predicate Apart(a: DocRef, b: DocRef) {
    a.end <= b.start || b.end <= a.start
  }

  ghost predicate AllApart(refs: seq<DocRef>) {
    forall i, j | 0 <= i < j < |refs| :: Apart(refs[i], refs[j])
  }

  ghost predicate Within(refs: seq<DocRef>, text: string, start: nat, end: nat) {
    forall k | 0 <= k < |refs| :: Marks(refs[k], text) && start <= refs[k].start && refs[k].end <= end
  }

  lemma {:induction false} EmitLinesApart(text: string, m: Match, n: nat)
    requires WellFormed(m, text) && m.reading.Lines? && n <= |m.reading.numbers|
    ensures Within(EmitLines(text, m, n), text, m.start, if n == 0 then m.start else m.start + m.reading.numbers[n - 1].1)
    ensures AllApart(EmitLines(text, m, n))
  {
    if n > 0 {
      EmitLinesApart(text, m, n - 1);
      assert n > 1 ==> m.reading.numbers[n - 2].1 <= m.reading.numbers[n - 1].0;
    }
  }

  lemma EmitApart(text: string, m: Match)
    requires WellFormed(m, text)
    ensures Within(Emit(text, m), text, m.start, m.end) && AllApart(Emit(text, m))
  {
    if m.reading.Lines? {
      EmitLinesApart(text, m, |m.reading.numbers|);
    }
  }

  lemma {:induction false} EmittedApart(text: string, ms: seq<Match>)
    requires AllWellFormed(ms, text)
    requires forall i, j | 0 <= i < j < |ms| :: !Overlaps(ms[i], ms[j])
    ensures AllApart(Emitted(text, ms)) && Within(Emitted(text, ms), text, 0, |text|)
    ensures forall k | 0 <= k < |Emitted(text, ms)| :: exists i | 0 <= i < |ms| :: Inside(Emitted(text, ms)[k], ms[i])
  {
    if ms != [] {
      var before, m := ms[..|ms| - 1], ms[|ms| - 1];
      EmittedApart(text, before);
      EmitApart(text, m);
      var first, rest := Emitted(text, before), Emit(text, m);
      forall k | 0 <= k < |first + rest| ensures exists i | 0 <= i < |ms| :: Inside((first + rest)[k], ms[i]) {
        if k < |first| {
          var i :| 0 <= i < |before| && Inside(first[k], before[i]);
          assert Inside((first + rest)[k], ms[i]);
        } else {
          assert Inside((first + rest)[k], ms[|ms| - 1]);
        }
      }
      forall j, k | 0 <= j < |first| && 0 <= k < |rest| ensures Apart(first[j], rest[k]) {
        var i :| 0 <= i < |before| && Inside(first[j], before[i]);
        assert !Overlaps(ms[i], ms[|ms| - 1]);
      }
    }
  }

  ghost predicate Inside(r: DocRef, m: Match) {
    m.start <= r.start && r.end <= m.end
  }

  // ---------- order ----------

  predicate Before(a: DocRef, b: DocRef) {
    a.end <= b.start
  }

  ghost predicate InOrder(refs: seq<DocRef>) {
    forall i, j | 0 <= i < j < |refs| :: Before(refs[i], refs[j])
  }

  function InsertByStart(r: DocRef, refs: seq<DocRef>): seq<DocRef> {
    if refs == [] || r.start >= refs[|refs| - 1].start then refs + [r]
    else InsertByStart(r, refs[..|refs| - 1]) + [refs[|refs| - 1]]
  }

  function SortByStart(refs: seq<DocRef>): seq<DocRef> {
    if refs == [] then [] else InsertByStart(refs[|refs| - 1], SortByStart(refs[..|refs| - 1]))
  }

  lemma {:induction false} InsertKeeps(r: DocRef, refs: seq<DocRef>)
    ensures multiset(InsertByStart(r, refs)) == multiset(refs) + multiset{r}
    ensures forall x :: x in InsertByStart(r, refs) <==> x in refs || x == r
  {
    if refs != [] && r.start < refs[|refs| - 1].start {
      InsertKeeps(r, refs[..|refs| - 1]);
      assert refs == refs[..|refs| - 1] + [refs[|refs| - 1]];
    }
  }

  lemma {:induction false} InsertInOrder(r: DocRef, refs: seq<DocRef>)
    requires InOrder(refs) && r.start < r.end
    requires forall k | 0 <= k < |refs| :: refs[k].start < refs[k].end && Apart(refs[k], r)
    ensures InOrder(InsertByStart(r, refs))
  {
    if refs == [] {
    } else if r.start >= refs[|refs| - 1].start {
      assert Apart(refs[|refs| - 1], r);
      forall k | 0 <= k < |refs| ensures Before(refs[k], r) {
        assert k < |refs| - 1 ==> Before(refs[k], refs[|refs| - 1]);
      }
    } else {
      var before, last := refs[..|refs| - 1], refs[|refs| - 1];
      InsertInOrder(r, before);
      InsertKeeps(r, before);
      var inserted := InsertByStart(r, before);
      forall k | 0 <= k < |inserted| ensures Before(inserted[k], last) {
        assert inserted[k] in inserted;
        if inserted[k] != r {
          var j :| 0 <= j < |before| && before[j] == inserted[k];
          assert Before(refs[j], refs[|refs| - 1]);
        } else {
          assert Apart(refs[|refs| - 1], r);
        }
      }
    }
  }

  lemma {:induction false} SortKeeps(refs: seq<DocRef>)
    ensures multiset(SortByStart(refs)) == multiset(refs)
    ensures forall r :: r in SortByStart(refs) <==> r in refs
  {
    if refs != [] {
      var before, r := refs[..|refs| - 1], refs[|refs| - 1];
      SortKeeps(before);
      InsertKeeps(r, SortByStart(before));
      assert refs == before + [r];
    }
  }

  lemma {:induction false} SortInOrder(refs: seq<DocRef>)
    requires AllApart(refs) && forall k | 0 <= k < |refs| :: refs[k].start < refs[k].end
    ensures InOrder(SortByStart(refs))
  {
    if refs != [] {
      var before, r := refs[..|refs| - 1], refs[|refs| - 1];
      SortInOrder(before);
      var sorted := SortByStart(before);
      SortKeeps(before);
      forall k | 0 <= k < |sorted| ensures sorted[k].start < sorted[k].end && Apart(sorted[k], r) {
        assert sorted[k] in sorted;
        var j :| 0 <= j < |before| && before[j] == sorted[k];
        assert Apart(refs[j], refs[|refs| - 1]);
      }
      InsertInOrder(r, sorted);
    }
  }

  /** Everything found, patterns in order of priority. */
  function Flat(found: seq<seq<Match>>): seq<Match> {
    if found == [] then [] else Flat(found[..|found| - 1]) + found[|found| - 1]
  }

  ghost predicate FoundIn(found: seq<seq<Match>>, text: string) {
    forall p | 0 <= p < |found| :: AllWellFormed(found[p], text)
  }

  lemma {:induction false} FlatWellFormed(found: seq<seq<Match>>, text: string)
    requires FoundIn(found, text)
    ensures AllWellFormed(Flat(found), text)
  {
    if found != [] {
      FlatWellFormed(found[..|found| - 1], text);
    }
  }

  lemma {:induction false} AcceptedWellFormed(ms: seq<Match>, text: string)
    requires AllWellFormed(ms, text)
    ensures AllWellFormed(Accepted(ms), text)
  {
    if ms != [] {
      AcceptedWellFormed(ms[..|ms| - 1], text);
    }
  }

  function Refs(text: string, found: seq<seq<Match>>): seq<DocRef>
    requires FoundIn(found, text)
  {
    FlatWellFormed(found, text);
    AcceptedWellFormed(Flat(found), text);
    SortByStart(Emitted(text, Accepted(Flat(found))))
  }

  /** References come out from left to right without overlap, each marking the text it names, and they are the
      references of the matches kept. */
  lemma RefsInOrder(text: string, found: seq<seq<Match>>)
    requires FoundIn(found, text)
    ensures AllWellFormed(Accepted(Flat(found)), text)
    ensures InOrder(Refs(text, found)) && Within(Refs(text, found), text, 0, |text|)
    ensures multiset(Refs(text, found)) == multiset(Emitted(text, Accepted(Flat(found))))
  {
    FlatWellFormed(found, text);
    var kept := Accepted(Flat(found));
    AcceptedDisjoint(Flat(found));
    AcceptedWellFormed(Flat(found), text);
    EmittedApart(text, kept);
    SortInOrder(Emitted(text, kept));
    SortKeeps(Emitted(text, kept));
    var sorted := SortByStart(Emitted(text, kept));
    forall k | 0 <= k < |sorted| ensures Marks(sorted[k], text) {
      assert sorted[k] in sorted;
    }
  }

  /** The references are those the kept matches say: the whole match, or one for each number of a list of lines. */
  lemma RefsAreThese(text: string, found: seq<seq<Match>>, r: DocRef)
    requires FoundIn(found, text)
    ensures AllWellFormed(Accepted(Flat(found)), text)
    ensures r in Refs(text, found) <==> exists m | m in Accepted(Flat(found)) :: Says(text, m, r)
  {
    RefsInOrder(text, found);
    hide Says;
    SortKeeps(Emitted(text, Accepted(Flat(found))));
    EmittedAreThese(text, Accepted(Flat(found)), r);
  }

  ghost predicate Says(text: string, m: Match, r: DocRef) {
    && m.end <= |text|
    && match m.reading
       case Single(kind, value, envType) =>
         r.kind == kind && r.value == value && r.envType == envType && r.start == m.start < m.end == r.end && r.text == text[m.start..m.end]
       case Lines(numbers) =>
         && r.kind == "line" && r.value == r.text && r.envType == None && r.start < r.end <= |text| && r.text == text[r.start..r.end]
         && exists k | 0 <= k < |numbers| :: numbers[k] == (r.start - m.start, r.end - m.start)
  }

  lemma {:induction false} EmittedAreThese(text: string, ms: seq<Match>, r: DocRef)
    requires AllWellFormed(ms, text)
    ensures r in Emitted(text, ms) <==> exists m | m in ms :: Says(text, m, r)
  {
    if ms != [] {
      var before, m := ms[..|ms| - 1], ms[|ms| - 1];
      EmittedAreThese(text, before, r);
      EmitIsThis(text, m, r);
      hide Says, Emit, WellFormed;
      assert ms == before + [m];
      assert forall x :: x in ms <==> x in before || x == m;
    }
  }

  lemma EmitIsThis(text: string, m: Match, r: DocRef)
    requires WellFormed(m, text)
    ensures r in Emit(text, m) <==> Says(text, m, r)
  {
    if m.reading.Lines? {
      EmitLinesAreThese(text, m, |m.reading.numbers|, r);
    }
  }

  lemma {:induction false} EmitLinesAreThese(text: string, m: Match, n: nat, r: DocRef)
    requires WellFormed(m, text) && m.reading.Lines? && n <= |m.reading.numbers|
    ensures r in EmitLines(text, m, n) <==>
      && r.kind == "line" && r.value == r.text && r.envType == None && r.start < r.end <= |text| && r.text == text[r.start..r.end]
      && exists k | 0 <= k < n :: m.reading.numbers[k] == (r.start - m.start, r.end - m.start)
  {
    if n > 0 {
      EmitLinesAreThese(text, m, n - 1, r);
    }
  }

  /** The patterns come in their order of priority. */
  lemma PatternByPattern(found: seq<seq<Match>>, next: seq<Match>)
    ensures Flat([]) == [] && Flat(found + [next]) == Flat(found) + next
  {
    assert (found + [next])[..|found|] == found;
  }

  // ---------- the loops ----------

  /** The positions covered are those of the matches kept. */
  ghost predicate Covers(covered: set<nat>, kept: seq<Match>) {
    forall i: nat :: i in covered <==> exists k | 0 <= k < |kept| :: kept[k].start <= i < kept[k].end
  }

  method Meets(covered: set<nat>, m: Match) returns (overlap: bool)
    ensures overlap <==> exists i | m.start <= i < m.end :: i in covered
  {
    overlap := false;
    for i := m.start to if m.start <= m.end then m.end else m.start
      invariant overlap <==> exists j | m.start <= j < i :: j in covered
    {
      if i in covered {
        overlap := true;
        break;
      }
    }
  }

  method Cover(covered: set<nat>, m: Match) returns (more: set<nat>)
    requires m.start <= m.end
    ensures forall i: nat :: i in more <==> i in covered || m.start <= i < m.end
  {
    more := covered;
    for i := m.start to m.end
      invariant forall j: nat :: j in more <==> j in covered || m.start <= j < i
    {
      more := more + {i};
    }
  }

  method EmitRefs(text: string, m: Match) returns (refs: seq<DocRef>)
    requires WellFormed(m, text)
    ensures refs == Emit(text, m)
  {
    match m.reading
    case Single(kind, value, envType) =>
      refs := [DocRef(kind, text[m.start..m.end], value, envType, m.start, m.end)];
    case Lines(numbers) =>
      refs := [];
      for i := 0 to |numbers|
        invariant refs == EmitLines(text, m, i)
      {
        var (a, b) := numbers[i];
        var number := text[m.start + a..m.start + b];
        refs := refs + [DocRef("line", number, number, None, m.start + a, m.start + b)];
      }
  }

  /** Where the loops are after these matches. */
  ghost predicate LoopAt(text: string, done: seq<Match>, covered: set<nat>, refs: seq<DocRef>) {
    && AllWellFormed(done, text) && AllWellFormed(Accepted(done), text)
    && Covers(covered, Accepted(done)) && refs == Emitted(text, Accepted(done))
  }

  lemma LoopSkips(text: string, done: seq<Match>, covered: set<nat>, refs: seq<DocRef>, m: Match)
    requires LoopAt(text, done, covered, refs) && WellFormed(m, text) && exists i: nat | m.start <= i < m.end :: i in covered
    ensures LoopAt(text, done + [m], covered, refs)
  {
    assert (done + [m])[..|done|] == done;
    MeetsIff(covered, Accepted(done), m);
  }

  lemma LoopKeeps(text: string, done: seq<Match>, covered: set<nat>, refs: seq<DocRef>, m: Match, more: set<nat>)
    requires LoopAt(text, done, covered, refs) && WellFormed(m, text) && !exists i: nat | m.start <= i < m.end :: i in covered
    requires forall i: nat :: i in more <==> i in covered || m.start <= i < m.end
    ensures LoopAt(text, done + [m], more, refs + Emit(text, m))
  {
    var kept := Accepted(done);
    assert (done + [m])[..|done|] == done;
    MeetsIff(covered, kept, m);
    CoversMore(covered, kept, m, more);
    assert (kept + [m])[..|kept|] == kept;
  }

  method FindRefs(text: string, found: seq<seq<Match>>) returns (refs: seq<DocRef>)
    requires FoundIn(found, text)
    ensures refs == Refs(text, found)
    ensures InOrder(refs) && Within(refs, text, 0, |text|)
  {
    hide LoopAt, WellFormed, InOrder, Within, Emit;
    refs := [];
    var covered: set<nat> := {};
    assert LoopAt(text, [], covered, refs) by {
      LoopStarts(text);
    }
    for p := 0 to |found|
      invariant LoopAt(text, Flat(found[..p]), covered, refs)
    {
      var matches := found[p];
      ghost var earlier := Flat(found[..p]);
      assert earlier + matches[..0] == earlier;
      for q := 0 to |matches|
        invariant LoopAt(text, earlier + matches[..q], covered, refs)
      {
        var m := matches[q];
        ghost var done := earlier + matches[..q];
        assert WellFormed(m, text);
        assert earlier + matches[..q + 1] == done + [m];
        Proper(m, text);
        var overlap := Meets(covered, m);
        if overlap {
          LoopSkips(text, done, covered, refs, m);
          continue;
        }
        var more := Cover(covered, m);
        LoopKeeps(text, done, covered, refs, m, more);
        covered := more;
        var emitted := EmitRefs(text, m);
        refs := refs + emitted;
      }
      assert found[..p + 1][..p] == found[..p];
      assert matches[..|matches|] == matches;
    }
    assert found[..|found|] == found;
    RefsInOrder(text, found);
    LoopEnds(text, found, covered, refs);
    refs := SortByStart(refs);
  }

  lemma LoopStarts(text: string)
    ensures LoopAt(text, [], {}, [])
  {
  }

  lemma LoopEnds(text: string, found: seq<seq<Match>>, covered: set<nat>, refs: seq<DocRef>)
    requires FoundIn(found, text) && LoopAt(text, Flat(found), covered, refs)
    ensures SortByStart(refs) == Refs(text, found)
  {
  }

  lemma Proper(m: Match, text: string)
    requires WellFormed(m, text)
    ensures m.start < m.end
  {
  }

  lemma MeetsIff(covered: set<nat>, kept: seq<Match>, m: Match)
    requires Covers(covered, kept) && m.start < m.end
    requires forall k | 0 <= k < |kept| :: kept[k].start < kept[k].end
    ensures (exists i: nat | m.start <= i < m.end :: i in covered) <==> !ClearOf(m, kept)
  {
    if !ClearOf(m, kept) {
      var k :| 0 <= k < |kept| && Overlaps(kept[k], m);
      var i: nat := if kept[k].start < m.start then m.start else kept[k].start;
      assert kept[k].start <= i < kept[k].end;
      assert i in covered;
    }
    if i: nat :| m.start <= i < m.end && i in covered {
      var k :| 0 <= k < |kept| && kept[k].start <= i < kept[k].end;
      assert Overlaps(kept[k], m);
    }
  }

  lemma CoversMore(covered: set<nat>, kept: seq<Match>, m: Match, more: set<nat>)
    requires Covers(covered, kept)
    requires forall i: nat :: i in more <==> i in covered || m.start <= i < m.end
    ensures Covers(more, kept + [m])
  {
    var ms := kept + [m];
    forall i: nat | i in more
      ensures exists k | 0 <= k < |ms| :: ms[k].start <= i < ms[k].end
    {
      if i in covered {
        var k :| 0 <= k < |kept| && kept[k].start <= i < kept[k].end;
        assert ms[k].start <= i < ms[k].end;
      } else {
        assert ms[|kept|].start <= i < ms[|kept|].end;
      }
    }
    forall i: nat, k | 0 <= k < |ms| && ms[k].start <= i < ms[k].end
      ensures i in more
    {
      if k < |kept| {
        assert kept[k].start <= i < kept[k].end;
        assert i in covered;
      }
    }
  }
}
