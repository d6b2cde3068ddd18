/** `redact_after_markers` of frontend/src-tauri/src/logs.rs: a fixed-point loop that masks, one at a time, the
    values following key-like markers. Positions count characters; the source's byte positions only move at
    characters that the scan treats alike. */
module LogRedaction {
  import opened Wrappers
  import opened Text

  const MARKERS: seq<string> := ["authorization", "api_key", "apikey", "password", "secret", "token", "key"]
  const MASK: string := "***"

  predicate IsAlphanumeric(c: char) {
    'a' <= c <= 'z' || 'A' <= c <= 'Z' || '0' <= c <= '9'
  }

  predicate IsBlank(c: char) {
    c == ' ' || c == '"' || c == '\''
  }

  predicate IsSeparator(c: char) {
    c == ':' || c == '='
  }

  /** What ends a value. */
  predicate IsTerminator(c: char) {
    IsRustSpace(c) || c == '"' || c == '\'' || c == ','
  }

  // ---------- Occurrences ----------

  /** Marker `m` ends just before index `e`, in any letter case. */
  predicate EndsAt(s: string, m: string, e: nat) {
    |m| <= e <= |s| && forall j | 0 <= j < |m| :: LowerChar(s[e - |m| + j]) == m[j]
  }

  function SkipBlank(s: string, i: nat): (r: nat)
    requires i <= |s|
    ensures i <= r <= |s| && (forall j | i <= j < r :: IsBlank(s[j])) && (r < |s| ==> !IsBlank(s[r]))
    decreases |s| - i
  {
    if i < |s| && IsBlank(s[i]) then SkipBlank(s, i + 1) else i
  }

  function ValueEnd(s: string, i: nat): (r: nat)
    requires i <= |s|
    ensures i <= r <= |s| && (forall j | i <= j < r :: !IsTerminator(s[j])) && (r < |s| ==> IsTerminator(s[r]))
    decreases |s| - i
  {
    if i < |s| && !IsTerminator(s[i]) then ValueEnd(s, i + 1) else i
  }

  datatype Span = Span(start: nat, end: nat)

  /** The value that follows position `e`: blanks, one separator, blanks, then a run up to a terminator. */
  function ValueSpan(s: string, e: nat): (r: Option<Span>)
    requires e <= |s|
    ensures r.Some? ==> e < r.value.start < r.value.end <= |s|
  {
    var p := SkipBlank(s, e);
    if p == |s| || !IsSeparator(s[p]) then None
    else
      var start := SkipBlank(s, p + 1);
      var end := ValueEnd(s, start);
      if end == start then None else Some(Span(start, end))
  }

  /** A marker's end that the source treats as one: it stops at a word boundary. */
  predicate IsMarkerEnd(s: string, m: string, e: nat) {
    EndsAt(s, m, e) && (e == |s| || !IsAlphanumeric(s[e]))
  }

  /** `m` ends at `e` and is followed by a value that is not the mask. */
  predicate IsUnmasked(s: string, m: string, e: nat) {
    && IsMarkerEnd(s, m, e)
    && ValueSpan(s, e).Some?
    && s[ValueSpan(s, e).value.start..ValueSpan(s, e).value.end] != MASK
  }

  predicate SomeUnmasked(s: string, e: nat) {
    exists k | 0 <= k < |MARKERS| :: IsUnmasked(s, MARKERS[k], e)
  }

  ghost function UnmaskedEnds(s: string): set<nat> {
    set e: nat | 0 <= e <= |s| && SomeUnmasked(s, e)
  }

  ghost predicate FullyRedacted(s: string) {
    UnmaskedEnds(s) == {}
  }

  function Mask(s: string, sp: Span): string
    requires sp.start <= sp.end <= |s|
  {
    s[..sp.start] + MASK + s[sp.end..]
  }

  /** The string after masking the value behind `e`. */
  function MaskAt(s: string, e: nat): string
    requires e <= |s| && SomeUnmasked(s, e)
  {
    Mask(s, ValueSpan(s, e).value)
  }

  // ---------- One masking step removes an occurrence and adds none ----------

  lemma MarkersAreWords(k: nat, j: nat)
    requires k < |MARKERS| && j < |MARKERS[k]|
    ensures 'a' <= MARKERS[k][j] <= 'z' || MARKERS[k][j] == '_'
  {}

  predicate IsWord(c: char) {
    'a' <= LowerChar(c) <= 'z' || LowerChar(c) == '_'
  }

  lemma MarkerIsWord(s: string, k: nat, e: nat, i: nat)
    requires k < |MARKERS| && EndsAt(s, MARKERS[k], e) && e - |MARKERS[k]| <= i < e
    ensures IsWord(s[i])
  {
    var m := MARKERS[k];
    assert LowerChar(s[e - |m| + (i - (e - |m|))]) == m[i - (e - |m|)];
    MarkersAreWords(k, i - (e - |m|));
  }

  /** No marker contains its last letter earlier, so two occurrences of one marker never overlap. */
  lemma MarkersDoNotOverlap(s: string, k: nat, e: nat, e': nat)
    requires k < |MARKERS| && EndsAt(s, MARKERS[k], e) && EndsAt(s, MARKERS[k], e') && e < e'
    ensures e + |MARKERS[k]| <= e'
  {
    var m := MARKERS[k];
    if e' < e + |m| {
      var j := e - 1 - (e' - |m|);
      assert LowerChar(s[e - |m| + (|m| - 1)]) == m[|m| - 1];
      assert LowerChar(s[e' - |m| + j]) == m[j];
      LastLetterIsUnique(k, j);
    }
  }

  lemma LastLetterIsUnique(k: nat, j: nat)
    requires k < |MARKERS| && j < |MARKERS[k]| - 1
    ensures MARKERS[k][j] != MARKERS[k][|MARKERS[k]| - 1]
  {}

  /** A span that the scan can produce: it follows a separator or blank and runs to a terminator. */
  ghost predicate IsValue(s: string, sp: Span) {
    && 0 < sp.start < sp.end <= |s|
    && (IsSeparator(s[sp.start - 1]) || IsBlank(s[sp.start - 1]))
    && (forall j | sp.start <= j < sp.end :: !IsTerminator(s[j]))
    && (sp.end < |s| ==> IsTerminator(s[sp.end]))
  }

  lemma SpanIsValue(s: string, e: nat)
    requires e <= |s| && ValueSpan(s, e).Some?
    ensures IsValue(s, ValueSpan(s, e).value)
  {
    hide SkipBlank, ValueEnd, IsRustSpace;
  }

  lemma ValueBounds(s: string, sp: Span)
    requires IsValue(s, sp)
    ensures 0 < sp.start < sp.end <= |s|
  {}

  lemma MarkerBounds(s: string, m: string, e: nat)
    requires EndsAt(s, m, e)
    ensures |m| <= e <= |s|
  {}

  /** From `e` in `s` and from `e'` in `s'` the rest of the text is the same. */
  ghost predicate SameRest(s: string, e: nat, s': string, e': nat) {
    && e <= |s| && e' <= |s'| && |s| - e == |s'| - e'
    && forall i | e <= i < |s| :: s[i] == s'[i - e + e']
  }

  lemma SkipBlankShifts(s: string, e: nat, s': string, e': nat)
    requires SameRest(s, e, s', e')
    ensures SkipBlank(s, e) - e == SkipBlank(s', e') - e'
    decreases |s| - e
  {
    if e < |s| {
      assert s[e] == s'[e'];
      if IsBlank(s[e]) {
        SkipBlankShifts(s, e + 1, s', e' + 1);
      }
    }
  }

  lemma ValueEndShifts(s: string, e: nat, s': string, e': nat)
    requires SameRest(s, e, s', e')
    ensures ValueEnd(s, e) - e == ValueEnd(s', e') - e'
    decreases |s| - e
  {
    if e < |s| {
      assert s[e] == s'[e'];
      if !IsTerminator(s[e]) {
        ValueEndShifts(s, e + 1, s', e' + 1);
      }
    }
  }

  lemma SliceShifts(s: string, e: nat, s': string, e': nat, a: nat, b: nat)
    requires SameRest(s, e, s', e') && e <= a <= b <= |s|
    ensures s[a..b] == s'[a - e + e'..b - e + e']
  {
    forall j | 0 <= j < b - a ensures s[a..b][j] == s'[a - e + e'..b - e + e'][j] {
      assert s[a + j] == s'[a + j - e + e'];
    }
  }

  lemma SpanShifts(s: string, e: nat, s': string, e': nat)
    requires SameRest(s, e, s', e')
    ensures ValueSpan(s, e).Some? <==> ValueSpan(s', e').Some?
    ensures ValueSpan(s, e).Some? ==>
      var a, b := ValueSpan(s, e).value, ValueSpan(s', e').value; a.start - e == b.start - e' && a.end - e == b.end - e'
  {
    hide ValueSpan, SkipBlank, ValueEnd, IsSeparator, IsTerminator, IsBlank, SameRest;
    SkipBlankShifts(s, e, s', e');
    SpanParts(s, e);
    SpanParts(s', e');
    var p, p' := SkipBlank(s, e), SkipBlank(s', e');
    RestAt(s, e, s', e', p - e);
    if p < |s| {
      ValueShifts(s, p + 1, s', p' + 1);
    }
  }

  lemma ValueShifts(s: string, i: nat, s': string, i': nat)
    requires SameRest(s, i, s', i') && i <= |s| && i' <= |s'|
    ensures var v, v' := SkipBlank(s, i), SkipBlank(s', i');
            v - i == v' - i' && ValueEnd(s, v) - i == ValueEnd(s', v') - i'
  {
    hide SkipBlank, ValueEnd, IsTerminator, IsBlank, SameRest;
    SkipBlankShifts(s, i, s', i');
    RestAt(s, i, s', i', SkipBlank(s, i) - i);
    ValueEndShifts(s, SkipBlank(s, i), s', SkipBlank(s', i'));
  }

  /** The value behind a position depends only on the text from there on. */
  lemma ValueSpanShifts(s: string, e: nat, s': string, e': nat)
    requires SameRest(s, e, s', e')
    ensures ValueSpan(s, e).Some? <==> ValueSpan(s', e').Some?
    ensures ValueSpan(s, e).Some? ==>
      var a, b := ValueSpan(s, e).value, ValueSpan(s', e').value;
      a.start - e == b.start - e' && a.end - e == b.end - e' && s[a.start..a.end] == s'[b.start..b.end]
  {
    hide ValueSpan;
    SpanShifts(s, e, s', e');
    if ValueSpan(s, e).Some? {
      SliceShifts(s, e, s', e', ValueSpan(s, e).value.start, ValueSpan(s, e).value.end);
    }
  }

  lemma RestAt(s: string, e: nat, s': string, e': nat, n: nat)
    requires SameRest(s, e, s', e') && e + n <= |s|
    ensures e' + n <= |s'| && |s| - e == |s'| - e' && SameRest(s, e + n, s', e' + n)
    ensures e + n < |s| ==> s[e + n] == s'[e' + n] && SameRest(s, e + n + 1, s', e' + n + 1)
  {}

  // The three places where a marker can end after `sp` has been masked.

  lemma NoMarkerEndsInMask(s: string, sp: Span, k: nat, e: nat)
    requires IsValue(s, sp) && k < |MARKERS| && sp.start <= e <= sp.start + 3
    ensures !EndsAt(Mask(s, sp), MARKERS[k], e)
  {
    hide EndsAt;
    var s' := Mask(s, sp);
    assert e > sp.start ==> s'[e - 1] == '*';
    assert e == sp.start ==> s'[e - 1] == s[e - 1];
    assert !IsWord(s'[e - 1]);
    assert |MARKERS[k]| > 0;
    if EndsAt(s', MARKERS[k], e) {
      MarkerIsWord(s', k, e, e - 1);
    }
  }

  lemma EndsAtAfterMask(s: string, sp: Span, k: nat, e: nat)
    requires sp.start < sp.end <= |s| && k < |MARKERS| && e > sp.start + 3 && EndsAt(Mask(s, sp), MARKERS[k], e)
    ensures EndsAt(s, MARKERS[k], e - sp.start - 3 + sp.end)
  {
    hide IsWord, LowerChar, MARKERS;
    var s', m := Mask(s, sp), MARKERS[k];
    var d := e - sp.start - 3 + sp.end;
    assert s'[sp.start + 2] == '*';
    StarIsNoWord();
    if e - |m| < sp.start + 3 {
      MarkerIsWord(s', k, e, sp.start + 2);
    }
    AfterMask(s, sp);
    hide Mask;
    forall j | 0 <= j < |m| ensures LowerChar(s[d - |m| + j]) == m[j] {
      assert s[d - |m| + j] == s'[e - |m| + j];
      assert LowerChar(s'[e - |m| + j]) == m[j];
    }
  }

  lemma StarIsNoWord()
    ensures !IsWord('*')
  {}

  lemma MaskedAfter(s: string, sp: Span, k: nat, e: nat)
    requires IsValue(s, sp) && k < |MARKERS| && e > sp.start + 3 && IsUnmasked(Mask(s, sp), MARKERS[k], e)
    ensures IsUnmasked(s, MARKERS[k], e - sp.start - 3 + sp.end)
  {
    hide ValueSpan, IsAlphanumeric, EndsAt, IsRustSpace;
    var s', d := Mask(s, sp), e - sp.start - 3 + sp.end;
    MarkerBounds(s', MARKERS[k], e);
    EndsAtAfterMask(s, sp, k, e);
    AfterMask(s, sp);
    assert e < |s'| ==> s[d] == s'[e];
    assert SameRest(s, d, s', e);
    ValueSpanShifts(s, d, s', e);
  }

  lemma AfterMask(s: string, sp: Span)
    requires sp.start < sp.end <= |s|
    ensures SameRest(s, sp.end, Mask(s, sp), sp.start + 3)
  {}

  lemma EndsAtBeforeMask(s: string, sp: Span, m: string, e: nat)
    requires sp.start < sp.end <= |s| && e < sp.start && EndsAt(Mask(s, sp), m, e)
    ensures EndsAt(s, m, e) && Mask(s, sp)[e] == s[e]
  {
    var s' := Mask(s, sp);
    BeforeMask(s, sp);
    forall j | 0 <= j < |m| ensures LowerChar(s[e - |m| + j]) == m[j] {
      assert LowerChar(s'[e - |m| + j]) == m[j];
    }
  }

  lemma MaskedBefore(s: string, sp: Span, k: nat, e: nat)
    requires IsValue(s, sp) && k < |MARKERS| && e < sp.start && IsUnmasked(Mask(s, sp), MARKERS[k], e)
    ensures IsUnmasked(s, MARKERS[k], e) && ValueSpan(s, e) != Some(sp)
  {
    hide ValueSpan, IsValue, IsAlphanumeric, EndsAt;
    ValueBounds(s, sp);
    EndsAtBeforeMask(s, sp, MARKERS[k], e);
    BeforeMask(s, sp);
    MaskedBeforeSpan(s, sp, e);
  }

  lemma MaskedBeforeSpan(s: string, sp: Span, e: nat)
    requires IsValue(s, sp) && e < sp.start
    requires var s' := Mask(s, sp);
             ValueSpan(s', e).Some? && s'[ValueSpan(s', e).value.start..ValueSpan(s', e).value.end] != MASK
    ensures ValueSpan(s, e).Some? && ValueSpan(s, e) != Some(sp)
    ensures s[ValueSpan(s, e).value.start..ValueSpan(s, e).value.end] != MASK
  {
    hide SkipBlank, ValueEnd, IsTerminator, IsValue, Mask, ValueSpan;
    ValueBounds(s, sp);
    var v := ValueStartsBefore(s, sp, e);
    SpanParts(Mask(s, sp), e);
    SpanParts(s, e);
    ValueEndPrefix(s, sp, v);
  }

  /** The value of a marker before the span starts at the same place with and without the mask. */
  lemma ValueStartsBefore(s: string, sp: Span, e: nat) returns (v: nat)
    requires IsValue(s, sp) && e < sp.start
    requires var s' := Mask(s, sp);
             ValueSpan(s', e).Some? && s'[ValueSpan(s', e).value.start..ValueSpan(s', e).value.end] != MASK
    ensures var p := SkipBlank(s, e);
            && v < sp.start < |Mask(s, sp)| && p < sp.start <= |s| && SkipBlank(Mask(s, sp), e) == p
            && Mask(s, sp)[p] == s[p] && SkipBlank(s, p + 1) == v && SkipBlank(Mask(s, sp), p + 1) == v
  {
    hide SkipBlank, ValueEnd, IsTerminator, IsValue, Mask, ValueSpan;
    ValueBounds(s, sp);
    var s' := Mask(s, sp);
    BeforeMask(s, sp);
    SpanParts(s', e);
    var p := SkipBlank(s', e);
    SkipBlankPrefix(s, s', e, sp.start);
    assert p < sp.start;
    SkipBlankPrefix(s, s', p + 1, sp.start);
    MaskEnds(s, sp);
    v := SkipBlank(s', p + 1);
  }

  lemma SpanParts(s: string, e: nat)
    requires e <= |s|
    ensures var p := SkipBlank(s, e);
            if p == |s| || !IsSeparator(s[p]) then ValueSpan(s, e) == None
            else
              var v := SkipBlank(s, p + 1);
              var end := ValueEnd(s, v);
              ValueSpan(s, e) == if end == v then None else Some(Span(v, end))
  {
    hide SkipBlank, ValueEnd;
  }

  lemma SkipBlankPrefix(s: string, s': string, i: nat, limit: nat)
    requires i <= limit < |s'| && limit <= |s| && !IsBlank(s'[limit])
    requires forall j | 0 <= j < limit :: s'[j] == s[j]
    ensures SkipBlank(s', i) <= limit
    ensures SkipBlank(s', i) < limit ==> SkipBlank(s, i) == SkipBlank(s', i)
    decreases limit - i
  {
    if i < limit && IsBlank(s'[i]) {
      SkipBlankPrefix(s, s', i + 1, limit);
    }
  }

  /** A value that starts before the span is unmasked still: masking the span leaves no bare mask behind `v`. */
  lemma ValueEndPrefix(s: string, sp: Span, v: nat)
    requires IsValue(s, sp) && v < sp.start
    requires var s' := Mask(s, sp); v < |s'| && v < ValueEnd(s', v) && s'[v..ValueEnd(s', v)] != MASK
    ensures v < ValueEnd(s, v) && s[v..ValueEnd(s, v)] != MASK
  {
    hide ValueEnd, IsRustSpace;
    var s' := Mask(s, sp);
    BeforeMask(s, sp);
    var end, end' := ValueEnd(s, v), ValueEnd(s', v);
    if end < sp.start {
      assert end' == end;
      assert s'[v..end] == s[v..end];
    } else {
      assert s[v..end][sp.start - 1 - v] == s[sp.start - 1];
      assert s[sp.start - 1] != '*';
      assert |MASK| == 3 && forall i | 0 <= i < 3 :: MASK[i] == '*';
    }
  }

  lemma BeforeMask(s: string, sp: Span)
    requires sp.start < sp.end <= |s|
    ensures var s' := Mask(s, sp);
            && |s'| >= sp.start + 3 && (forall i | 0 <= i < sp.start :: s'[i] == s[i])
            && s'[sp.start] == '*' && s'[sp.start..sp.start + 3] == MASK
  {}

  /** The mask itself is read as a value of its own. */
  lemma MaskEnds(s: string, sp: Span)
    requires IsValue(s, sp)
    ensures ValueEnd(Mask(s, sp), sp.start) == sp.start + 3
  {
    var s' := Mask(s, sp);
    assert s'[sp.start] == s'[sp.start + 1] == s'[sp.start + 2] == '*';
    assert sp.start + 3 < |s'| ==> s'[sp.start + 3] == s[sp.end];
  }

  // ---------- The measure ----------

  lemma {:induction false} InjectionCard(a: set<nat>, b: set<nat>, f: nat -> nat)
    requires forall x | x in a :: f(x) in b
    requires forall x, y | x in a && y in a && f(x) == f(y) :: x == y
    ensures |a| <= |b|
  {
    if a != {} {
      var x :| x in a;
      InjectionCard(a - {x}, b - {f(x)}, f);
    }
  }

  /** Where a position of the masked string was before. */
  function Unshift(sp: Span, e: nat): nat
    requires sp.start <= sp.end
  {
    if e <= sp.start + 3 then e else e - sp.start - 3 + sp.end
  }

  lemma UnmaskedHasValue(s: string, m: string, e: nat)
    requires IsUnmasked(s, m, e)
    ensures |m| <= e <= |s| && EndsAt(s, m, e) && ValueSpan(s, e).Some? && IsValue(s, ValueSpan(s, e).value)
    ensures e < ValueSpan(s, e).value.start < ValueSpan(s, e).value.end <= |s|
  {
    SpanIsValue(s, e);
  }

  lemma SomeUnmaskedHasValue(s: string, e: nat)
    requires SomeUnmasked(s, e)
    ensures e <= |s| && ValueSpan(s, e).Some? && IsValue(s, ValueSpan(s, e).value)
    ensures e < ValueSpan(s, e).value.start < ValueSpan(s, e).value.end <= |s|
  {
    hide IsUnmasked;
    var k :| 0 <= k < |MARKERS| && IsUnmasked(s, MARKERS[k], e);
    UnmaskedHasValue(s, MARKERS[k], e);
  }

  lemma MaskedEndWasUnmasked(s: string, sp: Span, e: nat)
    requires IsValue(s, sp) && SomeUnmasked(Mask(s, sp), e)
    ensures e < sp.start || e > sp.start + 3
    ensures var d := Unshift(sp, e);
            d <= |s| && SomeUnmasked(s, d) && (d < sp.start ==> ValueSpan(s, d) != Some(sp))
  {
    hide IsUnmasked, IsValue, ValueSpan;
    ValueBounds(s, sp);
    var k :| 0 <= k < |MARKERS| && IsUnmasked(Mask(s, sp), MARKERS[k], e);
    UnmaskedHasValue(Mask(s, sp), MARKERS[k], e);
    if sp.start <= e <= sp.start + 3 {
      NoMarkerEndsInMask(s, sp, k, e);
    } else if e < sp.start {
      MaskedBefore(s, sp, k, e);
    } else {
      MaskedAfter(s, sp, k, e);
    }
    UnmaskedHasValue(s, MARKERS[k], Unshift(sp, e));
  }

  /** Masking one value leaves strictly fewer unmasked occurrences: the reason why the loop ends. */
  lemma MaskingShrinks(s: string, e0: nat)
    requires e0 <= |s| && SomeUnmasked(s, e0)
    ensures |UnmaskedEnds(MaskAt(s, e0))| < |UnmaskedEnds(s)|
  {
    hide SomeUnmasked, ValueSpan, Mask, IsUnmasked;
    SomeUnmaskedHasValue(s, e0);
    var sp := ValueSpan(s, e0).value;
    var a, b := UnmaskedEnds(Mask(s, sp)), UnmaskedEnds(s);
    var f := UnshiftAll(sp);
    forall e | e in a ensures f(e) in b - {e0} && (e < sp.start || e > sp.start + 3) {
      MaskedEndWasUnmasked(s, sp, e);
    }
    InjectionCard(a, b - {e0}, f);
    assert e0 in b;
  }

  function UnshiftAll(sp: Span): nat -> nat
    requires sp.start <= sp.end
  {
    e => if sp.start <= sp.end then Unshift(sp, e) else e
  }

  // ---------- The order of the passes ----------

  /** The first position from `e` on where `m` ends before an unmasked value. */
  function FirstEndFor(s: string, m: string, e: nat): (r: Option<nat>)
    requires e <= |s|
    ensures r.Some? ==> r.value <= |s|
    decreases |s| - e
  {
    if IsUnmasked(s, m, e) then Some(e) else if e == |s| then None else FirstEndFor(s, m, e + 1)
  }

  lemma {:induction false} FirstEndForIs(s: string, m: string, e: nat)
    requires e <= |s|
    ensures var r := FirstEndFor(s, m, e);
            && (r.Some? ==> e <= r.value <= |s| && IsUnmasked(s, m, r.value) && forall j | e <= j < r.value :: !IsUnmasked(s, m, j))
            && (r.None? ==> forall j | e <= j <= |s| :: !IsUnmasked(s, m, j))
    decreases |s| - e
  {
    hide IsUnmasked;
    if !IsUnmasked(s, m, e) && e < |s| {
      FirstEndForIs(s, m, e + 1);
    }
  }

  /** The occurrence that a pass masks: of the first marker in the list that has one, the leftmost. */
  function FirstEnd(s: string, k: nat := 0): (r: Option<nat>)
    requires k <= |MARKERS|
    ensures r.Some? ==> r.value <= |s| && SomeUnmasked(s, r.value)
    decreases |MARKERS| - k
  {
    hide IsUnmasked, FirstEndFor;
    if k == |MARKERS| then None
    else
      FirstEndForIs(s, MARKERS[k], 0);
      var r := FirstEndFor(s, MARKERS[k], 0);
      if r.Some? then r else FirstEnd(s, k + 1)
  }

  lemma {:induction false} FirstEndIs(s: string, k: nat)
    requires k <= |MARKERS|
    ensures FirstEnd(s, k).None? ==> forall i: nat, e: nat | k <= i < |MARKERS| && e <= |s| :: !IsUnmasked(s, MARKERS[i], e)
    decreases |MARKERS| - k
  {
    hide IsUnmasked, FirstEndFor;
    if k < |MARKERS| {
      FirstEndForIs(s, MARKERS[k], 0);
      FirstEndIs(s, k + 1);
    }
  }

  /** The passes, one after the other, until one changes nothing. */
  ghost function Redacted(s: string): string
    decreases |UnmaskedEnds(s)|
  {
    match FirstEnd(s)
    case None => s
    case Some(e) =>
      MaskingShrinks(s, e);
      Redacted(MaskAt(s, e))
  }

  lemma LowerMatches(s: string, m: string, i: nat)
    requires |m| > 0
    ensures At(Lower(s), m, i) <==> EndsAt(s, m, i + |m|)
  {
    var lower := Lower(s);
    if At(lower, m, i) {
      forall j | 0 <= j < |m| ensures LowerChar(s[i + j]) == m[j] {
        assert lower[i..i + |m|][j] == lower[i + j];
      }
    }
    if EndsAt(s, m, i + |m|) {
      forall j | 0 <= j < |m| ensures lower[i..i + |m|][j] == m[j] {
        assert LowerChar(s[i + |m| - |m| + j]) == m[j];
      }
    }
  }

  /** The scan of one pass for one marker, resuming after each occurrence. */
  method ScanMarker(result: string, lower: string, k: nat) returns (found: Option<nat>)
    requires k < |MARKERS| && lower == Lower(result)
    ensures found == FirstEndFor(result, MARKERS[k], 0)
  {
    hide IsUnmasked, IndexOf, FirstEndFor;
    FirstEndForIs(result, MARKERS[k], 0);
    forall e: nat | e < |MARKERS[k]| ensures !IsUnmasked(result, MARKERS[k], e) {
      TooShort(result, k, e);
    }
    var marker := MARKERS[k];
    assert |marker| > 0;
    var searchFrom := 0;
    while true
      invariant searchFrom <= |result|
      invariant forall e: nat | e < searchFrom + |marker| && e <= |result| :: !IsUnmasked(result, marker, e)
      decreases |result| - searchFrom
    {
      var rel := IndexOf(lower, marker, searchFrom);
      if rel.None? {
        forall e | searchFrom + |marker| <= e <= |result| ensures !IsUnmasked(result, marker, e) {
          NoOccurrence(result, k, e);
        }
        return None;
      }
      var afterMarker := rel.value + |marker|;
      forall e | searchFrom + |marker| <= e < afterMarker ensures !IsUnmasked(result, marker, e) {
        NoOccurrence(result, k, e);
      }
      LowerMatches(result, marker, rel.value);
      if IsUnmasked(result, marker, afterMarker) {
        return Some(afterMarker);
      }
      forall e | afterMarker < e < afterMarker + |marker| ensures !IsUnmasked(result, marker, e) {
        NoOverlap(result, k, afterMarker, e);
      }
      searchFrom := afterMarker;
    }
  }

  lemma TooShort(s: string, k: nat, e: nat)
    requires k < |MARKERS| && e < |MARKERS[k]|
    ensures !IsUnmasked(s, MARKERS[k], e)
  {
    hide ValueSpan;
  }

  lemma NoOccurrence(s: string, k: nat, e: nat)
    requires k < |MARKERS| && e >= |MARKERS[k]| && !At(Lower(s), MARKERS[k], e - |MARKERS[k]|)
    ensures !IsUnmasked(s, MARKERS[k], e)
  {
    assert |MARKERS[k]| > 0;
    LowerMatches(s, MARKERS[k], e - |MARKERS[k]|);
  }

  lemma NoOverlap(s: string, k: nat, e: nat, e': nat)
    requires k < |MARKERS| && EndsAt(s, MARKERS[k], e) && e < e' < e + |MARKERS[k]|
    ensures !IsUnmasked(s, MARKERS[k], e')
  {
    if EndsAt(s, MARKERS[k], e') {
      MarkersDoNotOverlap(s, k, e, e');
    }
  }

  /** One pass over the markers: the occurrence to mask, if any is left. */
  method FindUnmasked(result: string) returns (found: Option<nat>)
    ensures found == FirstEnd(result)
  {
    hide FirstEndFor;
    var lower := Lower(result);
    for k := 0 to |MARKERS|
      invariant FirstEnd(result) == FirstEnd(result, k)
    {
      found := ScanMarker(result, lower, k);
      if found.Some? {
        return;
      }
    }
    found := None;
  }

  method RedactAfterMarkers(input: string) returns (result: string)
    ensures result == Redacted(input)
  {
    hide FirstEnd, SomeUnmasked;
    result := input;
    while true
      invariant Redacted(result) == Redacted(input)
      decreases |UnmaskedEnds(result)|
    {
      var found := FindUnmasked(result);
      if found.None? {
        return;
      }
      MaskingShrinks(result, found.value);
      result := MaskAt(result, found.value);
    }
  }

  // ---------- What the fixed point means ----------

  /** No marker in the result is followed by anything but the mask, and redacting again changes nothing. */
  lemma {:induction false} RedactedIsFixedPoint(s: string)
    ensures FullyRedacted(Redacted(s)) && Redacted(Redacted(s)) == Redacted(s)
    decreases |UnmaskedEnds(s)|
  {
    hide IsUnmasked;
    match FirstEnd(s)
    case None => FirstEndIs(s, 0);
    case Some(e) =>
      MaskingShrinks(s, e);
      RedactedIsFixedPoint(MaskAt(s, e));
  }

  lemma NothingToFind(s: string)
    requires FullyRedacted(s)
    ensures FirstEnd(s).None?
  {
    hide IsUnmasked, FirstEnd;
    assert forall e: nat | e <= |s| && SomeUnmasked(s, e) :: e in UnmaskedEnds(s);
  }

  /** A text without unmasked values passes through unchanged, and only such a text does. */
  lemma UnchangedIffFullyRedacted(s: string)
    ensures Redacted(s) == s <==> FullyRedacted(s)
  {
    hide IsUnmasked;
    RedactedIsFixedPoint(s);
    if FullyRedacted(s) {
      NothingToFind(s);
    }
  }

  /** The spaces, quotes and commas of a text, in order. */
  function Terminators(s: string): string {
    if |s| == 0 then "" else (if IsTerminator(s[0]) then [s[0]] else "") + Terminators(s[1..])
  }

  lemma {:induction false} TerminatorsAppend(a: string, b: string)
    ensures Terminators(a + b) == Terminators(a) + Terminators(b)
  {
    hide IsTerminator;
    if |a| == 0 {
      assert a + b == b;
    } else {
      assert (a + b)[1..] == a[1..] + b;
      TerminatorsAppend(a[1..], b);
      var head := if IsTerminator(a[0]) then [a[0]] else "";
      assert head + (Terminators(a[1..]) + Terminators(b)) == (head + Terminators(a[1..])) + Terminators(b);
    }
  }

  lemma {:induction false} NoTerminators(a: string)
    requires forall i | 0 <= i < |a| :: !IsTerminator(a[i])
    ensures Terminators(a) == ""
  {
    if |a| > 0 {
      NoTerminators(a[1..]);
    }
  }

  /** Masking replaces values only: the words of the line keep their number and their separators. */
  lemma {:induction false} RedactedKeepsTerminators(s: string)
    ensures Terminators(Redacted(s)) == Terminators(s)
    decreases |UnmaskedEnds(s)|
  {
    hide SomeUnmasked, IsTerminator;
    match FirstEnd(s)
    case None =>
    case Some(e) =>
      MaskingShrinks(s, e);
      RedactedKeepsTerminators(MaskAt(s, e));
      SomeUnmaskedHasValue(s, e);
      var sp := ValueSpan(s, e).value;
      SpanIsValue(s, e);
      MaskKeepsTerminators(s, sp);
  }

  lemma MaskKeepsTerminators(s: string, sp: Span)
    requires IsValue(s, sp)
    ensures Terminators(Mask(s, sp)) == Terminators(s)
  {
    var before, value, after := s[..sp.start], s[sp.start..sp.end], s[sp.end..];
    assert s == before + value + after;
    NoTerminators(value);
    NoTerminators(MASK);
    TerminatorsAppend(before + value, after);
    TerminatorsAppend(before, value);
    TerminatorsAppend(before + MASK, after);
    TerminatorsAppend(before, MASK);
  }

  // ---------- Letter case ----------

  /** The scan treats the two cases of a letter alike. */
  lemma SameKind(c: char, d: char)
    requires SameLetter(c, d)
    ensures LowerChar(c) == LowerChar(d) && IsAlphanumeric(c) == IsAlphanumeric(d)
    ensures IsBlank(c) == IsBlank(d) && IsSeparator(c) == IsSeparator(d) && IsTerminator(c) == IsTerminator(d)
    ensures c == '*' <==> d == '*'
  {
  }

  lemma SkipBlankCase(s: string, t: string, i: nat)
    requires SameLetters(s, t) && i <= |s|
    ensures SkipBlank(s, i) == SkipBlank(t, i)
    decreases |s| - i
  {
    hide IsBlank, IsTerminator, IsSeparator, SameLetter;
    if i < |s| {
      SameKind(s[i], t[i]);
      if IsBlank(s[i]) {
        SkipBlankCase(s, t, i + 1);
      }
    }
  }

  lemma ValueEndCase(s: string, t: string, i: nat)
    requires SameLetters(s, t) && i <= |s|
    ensures ValueEnd(s, i) == ValueEnd(t, i)
    decreases |s| - i
  {
    hide IsBlank, IsTerminator, IsSeparator, SameLetter;
    if i < |s| {
      SameKind(s[i], t[i]);
      if !IsTerminator(s[i]) {
        ValueEndCase(s, t, i + 1);
      }
    }
  }

  lemma ValueSpanCase(s: string, t: string, e: nat)
    requires SameLetters(s, t) && e <= |s|
    ensures ValueSpan(s, e) == ValueSpan(t, e)
  {
    hide SkipBlank, ValueEnd, IsBlank, IsTerminator, IsSeparator, SameLetter;
    SkipBlankCase(s, t, e);
    var p := SkipBlank(s, e);
    if p < |s| {
      SameKind(s[p], t[p]);
      SkipBlankCase(s, t, p + 1);
      ValueEndCase(s, t, SkipBlank(s, p + 1));
    }
  }

  lemma EndsAtCase(s: string, t: string, m: string, e: nat)
    requires SameLetters(s, t)
    ensures IsMarkerEnd(s, m, e) == IsMarkerEnd(t, m, e)
  {
    hide IsBlank, IsTerminator, IsSeparator, SameLetter, LowerChar, IsAlphanumeric;
    forall i | 0 <= i < |s|
      ensures LowerChar(s[i]) == LowerChar(t[i]) && IsAlphanumeric(s[i]) == IsAlphanumeric(t[i])
    {
      SameKind(s[i], t[i]);
    }
  }

  lemma MaskCase(s: string, t: string, sp: Span)
    requires SameLetters(s, t) && sp.start <= sp.end <= |s|
    ensures s[sp.start..sp.end] == MASK <==> t[sp.start..sp.end] == MASK
  {
    hide SameLetter, IsAlphanumeric, IsBlank, IsSeparator, IsTerminator, LowerChar;
    var a, b := s[sp.start..sp.end], t[sp.start..sp.end];
    forall i | 0 <= i < |a| ensures a[i] == '*' <==> b[i] == '*' {
      SameKind(s[sp.start + i], t[sp.start + i]);
    }
    IsMask(a);
    IsMask(b);
  }

  lemma IsMask(a: string)
    ensures a == MASK <==> |a| == 3 && forall i | 0 <= i < 3 :: a[i] == '*'
  {
  }

  /** Two texts that differ in letter case only have their unmasked values at the same places. */
  lemma LetterCaseDoesNotMatter(s: string, t: string)
    requires SameLetters(s, t)
    ensures UnmaskedEnds(s) == UnmaskedEnds(t)
  {
    hide ValueSpan, IsMarkerEnd, SameLetters;
    assert |s| == |t| by { SameLength(s, t); }
    forall e: nat | e <= |s| ensures SomeUnmasked(s, e) == SomeUnmasked(t, e) {
      ValueSpanCase(s, t, e);
      var span := ValueSpan(s, e);
      if span.Some? {
        MaskCase(s, t, span.value);
      }
      forall k | 0 <= k < |MARKERS| ensures IsUnmasked(s, MARKERS[k], e) == IsUnmasked(t, MARKERS[k], e) {
        EndsAtCase(s, t, MARKERS[k], e);
      }
    }
  }

  lemma SameLength(s: string, t: string)
    requires SameLetters(s, t)
    ensures |s| == |t|
  {
  }

  // ---------- A marker and its value ----------

  /** Text without a separator, a marker in any letter case, blanks or quotes, a separator, blanks or quotes. */
  ghost predicate IsHead(front: string, word: string, head: string) {
    && (forall i | 0 <= i < |front| :: !IsSeparator(front[i]))
    && (exists k :: 0 <= k < |MARKERS| && SameLetters(word, MARKERS[k]))
    && front + word < head
    && exists p: nat :: |front + word| <= p < |head| && IsSeparator(head[p])
         && forall i | |front + word| <= i < |head| && i != p :: IsBlank(head[i])
  }

  ghost predicate IsRun(v: string) {
    |v| > 0 && forall i | 0 <= i < |v| :: !IsTerminator(v[i])
  }

  ghost predicate IsTail(tail: string) {
    tail != "" ==> IsTerminator(tail[0])
  }

  lemma SpellingIsWord(word: string, k: nat, i: nat)
    requires k < |MARKERS| && SameLetters(word, MARKERS[k]) && i < |word|
    ensures IsWord(word[i]) && LowerChar(word[i]) == MARKERS[k][i]
  {
    hide MARKERS;
    MarkersAreWords(k, i);
    SameKind(word[i], MARKERS[k][i]);
  }

  lemma WordsDoNotSeparate(c: char)
    ensures IsWord(c) ==> !IsBlank(c) && !IsSeparator(c)
    ensures IsBlank(c) ==> IsTerminator(c) && !IsSeparator(c)
    ensures IsSeparator(c) ==> !IsTerminator(c) && !IsAlphanumeric(c)
    ensures IsBlank(c) ==> !IsAlphanumeric(c)
  {
  }

  lemma SkipBlankIs(s: string, i: nat, r: nat)
    requires i <= r <= |s| && (forall j | i <= j < r :: IsBlank(s[j])) && (r < |s| ==> !IsBlank(s[r]))
    ensures SkipBlank(s, i) == r
  {
    hide IsBlank;
  }

  lemma ValueEndIs(s: string, i: nat, r: nat)
    requires i <= r <= |s| && (forall j | i <= j < r :: !IsTerminator(s[j])) && (r < |s| ==> IsTerminator(s[r]))
    ensures ValueEnd(s, i) == r
  {
    hide IsTerminator;
  }

  lemma HeadSpan(front: string, word: string, head: string, v: string, tail: string)
    requires IsHead(front, word, head) && IsRun(v) && IsTail(tail)
    ensures |front + word| < |head|
    ensures ValueSpan(head + v + tail, |front + word|) == Some(Span(|head|, |head| + |v|))
    ensures exists k :: 0 <= k < |MARKERS| && IsMarkerEnd(head + v + tail, MARKERS[k], |front + word|)
  {
    hide MARKERS, IsSeparator, IsBlank, IsTerminator, IsAlphanumeric, LowerChar, SameLetters, IsWord, SkipBlank, ValueEnd;
    var s, e := head + v + tail, |front + word|;
    var p: nat :| e <= p < |head| && IsSeparator(head[p]) && forall i | e <= i < |head| && i != p :: IsBlank(head[i]);
    assert forall i | 0 <= i < |head| :: s[i] == head[i];
    assert forall i | 0 <= i < |v| :: s[|head| + i] == v[i];
    assert tail != "" ==> s[|head| + |v|] == tail[0];
    WordsDoNotSeparate(s[p]);
    WordsDoNotSeparate(s[|head|]);
    WordsDoNotSeparate(s[e]);
    SkipBlankIs(s, e, p);
    SkipBlankIs(s, p + 1, |head|);
    ValueEndIs(s, |head|, |head| + |v|);
    var k :| 0 <= k < |MARKERS| && SameLetters(word, MARKERS[k]);
    SpellingEnds(s, front, word, k);
  }

  lemma SpellingEnds(s: string, front: string, word: string, k: nat)
    requires k < |MARKERS| && SameLetters(word, MARKERS[k]) && front + word <= s
    ensures EndsAt(s, MARKERS[k], |front + word|)
  {
    hide MARKERS, LowerChar;
    forall j | 0 <= j < |word| ensures LowerChar(s[|front| + j]) == MARKERS[k][j] {
      SpellingIsWord(word, k, j);
      assert s[|front| + j] == (front + word)[|front| + j];
    }
  }

  lemma WordStarts(word: string, k: nat)
    requires k < |MARKERS| && SameLetters(word, MARKERS[k])
    ensures |word| > 0
  {
  }

  /** Before the marker's end no value is found: the text has no separator. */
  lemma NothingInFront(front: string, word: string, head: string, v: string, tail: string, e: nat)
    requires IsHead(front, word, head) && e < |front + word|
    ensures ValueSpan(head + v + tail, e).None?
  {
    hide MARKERS, IsSeparator, IsBlank, LowerChar, IsWord, SameLetters, ValueEnd, SkipBlank;
    var s, m := head + v + tail, |front|;
    var k :| 0 <= k < |MARKERS| && SameLetters(word, MARKERS[k]);
    WordStarts(word, k);
    assert forall i | 0 <= i < |front + word| :: s[i] == head[i] == (front + word)[i];
    var p := SkipBlank(s, e);
    var at := if e < m then m else e;
    SpellingIsWord(word, k, at - m);
    WordsDoNotSeparate(s[at]);
    assert s[at] == word[at - m];
    assert p <= at;
    assert p < m ==> s[p] == front[p];
  }

  /** Inside the head a value begins only behind the marker. */
  lemma NothingElseInHead(front: string, word: string, head: string, v: string, tail: string, e: nat)
    requires IsHead(front, word, head) && e <= |head| && e != |front + word|
    ensures !SomeUnmasked(head + v + tail, e)
  {
    hide MARKERS, IsSeparator, IsBlank, IsTerminator, IsAlphanumeric, LowerChar, IsWord, EndsAt, ValueSpan, SameLetters;
    var s := head + v + tail;
    if e < |front + word| {
      NothingInFront(front, word, head, v, tail, e);
    } else {
      assert s[e - 1] == head[e - 1];
      WordsDoNotSeparate(s[e - 1]);
      forall k | 0 <= k < |MARKERS| ensures !EndsAt(s, MARKERS[k], e) {
        if EndsAt(s, MARKERS[k], e) {
          MarkerIsNotEmpty(s, k, e);
          MarkerIsWord(s, k, e, e - 1);
        }
      }
    }
  }

  lemma MarkerIsNotEmpty(s: string, k: nat, e: nat)
    requires k < |MARKERS| && EndsAt(s, MARKERS[k], e)
    ensures 0 < |MARKERS[k]| <= e
  {
  }

  /** Masking a value behind the head leaves the head, a value and a rest. */
  lemma MaskBehindHead(head: string, v: string, tail: string, sp: Span) returns (value: string, left: string)
    requires IsRun(v) && IsTail(tail) && IsValue(head + v + tail, sp) && sp.start >= |head|
    ensures Mask(head + v + tail, sp) == head + value + left && IsRun(value) && IsTail(left)
    ensures tail == "" ==> left == ""
  {
    hide IsTerminator, IsSeparator, IsBlank, Mask, IsRun;
    var s, h := head + v + tail, |head| + |v|;
    if sp.end <= h {
      value, left := Mask(v, Span(sp.start - |head|, sp.end - |head|)), tail;
      MaskInside(head, v, tail, sp);
      MaskedRun(v, Span(sp.start - |head|, sp.end - |head|));
    } else {
      assert tail != "" && s[h] == tail[0];
      assert sp.start > h;
      value, left := v, Mask(tail, Span(sp.start - h, sp.end - h));
      MaskInside(head + v, tail, "", sp);
      assert head + v + tail + "" == head + v + tail;
      assert head + v + left + "" == head + v + left;
      MaskedTail(tail, Span(sp.start - h, sp.end - h));
    }
  }

  lemma MaskInside(a: string, b: string, c: string, sp: Span)
    requires |a| <= sp.start <= sp.end <= |a| + |b|
    ensures Mask(a + b + c, sp) == a + Mask(b, Span(sp.start - |a|, sp.end - |a|)) + c
  {
    var s := a + b + c;
    assert s[..sp.start] == a + b[..sp.start - |a|];
    assert s[sp.end..] == b[sp.end - |a|..] + c;
  }

  lemma MaskedRun(v: string, sp: Span)
    requires IsRun(v) && sp.start <= sp.end <= |v|
    ensures IsRun(Mask(v, sp))
  {
    hide IsTerminator;
    StarIsNoTerminator();
  }

  lemma MaskedTail(tail: string, sp: Span)
    requires IsTail(tail) && 0 < sp.start <= sp.end <= |tail|
    ensures IsTail(Mask(tail, sp))
  {
    hide IsTerminator;
  }

  lemma StarIsNoTerminator()
    ensures !IsTerminator('*') && MASK == "***"
  {
  }

  lemma {:induction false} HeadIsMasked(front: string, word: string, head: string, v: string, tail: string)
    returns (rest: string)
    requires IsHead(front, word, head) && IsRun(v) && IsTail(tail)
    ensures Redacted(head + v + tail) == head + MASK + rest && IsTail(rest) && (tail == "" ==> rest == "")
    decreases |UnmaskedEnds(head + v + tail)|
  {
    hide IsHead, IsRun, IsTail, ValueSpan, SomeUnmasked, Mask, IsUnmasked, UnmaskedEnds, FirstEnd, IsValue;
    var s, end := head + v + tail, |front + word|;
    HeadSpan(front, word, head, v, tail);
    RedactedStep(s);
    match FirstEnd(s)
    case None =>
      MaskedAlready(s, end, Span(|head|, |head| + |v|));
      assert s[|head|..|head| + |v|] == v;
      rest := tail;
    case Some(e) =>
      SomeUnmaskedHasValue(s, e);
      SpanIsValue(s, e);
      if e != end {
        if e <= |head| {
          NothingElseInHead(front, word, head, v, tail, e);
        }
        SpanStartsBehind(s, e);
      }
      var v', tail' := MaskBehindHead(head, v, tail, ValueSpan(s, e).value);
      MaskingShrinks(s, e);
      rest := HeadIsMasked(front, word, head, v', tail');
  }

  lemma RedactedStep(s: string)
    ensures Redacted(s) == match FirstEnd(s) case None => s case Some(e) => Redacted(MaskAt(s, e))
  {
    hide MaskAt, FirstEnd, UnmaskedEnds;
  }

  lemma SpanStartsBehind(s: string, e: nat)
    requires e <= |s| && ValueSpan(s, e).Some?
    ensures e < ValueSpan(s, e).value.start < ValueSpan(s, e).value.end <= |s|
  {
  }

  lemma MaskedAlready(s: string, e: nat, sp: Span)
    requires FirstEnd(s).None? && e <= |s| && ValueSpan(s, e) == Some(sp) && sp.start <= sp.end <= |s|
    requires exists k :: 0 <= k < |MARKERS| && IsMarkerEnd(s, MARKERS[k], e)
    ensures s[sp.start..sp.end] == MASK
  {
    hide MARKERS, IsMarkerEnd, ValueSpan, FirstEnd;
    FirstEndIs(s, 0);
    var k :| 0 <= k < |MARKERS| && IsMarkerEnd(s, MARKERS[k], e);
    assert !IsUnmasked(s, MARKERS[k], e);
  }

  /** No value behind the first separator of a line survives when a marker is in front of it: whatever the letter case of
      the marker, whatever blanks and quotes are around the separator, and whatever follows the value. */
  lemma ValueIsMasked(front: string, word: string, before: string, separator: char, after: string, value: string,
                      tail: string)
    returns (rest: string)
    requires forall c | c in front :: c != ':' && c != '='
    requires exists m :: m in ["authorization", "api_key", "apikey", "password", "secret", "token", "key"]
                         && SameLetters(word, m)
    requires separator == ':' || separator == '='
    requires forall c | c in before + after :: c in [' ', '\U{0022}', '\U{0027}']
    requires value != "" && forall c | c in value :: !IsRustSpace(c) && c !in ['\U{0022}', '\U{0027}', ',']
    requires tail != "" ==> IsRustSpace(tail[0]) || tail[0] in ['\U{0022}', '\U{0027}', ',']
    ensures Redacted(front + word + before + [separator] + after + value + tail)
            == front + word + before + [separator] + after + "***" + rest
    ensures tail == "" ==> rest == ""
  {
    var head := front + word + before + [separator] + after;
    HeadIsHead(front, word, before, separator, after);
    assert forall i | 0 <= i < |value| :: value[i] in value;
    assert IsRun(value) && IsTail(tail);
    hide *;
    rest := HeadIsMasked(front, word, head, value, tail);
    StarIsNoTerminator();
  }

  lemma HeadIsHead(front: string, word: string, before: string, separator: char, after: string)
    requires forall c | c in front :: c != ':' && c != '='
    requires exists m :: m in ["authorization", "api_key", "apikey", "password", "secret", "token", "key"]
                         && SameLetters(word, m)
    requires separator == ':' || separator == '='
    requires forall c | c in before + after :: c in [' ', '\U{0022}', '\U{0027}']
    ensures IsHead(front, word, front + word + before + [separator] + after)
  {
    hide SameLetters;
    var e := |front + word|;
    var head, p := front + word + before + [separator] + after, e + |before|;
    var m :| m in ["authorization", "api_key", "apikey", "password", "secret", "token", "key"] && SameLetters(word, m);
    assert exists k :: 0 <= k < |MARKERS| && MARKERS[k] == m;
    assert forall i | 0 <= i < |front| :: front[i] in front;
    assert head[p] == separator && IsSeparator(head[p]);
    forall i | e <= i < |head| && i != p ensures IsBlank(head[i]) {
      assert head[i] in before + after by {
        if i < p {
          assert head[i] == (before + after)[i - e];
        } else {
          assert head[i] == (before + after)[i - e - 1];
        }
      }
    }
  }

  /** A line without a separator is left as it is. */
  lemma NoSeparatorNoMask(s: string)
    requires forall c | c in s :: c != ':' && c != '='
    ensures Redacted(s) == s
  {
    hide IsMarkerEnd, MARKERS;
    forall e: nat | e <= |s| ensures ValueSpan(s, e).None? {
      var p := SkipBlank(s, e);
      assert p < |s| ==> s[p] in s;
    }
    UnchangedIffFullyRedacted(s);
  }

  /** So is a line in which no marker occurs, in any letter case. */
  lemma NoMarkerNoMask(s: string)
    requires forall m, i: nat | m in ["authorization", "api_key", "apikey", "password", "secret", "token", "key"] ::
               !IsSpelledAt(s, m, i)
    ensures Redacted(s) == s
  {
    hide ValueSpan, IsSpelledAt, EndsAt;
    forall k, e: nat | 0 <= k < |MARKERS| && e <= |s| ensures !EndsAt(s, MARKERS[k], e) {
      if EndsAt(s, MARKERS[k], e) {
        EndsWithSpelling(s, k, e);
      }
    }
    NoEndNoMask(s);
  }

  lemma NoEndNoMask(s: string)
    requires forall k, e: nat | 0 <= k < |MARKERS| && e <= |s| :: !EndsAt(s, MARKERS[k], e)
    ensures Redacted(s) == s
  {
    hide MARKERS, ValueSpan, EndsAt;
    UnchangedIffFullyRedacted(s);
  }

  lemma EndsWithSpelling(s: string, k: nat, e: nat)
    requires k < |MARKERS| && EndsAt(s, MARKERS[k], e)
    ensures |MARKERS[k]| <= e && IsSpelledAt(s, MARKERS[k], e - |MARKERS[k]|)
  {
    hide MARKERS;
    var i := e - |MARKERS[k]|;
    forall j | 0 <= j < |MARKERS[k]| ensures SameLetter(s[i..e][j], MARKERS[k][j]) {
      MarkersAreWords(k, j);
      assert LowerChar(s[i + j]) == MARKERS[k][j];
      LowerCharIff(s[i + j], MARKERS[k][j]);
    }
  }
}
