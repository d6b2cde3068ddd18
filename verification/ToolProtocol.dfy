/** The removal of tool-call control blocks from message text in frontend/src/services/conversation.ts. */
module ToolProtocol {
  import opened Wrappers
  import opened Text

  const MARKERS: seq<(string, string)> := [
    ("<|DSML|><|tool_calls|>", "</|tool_calls>"),
    ("<|DSML|tool_calls>", "<|/DSML|tool_calls>"),
    ("<|DSML|tool_calls>", "<|DSML|/tool_calls>"),
    ("<|DSML|tool_calls>", "</|DSML|tool_calls>"),
    ("<||DSML||tool_calls>", "</||DSML||tool_calls>"),
    ("<\U{FF5C}DSML\U{FF5C}tool_calls>", "<\U{FF5C}/DSML\U{FF5C}tool_calls>"),
    ("<\U{FF5C}DSML\U{FF5C}tool_calls>", "<\U{FF5C}DSML\U{FF5C}/tool_calls>"),
    ("<\U{FF5C}DSML\U{FF5C}tool_calls>", "</\U{FF5C}DSML\U{FF5C}tool_calls>"),
    ("<\U{FF5C}\U{FF5C}DSML\U{FF5C}\U{FF5C}tool_calls>", "</\U{FF5C}\U{FF5C}DSML\U{FF5C}\U{FF5C}tool_calls>")
  ]

  // ---------- Blocks ----------

  /** `s[i..j]` starts with a start marker and ends with the end marker paired with it. */
  predicate Brackets(s: string, marker: (string, string), i: nat, j: nat) {
    && i + |marker.0| + |marker.1| <= j
    && At(s, marker.0, i) && At(s, marker.1, j - |marker.1|)
  }

  predicate IsBlock(s: string, i: nat, j: nat) {
    exists p | 0 <= p < |MARKERS| :: Brackets(s, MARKERS[p], i, j)
  }

  ghost predicate HasNoBlock(s: string) {
    forall i: nat, j: nat :: !IsBlock(s, i, j)
  }

  /** The text without `s[i..j]` and the white space around it; one line break remains between two texts. */
  function Cut(s: string, i: nat, j: nat): string
    requires i <= j <= |s|
  {
    var before := TrimEnd(s[..i], IsScriptSpace);
    var after := TrimStart(s[j..], IsScriptSpace);
    if before != "" && after != "" then before + "\n" + after else if before != "" then before else after
  }

  /** `t` comes from `s` by cutting blocks, one after the other. */
  ghost predicate Reduces(s: string, t: string)
    decreases |s|
  {
    s == t || exists i: nat, j: nat :: IsBlock(s, i, j) && |Cut(s, i, j)| < |s| && Reduces(Cut(s, i, j), t)
  }

  lemma CutIsShorter(s: string, i: nat, j: nat)
    requires IsBlock(s, i, j)
    ensures i < j <= |s| && |Cut(s, i, j)| < |s|
  {
    var p :| 0 <= p < |MARKERS| && Brackets(s, MARKERS[p], i, j);
    MarkersAreLong(p);
  }

  lemma MarkersAreLong(p: nat)
    requires p < |MARKERS|
    ensures |MARKERS[p].0| > 4 && |MARKERS[p].1| > 1
    ensures MARKERS[p].0[2..6] == "DSML" || MARKERS[p].0[3..7] == "DSML"
  {
    var marker := MARKERS[p].0;
    var k := if p == 4 || p == 8 then 3 else 2;
    assert marker[k] == 'D' && marker[k + 1] == 'S' && marker[k + 2] == 'M' && marker[k + 3] == 'L';
    assert marker[k..k + 4] == [marker[k], marker[k + 1], marker[k + 2], marker[k + 3]];
  }

  // ---------- The search ----------

  function BlockOf(s: string, marker: (string, string)): (found: Option<(nat, nat)>)
    ensures found.Some? ==> Brackets(s, marker, found.value.0, found.value.1)
    ensures forall i: nat, j: nat | Brackets(s, marker, i, j) :: found.Some? && found.value.0 <= i
  {
    match IndexOf(s, marker.0)
    case None => None
    case Some(i) =>
      match IndexOf(s, marker.1, i + |marker.0|)
      case None => None
      case Some(e) => Some((i, e + |marker.1|))
  }

  /** Among the first `n` markers, the block that starts first; the earlier marker wins a tie. */
  function Earliest(s: string, n: nat): (found: Option<(nat, nat)>)
    requires n <= |MARKERS|
    ensures found.Some? ==> IsBlock(s, found.value.0, found.value.1)
    ensures forall p: nat, i: nat, j: nat | p < n && Brackets(s, MARKERS[p], i, j) :: found.Some? && found.value.0 <= i
  {
    if n == 0 then None
    else
      var found := Earliest(s, n - 1);
      match BlockOf(s, MARKERS[n - 1])
      case None => found
      case Some(block) => if found.None? || block.0 < found.value.0 then Some(block) else found
  }

  /** Cutting the earliest block until none is left. */
  function Cleaned(s: string): (t: string)
    ensures HasNoBlock(t) && Reduces(s, t)
    decreases |s|
  {
    match Earliest(s, |MARKERS|)
    case None => s
    case Some((i, j)) =>
      CutIsShorter(s, i, j);
      Cleaned(Cut(s, i, j))
  }

  lemma OccurrenceFits(s: string, pat: string, i: nat)
    requires At(s, pat, i)
    ensures i + |pat| <= |s|
  {
  }

  /** One pass over the markers; the indices are -1 when no block is complete. */
  method FindBlock(cleaned: string) returns (startIndex: int, endIndex: int)
    ensures startIndex < 0 ==> Earliest(cleaned, |MARKERS|) == None
    ensures startIndex >= 0 ==> endIndex >= 0 && Earliest(cleaned, |MARKERS|) == Some((startIndex, endIndex))
  {
    hide MARKERS, IndexOf, At;
    startIndex, endIndex := -1, -1;
    for n := 0 to |MARKERS|
      invariant startIndex < 0 ==> Earliest(cleaned, n) == None
      invariant startIndex >= 0 ==> endIndex >= 0 && Earliest(cleaned, n) == Some((startIndex, endIndex))
    {
      var (start, end) := MARKERS[n];
      var candidateStart := IndexOf(cleaned, start);
      if candidateStart.None? {
        continue;
      }
      OccurrenceFits(cleaned, start, candidateStart.value);
      var remainderStart := candidateStart.value + |start|;
      var relativeEnd := IndexOf(cleaned, end, remainderStart);
      if relativeEnd.None? {
        continue;
      }
      if startIndex < 0 || candidateStart.value < startIndex {
        startIndex := candidateStart.value;
        endIndex := relativeEnd.value + |end|;
      }
    }
  }

  method CleanToolProtocol(content: string) returns (result: string)
    ensures result == WithoutProtocol(content)
  {
    if !Contains(content, "DSML") {
      return content;
    }
    var cleaned := content;
    while true
      invariant Cleaned(cleaned) == Cleaned(content)
      decreases |cleaned|
    {
      var startIndex, endIndex := FindBlock(cleaned);
      if startIndex < 0 {
        break;
      }
      CutIsShorter(cleaned, startIndex, endIndex);
      var before := TrimEnd(cleaned[..startIndex], IsScriptSpace);
      var after := TrimStart(cleaned[endIndex..], IsScriptSpace);
      cleaned := if before != "" && after != "" then before + "\n" + after else if before != "" then before else after;
    }
    result := Trim(cleaned, IsScriptSpace);
  }

  function WithoutProtocol(content: string): string {
    if !Contains(content, "DSML") then content else Trim(Cleaned(content), IsScriptSpace)
  }

  // ---------- What is left ----------

  lemma BlockInPart(s: string, from: nat, end: nat, i: nat, j: nat)
    requires from <= end <= |s| && IsBlock(s[from..end], i, j)
    ensures IsBlock(s, from + i, from + j)
  {
    var p :| 0 <= p < |MARKERS| && Brackets(s[from..end], MARKERS[p], i, j);
    AtInPart(s, from, end, MARKERS[p].0, i);
    AtInPart(s, from, end, MARKERS[p].1, j - |MARKERS[p].1|);
    assert Brackets(s, MARKERS[p], from + i, from + j);
  }

  lemma PartHasNoBlock(s: string, from: nat, end: nat)
    requires from <= end <= |s| && HasNoBlock(s)
    ensures HasNoBlock(s[from..end])
  {
    forall i: nat, j: nat ensures !IsBlock(s[from..end], i, j) {
      if IsBlock(s[from..end], i, j) {
        BlockInPart(s, from, end, i, j);
      }
    }
  }

  lemma PartOfPart(s: string, from: nat, end: nat, i: nat, j: nat)
    requires from <= end <= |s| && i <= j <= end - from
    ensures s[from..end][i..j] == s[from + i..from + j]
  {
    var part := s[from..end][i..j];
    assert forall k | 0 <= k < |part| :: part[k] == s[from + i..from + j][k];
  }

  lemma AtInPart(s: string, from: nat, end: nat, pat: string, i: nat)
    requires from <= end <= |s| && At(s[from..end], pat, i)
    ensures At(s, pat, from + i)
  {
    PartOfPart(s, from, end, i, i + |pat|);
  }

  lemma TrimIsPart(s: string, space: char -> bool)
    ensures exists from: nat, end: nat :: from <= end <= |s| && Trim(s, space) == s[from..end]
  {
    var e := TrimEnd(s, space);
    var t := TrimStart(e, space);
    assert e == s[..|e|];
    assert t == s[|e| - |t|..|e|];
  }

  /** Every block names the protocol, so text that does not name it has none. */
  lemma BlocksAreNamed(s: string, i: nat, j: nat)
    requires IsBlock(s, i, j)
    ensures Contains(s, "DSML")
  {
    hide IndexOf;
    var p :| 0 <= p < |MARKERS| && Brackets(s, MARKERS[p], i, j);
    var marker := MARKERS[p].0;
    MarkersAreLong(p);
    var k := if marker[2..6] == "DSML" then 2 else 3;
    PartOfPart(s, i, i + |marker|, k, k + 4);
    assert At(s, "DSML", i + k);
  }

  /** No start marker of the result is followed by its end marker, even where a cut has joined two texts. */
  lemma NoBlockIsLeft(content: string)
    ensures HasNoBlock(WithoutProtocol(content))
  {
    if Contains(content, "DSML") {
      var cleaned := Cleaned(content);
      TrimIsPart(cleaned, IsScriptSpace);
      var from: nat, end: nat :| from <= end <= |cleaned| && Trim(cleaned, IsScriptSpace) == cleaned[from..end];
      PartHasNoBlock(cleaned, from, end);
    } else {
      forall i: nat, j: nat ensures !IsBlock(content, i, j) {
        if IsBlock(content, i, j) {
          BlocksAreNamed(content, i, j);
        }
      }
    }
  }

  /** Text without a block is only trimmed, and not even that when it does not name the protocol. */
  lemma CleanTextStays(content: string)
    requires HasNoBlock(content)
    ensures WithoutProtocol(content) == if Contains(content, "DSML") then Trim(content, IsScriptSpace) else content
  {
    assert Earliest(content, |MARKERS|) == None;
  }

  lemma CleaningTwiceIsCleaningOnce(content: string)
    ensures WithoutProtocol(WithoutProtocol(content)) == WithoutProtocol(content)
  {
    NoBlockIsLeft(content);
    CleanTextStays(WithoutProtocol(content));
    if Contains(content, "DSML") {
      TrimFixed(WithoutProtocol(content), IsScriptSpace);
    }
  }

  // ---------- What is kept ----------

  /** The characters other than white space, in order. */
  function Visible(s: string): string {
    if |s| == 0 then ""
    else Visible(s[..|s| - 1]) + if IsScriptSpace(s[|s| - 1]) then "" else [s[|s| - 1]]
  }

  lemma {:induction false} VisibleAppend(s: string, t: string)
    ensures Visible(s + t) == Visible(s) + Visible(t)
    decreases |t|
  {
    if |t| == 0 {
      assert s + t == s;
    } else {
      VisibleAppend(s, t[..|t| - 1]);
      assert (s + t)[..|s + t| - 1] == s + t[..|t| - 1];
    }
  }

  lemma {:induction false} SpaceIsInvisible(s: string)
    requires forall i | 0 <= i < |s| :: IsScriptSpace(s[i])
    ensures Visible(s) == ""
  {
    if |s| > 0 {
      SpaceIsInvisible(s[..|s| - 1]);
    }
  }

  lemma TrimsKeepVisible(s: string)
    ensures Visible(TrimEnd(s, IsScriptSpace)) == Visible(s)
    ensures Visible(TrimStart(s, IsScriptSpace)) == Visible(s)
  {
    hide Visible, TrimStart, TrimEnd, IsScriptSpace;
    var e := TrimEnd(s, IsScriptSpace);
    assert s == e + s[|e|..];
    VisibleAppend(e, s[|e|..]);
    SpaceIsInvisible(s[|e|..]);
    var t := TrimStart(s, IsScriptSpace);
    assert s == s[..|s| - |t|] + t;
    VisibleAppend(s[..|s| - |t|], t);
    SpaceIsInvisible(s[..|s| - |t|]);
  }

  /** Cutting a block loses nothing visible outside the block. */
  lemma CutKeepsTheRest(s: string, i: nat, j: nat)
    requires i <= j <= |s|
    ensures Visible(Cut(s, i, j)) == Visible(s[..i]) + Visible(s[j..])
  {
    hide Visible, TrimStart, TrimEnd, IsScriptSpace;
    var before := TrimEnd(s[..i], IsScriptSpace);
    var after := TrimStart(s[j..], IsScriptSpace);
    TrimsKeepVisible(s[..i]);
    TrimsKeepVisible(s[j..]);
    NothingIsInvisible();
    if before != "" && after != "" {
      VisibleAppend(before, "\n");
      VisibleAppend(before + "\n", after);
      assert Visible(before) + "" == Visible(before);
    } else if before != "" {
      assert Visible(before) + "" == Visible(before);
    } else {
      assert "" + Visible(after) == Visible(after);
    }
  }

  lemma NothingIsInvisible()
    ensures Visible("\n") == Visible("") == ""
  {
  }
}
