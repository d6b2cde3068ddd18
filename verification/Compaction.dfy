/** Where a compacted conversation is cut: in the browser (frontend/src/stores/contextManagementStore.ts), in the
    Gateway (gateway/internal/handler) and in the Engine (engine/src/api/conversations.rs). */
module Compaction {
  import opened Wrappers

  /** A reply names the message that it answers. */
  datatype Message = Message(id: string, parentId: Option<string>, role: string, content: string)

  /** The text of a summary: the local preview of some messages, or text from a model or from storage. */
  datatype Summary = Preview(count: nat, lines: seq<Message>) | Text(text: string)

  datatype Source = Local | Summarized | Restored

  datatype State = State(summary: Summary, keepRecent: nat, sourceTokens: nat,
                         startId: Option<string>, endId: Option<string>, source: Source)

  /** What the Engine stores for a conversation. */
  datatype Saved = Saved(summary: Summary, startId: string, endId: string)

  // ---------- The cut ----------

  const DEFAULT_KEEP_RECENT: nat := 6

  /** A third of the messages, but at least two and at most six. */
  function KeepRecent(n: nat): (kept: nat)
    ensures 2 <= kept <= 6
    ensures (kept > 2 ==> 3 * kept <= n) && (kept < 6 ==> n < 3 * kept + 3)
  {
    var third := if n / 3 < 2 then 2 else n / 3;
    if third < 6 then third else 6
  }

  /** The messages that a summary stands for, given the number of newest messages it leaves out. */
  function Archived(messages: seq<Message>, keepRecent: nat): (archived: seq<Message>)
    ensures archived <= messages
  {
    if keepRecent == 0 then messages
    else if keepRecent < |messages| then messages[..|messages| - keepRecent]
    else []
  }

  function Tokens(messages: seq<Message>, estimate: string -> nat): nat {
    if |messages| == 0 then 0
    else Tokens(messages[..|messages| - 1], estimate) + estimate(messages[|messages| - 1].content)
  }

  function Spoken(messages: seq<Message>): (spoken: seq<Message>)
    ensures forall m :: m in spoken <==> m in messages && (m.role == "user" || m.role == "assistant")
  {
    if |messages| == 0 then []
    else
      var last := messages[|messages| - 1];
      Spoken(messages[..|messages| - 1]) + if last.role == "user" || last.role == "assistant" then [last] else []
  }

  function LastTwelve(messages: seq<Message>): seq<Message> {
    if |messages| > 12 then messages[|messages| - 12..] else messages
  }

  /** The summary that the browser makes on its own; none for a short or a silent past. */
  function Summarize(messages: seq<Message>, estimate: string -> nat): Option<State> {
    if |messages| < 4 then None
    else
      var keepRecent := KeepRecent(|messages|);
      var archived := Archived(messages, keepRecent);
      var lines := LastTwelve(Spoken(archived));
      if |lines| == 0 then None
      else Some(State(Preview(|archived|, lines), keepRecent, Tokens(archived, estimate), None, None, Local))
  }

  function FirstId(messages: seq<Message>): Option<string> {
    if |messages| == 0 then None else Some(messages[0].id)
  }

  function LastId(messages: seq<Message>): Option<string> {
    if |messages| == 0 then None else Some(messages[|messages| - 1].id)
  }

  function FindId(messages: seq<Message>, id: string): (found: Option<nat>)
    ensures found.Some? ==> found.value < |messages| && messages[found.value].id == id
    ensures forall i | 0 <= i < |messages| && messages[i].id == id :: found.Some? && found.value <= i
  {
    if |messages| == 0 then None
    else
      var found := FindId(messages[..|messages| - 1], id);
      if found.None? && messages[|messages| - 1].id == id then Some(|messages| - 1) else found
  }

  function RestoredKeep(messages: seq<Message>, endId: Option<string>): nat {
    if endId.None? || endId.value == "" then DEFAULT_KEEP_RECENT
    else
      match FindId(messages, endId.value)
      case Some(endIndex) => |messages| - endIndex - 1
      case None => DEFAULT_KEEP_RECENT
  }

  class CompactionStore {
    const estimate: string -> nat
    var compactions: map<string, State>
    /** The summaries that the Engine has stored. */
    var saved: map<string, Saved>

    constructor (estimate: string -> nat)
      ensures compactions == map[] && saved == map[] && this.estimate == estimate
    {
      this.estimate, compactions, saved := estimate, map[], map[];
    }

    /** Summarizes the past locally and sends the summary to the Engine, where `stored` says if it arrives. */
    method CompactConversation(id: string, messages: seq<Message>, stored: bool) returns (result: Option<State>)
      modifies this
      ensures result == Summarize(messages, estimate)
      ensures result.None? ==> compactions == old(compactions) && saved == old(saved)
      ensures result.Some? ==>
        var archived := Archived(messages, result.value.keepRecent);
        && compactions == old(compactions)[id := result.value.(startId := FirstId(archived), endId := LastId(archived))]
        && saved == if stored && archived != [] && archived[0].id != "" && archived[|archived| - 1].id != ""
                    then old(saved)[id := Saved(result.value.summary, archived[0].id, archived[|archived| - 1].id)]
                    else old(saved)
    {
      result := Summarize(messages, estimate);
      if result.None? {
        return;
      }
      var archived := Archived(messages, result.value.keepRecent);
      var startId, endId := FirstId(archived), LastId(archived);
      compactions := compactions[id := result.value.(startId := startId, endId := endId)];
      if startId.Some? && startId.value != "" && endId.Some? && endId.value != "" && stored {
        saved := saved[id := Saved(result.value.summary, startId.value, endId.value)];
      }
    }

    method ClearCompaction(id: string, deleted: bool)
      modifies this
      ensures compactions == old(compactions) - {id}
      ensures saved == if deleted then old(saved) - {id} else old(saved)
    {
      if deleted {
        saved := saved - {id};
      }
      compactions := compactions - {id};
    }

    method SetSummarizedCompaction(id: string, text: string, keepRecent: int, startId: string, endId: string,
                                   messages: seq<Message>)
      modifies this`compactions
      ensures var bounded := if keepRecent < 0 then 0 else if keepRecent < |messages| then keepRecent else |messages|;
        compactions == old(compactions)[id := State(Text(text), bounded, Tokens(Archived(messages, bounded), estimate),
                                                    Some(startId), Some(endId), Summarized)]
    {
      var least := if keepRecent < |messages| then keepRecent else |messages|;
      var bounded := if least > 0 then least else 0;
      var archived := Archived(messages, bounded);
      compactions := compactions[id := State(Text(text), bounded, Tokens(archived, estimate),
                                             Some(startId), Some(endId), Summarized)];
    }

    /** After a conversation loads; a summary of this session stays. */
    method RestoreCompaction(id: string, summary: Option<Summary>, startId: Option<string>, endId: Option<string>,
                             messages: seq<Message>)
      modifies this`compactions
      ensures id in old(compactions) || summary.None? || summary == Some(Text("")) ==> compactions == old(compactions)
      ensures id !in old(compactions) && summary.Some? && summary != Some(Text("")) ==>
        var keepRecent := RestoredKeep(messages, endId);
        compactions == old(compactions)[id := State(summary.value, keepRecent,
                                                    Tokens(Archived(messages, keepRecent), estimate), startId, endId, Restored)]
    {
      if summary.None? || summary == Some(Text("")) {
        return;
      }
      if id in compactions {
        return;
      }
      var keepRecent := RestoredKeep(messages, endId);
      var archived := Archived(messages, keepRecent);
      compactions := compactions[id := State(summary.value, keepRecent, Tokens(archived, estimate), startId, endId, Restored)];
    }
  }

  // ---------- The other two programs ----------

  /** The Engine's last summarized message, for a retained count that the client sends. */
  function SummaryBoundary(messages: seq<Message>, keepRecent: nat): Option<string> {
    if |messages| > Kept(keepRecent) then Some(messages[|messages| - Kept(keepRecent) - 1].id) else LastId(messages)
  }

  /** The Gateway's retained count when it writes a summary with a model: what is asked for, between 1 and 50, or 6; none
      when that leaves nothing to summarize, or when there are fewer than four messages. */
  function GatewayKeep(n: nat, requested: int): (kept: Option<nat>)
    ensures kept.Some? ==> n >= 4 && kept.value < n && 1 <= kept.value <= 50
    ensures kept.Some? ==> if requested == 0 then kept.value == 6
                           else (kept.value > 1 ==> kept.value <= requested) && (kept.value < 50 ==> requested <= kept.value)
    ensures kept.None? ==> n < 4 || (if requested == 0 then n <= 6 else if requested <= 50 then n <= requested else n <= 50)
  {
    var asked := if requested == 0 then 6 else requested;
    var kept := if asked < 1 then 1 else if asked > 50 then 50 else asked;
    if n < 4 || kept >= n then None else Some(kept)
  }

  /** The Engine and the Gateway take a count of 0 for the default. */
  function Kept(keepRecent: nat): nat {
    if keepRecent == 0 then DEFAULT_KEEP_RECENT else keepRecent
  }

  /** The messages that the Gateway sends to the model beside a summary. */
  function GatewayHistory(messages: seq<Message>, keepRecent: nat): seq<Message> {
    if |messages| > Kept(keepRecent) then messages[|messages| - Kept(keepRecent)..] else messages
  }

  const MAX_KEEP_RECENT: nat := 1000

  /** A request with a larger retained count is refused before anything is sent. */
  function GatewaySend(messages: seq<Message>, keepRecent: nat): Option<seq<Message>> {
    if keepRecent > MAX_KEEP_RECENT then None else Some(GatewayHistory(messages, keepRecent))
  }

  /** Deleting a message deletes its replies; stored summaries are left alone. */
  function DeleteBranch(messages: seq<Message>, id: string): seq<Message> {
    if |messages| == 0 then []
    else
      var last := messages[|messages| - 1];
      DeleteBranch(messages[..|messages| - 1], id) + if last.id == id || last.parentId == Some(id) then [] else [last]
  }

  /** The transcript that a request replacing a question is answered with: what stands before the question. None when
      there is no such question and the request is refused. */
  function BeforeQuestion(messages: seq<Message>, id: string): (before: Option<seq<Message>>)
    ensures before.Some? ==> |before.value| < |messages| && before.value == messages[..|before.value|]
                             && messages[|before.value|].id == id && messages[|before.value|].role == "user"
    ensures before.Some? <==> exists i :: 0 <= i < |messages| && messages[i].id == id && messages[i].role == "user"
    ensures before.Some? ==> forall i | 0 <= i < |before.value| :: !(messages[i].id == id && messages[i].role == "user")
  {
    if |messages| == 0 then None
    else
      var earlier, last := messages[..|messages| - 1], messages[|messages| - 1];
      var before := BeforeQuestion(earlier, id);
      if before.None? && last.id == id && last.role == "user" then Some(earlier) else before
  }

  // ---------- Agreement ----------

  ghost predicate UniqueIds(messages: seq<Message>) {
    forall i, j | 0 <= i < j < |messages| :: messages[i].id != messages[j].id
  }

  /** A local summary leaves out two to six messages, never all, and stands for at least one. */
  lemma LocalSummaries(messages: seq<Message>, estimate: string -> nat)
    ensures Summarize(messages, estimate).Some? <==>
            |messages| >= 4 && exists m :: m in Archived(messages, KeepRecent(|messages|)) && (m.role == "user" || m.role == "assistant")
    ensures Summarize(messages, estimate).Some? ==>
            var state := Summarize(messages, estimate).value;
            && 2 <= state.keepRecent <= 6 && state.keepRecent < |messages|
            && 0 < |state.summary.lines| <= 12 && forall m | m in state.summary.lines :: m in Archived(messages, state.keepRecent)
  {
    if |messages| >= 4 {
      var spoken := Spoken(Archived(messages, KeepRecent(|messages|)));
      var lines := LastTwelve(spoken);
      if |lines| > 0 {
        assert spoken[|spoken| - 1] in spoken;
      } else {
        assert forall m :: m !in spoken;
      }
      assert forall m | m in lines :: m in spoken;
    }
  }

  /** Saved, and restored after more messages, a summary stands for the same messages exactly when its last message
      is the first one with its id. */
  lemma RestoredPrefixIff(messages: seq<Message>, more: seq<Message>, keepRecent: nat)
    requires 0 < keepRecent < |messages| && messages[|messages| - keepRecent - 1].id != ""
    ensures var archived := Archived(messages, keepRecent);
            var restored := RestoredKeep(messages + more, LastId(archived));
            Archived(messages + more, restored) == archived <==> FindId(archived, archived[|archived| - 1].id) == Some(|archived| - 1)
  {
    var archived := Archived(messages, keepRecent);
    var all := messages + more;
    var last := |archived| - 1;
    assert all[last] == archived[last];
    var first := FindId(all, archived[last].id).value;
    assert first <= last && all[first] == archived[first];
    assert Archived(all, RestoredKeep(all, LastId(archived))) == all[..first + 1];
    assert archived == all[..last + 1];
    if first < last {
      assert |all[..first + 1]| < |archived|;
    }
  }

  /** With unique ids that is always so, and the tail grows by the new messages. */
  lemma RestoredKeepIs(messages: seq<Message>, more: seq<Message>, keepRecent: nat)
    requires 0 < keepRecent < |messages| && messages[|messages| - keepRecent - 1].id != "" && UniqueIds(messages + more)
    ensures RestoredKeep(messages + more, LastId(Archived(messages, keepRecent))) == keepRecent + |more|
    ensures Archived(messages + more, keepRecent + |more|) == Archived(messages, keepRecent)
  {
    var last := |messages| - keepRecent - 1;
    var all := messages + more;
    assert all[last] == messages[last];
    var first := FindId(all, messages[last].id).value;
    assert first == last;
  }

  /** The Engine and the browser name the same last summarized message exactly when the count is positive and leaves
      something to summarize, or is the 0 that means a short transcript is summarized whole. */
  lemma EngineAgreesIff(messages: seq<Message>, keepRecent: nat)
    requires UniqueIds(messages)
    ensures SummaryBoundary(messages, keepRecent) == LastId(Archived(messages, keepRecent)) <==>
            |messages| == 0 || 0 < keepRecent < |messages| || (keepRecent == 0 && |messages| <= 6)
  {
  }

  /** For a restored summary they disagree only when it covers a whole transcript of more than six messages. */
  lemma RestoredAgreesIff(messages: seq<Message>, endId: string)
    requires UniqueIds(messages) && endId != "" && exists m :: m in messages && m.id == endId
    ensures SummaryBoundary(messages, RestoredKeep(messages, Some(endId))) == Some(endId) <==>
            LastId(messages) != Some(endId) || |messages| <= 6
  {
    var m :| m in messages && m.id == endId;
    var i :| 0 <= i < |messages| && messages[i] == m;
    var end := FindId(messages, endId).value;
    assert end == i;
  }

  /** After a local summary is saved and restored, all three programs cut at the same message, and the restored
      summary accounts for the same tokens; but the Gateway takes the request only while the tail has at most 1000
      messages. */
  lemma LocalSummaryAgrees(messages: seq<Message>, more: seq<Message>, estimate: string -> nat)
    requires UniqueIds(messages + more) && Summarize(messages, estimate).Some?
    requires forall m | m in messages :: m.id != ""
    ensures var state := Summarize(messages, estimate).value;
            var archived := Archived(messages, state.keepRecent);
            var all := messages + more;
            var restored := RestoredKeep(all, LastId(archived));
            && Tokens(Archived(all, restored), estimate) == state.sourceTokens
            && SummaryBoundary(messages, state.keepRecent) == LastId(archived)
            && SummaryBoundary(all, restored) == LastId(archived)
            && restored == state.keepRecent + |more|
            && (GatewaySend(all, restored).Some? <==> state.keepRecent + |more| <= MAX_KEEP_RECENT)
            && (GatewaySend(all, restored).Some? ==> archived + GatewaySend(all, restored).value == all)
  {
    hide *;
    LocalSummaries(messages, estimate);
    var keepRecent := Summarize(messages, estimate).value.keepRecent;
    assert messages[|messages| - keepRecent - 1] in messages;
    CutsAgree(messages, more, keepRecent);
    LocalTokens(messages, estimate);
    SendsTail(messages + more, keepRecent + |more|);
  }

  lemma SendsTail(messages: seq<Message>, keepRecent: nat)
    ensures GatewaySend(messages, keepRecent)
         == if keepRecent <= MAX_KEEP_RECENT then Some(GatewayHistory(messages, keepRecent)) else None
  {
  }

  /** The tokens of a transcript are those of its messages, each counted once. */
  lemma {:induction false} TokensAdd(a: seq<Message>, b: seq<Message>, estimate: string -> nat)
    ensures Tokens(a + b, estimate) == Tokens(a, estimate) + Tokens(b, estimate)
    ensures forall m: Message :: Tokens([m], estimate) == estimate(m.content)
    decreases |b|
  {
    if |b| == 0 {
      assert a + b == a;
    } else {
      TokensAdd(a, b[..|b| - 1], estimate);
      assert (a + b)[..|a + b| - 1] == a + b[..|b| - 1];
    }
    forall m: Message ensures Tokens([m], estimate) == estimate(m.content) {
      assert [m][..0] == [];
    }
  }

  lemma LocalTokens(messages: seq<Message>, estimate: string -> nat)
    requires Summarize(messages, estimate).Some?
    ensures var state := Summarize(messages, estimate).value;
            state.summary.Preview? && state.sourceTokens == Tokens(Archived(messages, state.keepRecent), estimate)
  {
  }

  lemma CutsAgree(messages: seq<Message>, more: seq<Message>, keepRecent: nat)
    requires 0 < keepRecent < |messages| && messages[|messages| - keepRecent - 1].id != "" && UniqueIds(messages + more)
    ensures var archived := Archived(messages, keepRecent);
            var all := messages + more;
            var restored := RestoredKeep(all, LastId(archived));
            && restored == keepRecent + |more|
            && Archived(all, restored) == archived
            && SummaryBoundary(messages, keepRecent) == LastId(archived)
            && SummaryBoundary(all, restored) == LastId(archived)
            && archived + GatewayHistory(all, restored) == all
  {
    hide *;
    RestoredKeepIs(messages, more, keepRecent);
    FirstHaveUniqueIds(messages, more);
    EngineAgreesIff(messages, keepRecent);
    EngineAgreesIff(messages + more, keepRecent + |more|);
    TailCompletes(messages + more, keepRecent + |more|);
  }

  lemma FirstHaveUniqueIds(messages: seq<Message>, more: seq<Message>)
    requires UniqueIds(messages + more)
    ensures UniqueIds(messages)
  {
    forall i, j | 0 <= i < j < |messages| ensures messages[i].id != messages[j].id {
      assert messages[i] == (messages + more)[i] && messages[j] == (messages + more)[j];
    }
  }

  /** A summary that the Gateway writes is cut at the same message by all three. */
  lemma GatewaySummaryAgrees(messages: seq<Message>, requested: int)
    requires GatewayKeep(|messages|, requested).Some?
    ensures var kept := GatewayKeep(|messages|, requested).value;
            && SummaryBoundary(messages, kept) == LastId(Archived(messages, kept)) != None
            && GatewaySend(messages, kept).Some? && Archived(messages, kept) + GatewaySend(messages, kept).value == messages
  {
  }

  /** A summary of `archived` and the request's tail are the transcript `now`, whatever happened to it since. */
  ghost predicate Fits(archived: seq<Message>, now: seq<Message>, keepRecent: nat) {
    GatewaySend(now, keepRecent).Some? && archived + GatewaySend(now, keepRecent).value == now
  }

  /** For every summary, every transcript and every count: nothing is repeated or lost exactly when the count is
      accepted, the summarized messages still start the transcript, and the count reaches back just to their end. */
  lemma SummaryFitsIff(archived: seq<Message>, now: seq<Message>, keepRecent: nat)
    ensures Fits(archived, now, keepRecent) <==>
            && keepRecent <= MAX_KEEP_RECENT && archived <= now
            && (|now| == |archived| + Kept(keepRecent) || (archived == [] && |now| <= Kept(keepRecent)))
  {
    var kept, tail := Kept(keepRecent), GatewayHistory(now, keepRecent);
    if archived <= now && |now| == |archived| + kept {
      assert now == archived + now[|archived|..];
    }
    if archived + tail == now {
      assert archived == now[..|archived|];
    }
  }

  lemma TailCompletes(messages: seq<Message>, keepRecent: nat)
    ensures Archived(messages, keepRecent) + GatewayHistory(messages, keepRecent) == messages <==>
            keepRecent > 0 || messages == []
  {
    if keepRecent == 0 && messages != [] {
      assert |messages + GatewayHistory(messages, 0)| > |messages|;
    }
  }

  /** On the very transcript that was summarized: exactly when the count is accepted and is not 0. */
  lemma NothingSentTwiceIff(messages: seq<Message>, keepRecent: nat)
    ensures Fits(Archived(messages, keepRecent), messages, keepRecent)
            <==> keepRecent <= MAX_KEEP_RECENT && (keepRecent > 0 || messages == [])
  {
    TailCompletes(messages, keepRecent);
  }

  /** A running session keeps its count, and every later transcript must have its old length. */
  lemma RunningFitsIff(messages: seq<Message>, now: seq<Message>, keepRecent: nat)
    requires 0 < keepRecent < |messages|
    ensures Fits(Archived(messages, keepRecent), now, keepRecent) <==>
            keepRecent <= MAX_KEEP_RECENT && Archived(messages, keepRecent) <= now && |now| == |messages|
  {
    hide Fits;
    SummaryFitsIff(Archived(messages, keepRecent), now, keepRecent);
  }

  /** As many messages as were added since are in neither the summary nor the tail. */
  lemma RunningSummaryIff(messages: seq<Message>, more: seq<Message>, keepRecent: nat)
    requires 0 < keepRecent < |messages|
    ensures var archived, tail := Archived(messages, keepRecent), GatewayHistory(messages + more, keepRecent);
            && (archived + tail == messages + more <==> more == [])
            && |messages + more| - |archived + tail| == |more|
  {
    if more == [] {
      assert messages + more == messages;
      TailCompletes(messages, keepRecent);
    }
  }

  /** After the newest messages were deleted, as many are in both. */
  lemma DeletionRepeats(messages: seq<Message>, deleted: nat, keepRecent: nat)
    requires 0 < keepRecent < |messages| && 0 < deleted <= |messages| - keepRecent
    ensures var now := messages[..|messages| - deleted];
            var archived, tail := Archived(messages, keepRecent), GatewayHistory(now, keepRecent);
            var shared := if deleted < keepRecent then deleted else keepRecent;
            && !Fits(archived, now, keepRecent) && |archived + tail| - |now| == deleted
            && tail[..shared] == archived[|archived| - deleted..][..shared]
  {
    hide Fits;
    var now, from := messages[..|messages| - deleted], |messages| - keepRecent - deleted;
    RunningFitsIff(messages, now, keepRecent);
    var archived, tail := Archived(messages, keepRecent), GatewayHistory(now, keepRecent);
    assert |tail| == keepRecent && forall i | 0 <= i < keepRecent :: tail[i] == messages[from + i];
    var end := archived[|archived| - deleted..];
    assert |end| == deleted && forall i | 0 <= i < deleted :: end[i] == messages[from + i];
  }

  /** A question that is replaced cuts the transcript before it: nothing is repeated or lost exactly when the count is
      accepted and the question is the first one asked since the summary. */
  lemma ReplacementFitsIff(messages: seq<Message>, more: seq<Message>, keepRecent: nat, id: string)
    requires 0 < keepRecent < |messages| && BeforeQuestion(messages + more, id).Some?
    ensures var now := BeforeQuestion(messages + more, id).value;
            Fits(Archived(messages, keepRecent), now, keepRecent)
            <==> keepRecent <= MAX_KEEP_RECENT && |now| == |messages|
  {
    hide Fits, BeforeQuestion;
    var now := BeforeQuestion(messages + more, id).value;
    RunningFitsIff(messages, now, keepRecent);
    if |now| == |messages| {
      assert now == messages;
    }
  }

  // ---------- Inputs that fail ----------

  function Name(i: nat): (name: string)
    ensures |name| == i + 1
  {
    seq(i + 1, _ => 'm')
  }

  /** Turns of a question and its answer. */
  function Turns(n: nat): (messages: seq<Message>)
    ensures |messages| == n && forall i | 0 <= i < n :: messages[i] == TurnMessage(i)
  {
    seq(n, i requires 0 <= i => TurnMessage(i))
  }

  function TurnMessage(i: nat): Message {
    if i % 2 == 0 then Message(Name(i), None, "user", "") else Message(Name(i), Some(Name(i - 1)), "assistant", "")
  }

  lemma TurnsAreUnique(n: nat)
    ensures UniqueIds(Turns(n)) && forall m | m in Turns(n) :: m.id != ""
  {
    hide Name, Turns;
    forall i, j | 0 <= i < j < n ensures Turns(n)[i].id != Turns(n)[j].id {
      assert |Turns(n)[i].id| == i + 1 && |Turns(n)[j].id| == j + 1;
    }
  }

  lemma TurnsSummarize(n: nat, estimate: string -> nat)
    requires n >= 4
    ensures Summarize(Turns(n), estimate).Some? && Summarize(Turns(n), estimate).value.keepRecent == KeepRecent(n)
  {
    hide Turns;
    LocalSummaries(Turns(n), estimate);
    var archived := Archived(Turns(n), KeepRecent(n));
    assert archived[0] == TurnMessage(0) && archived[0] in archived;
  }

  /** Four messages summarized, 999 more, and after a restart the next message cannot be sent. */
  lemma LongTailIsRefused(estimate: string -> nat)
    ensures var messages, more := Turns(1003)[..4], Turns(1003)[4..];
            && Summarize(messages, estimate).Some?
            && GatewaySend(messages + more, RestoredKeep(messages + more,
                 LastId(Archived(messages, Summarize(messages, estimate).value.keepRecent)))).None?
  {
    hide Turns, RestoredKeep, GatewaySend, Summarize, UniqueIds, Archived, LastId, SummaryBoundary, Tokens;
    var messages, more := Turns(1003)[..4], Turns(1003)[4..];
    assert messages == Turns(4);
    assert messages + more == Turns(1003);
    TurnsAreUnique(4);
    TurnsAreUnique(1003);
    TurnsSummarize(4, estimate);
    LocalSummaryAgrees(messages, more, estimate);
  }

  lemma {:induction false} DeleteAppend(a: seq<Message>, b: seq<Message>, id: string)
    ensures DeleteBranch(a + b, id) == DeleteBranch(a, id) + DeleteBranch(b, id)
    decreases |b|
  {
    if |b| == 0 {
      assert a + b == a;
    } else {
      DeleteAppend(a, b[..|b| - 1], id);
      assert (a + b)[..|a + b| - 1] == a + b[..|b| - 1];
    }
  }

  lemma DeleteLast(before: seq<Message>, last: Message, id: string)
    requires last.id != id && last.parentId != Some(id)
    ensures DeleteBranch(before + [last], id) == DeleteBranch(before, id) + [last]
  {
    assert (before + [last])[..|before|] == before;
  }

  lemma {:induction false} DeleteElsewhere(a: seq<Message>, id: string)
    requires forall m | m in a :: m.id != id && m.parentId != Some(id)
    ensures DeleteBranch(a, id) == a
  {
    if |a| > 0 {
      var before, last := a[..|a| - 1], a[|a| - 1];
      assert last in a && a == before + [last];
      DeleteElsewhere(before, id);
      DeleteLast(before, last, id);
      hide DeleteBranch;
    }
  }

  lemma DeleteTurn(question: Message, answer: Message)
    requires answer.parentId == Some(question.id)
    ensures DeleteBranch([question, answer], question.id) == []
  {
    var turn := [question, answer];
    assert turn[..1] == [question] && turn[..1][..0] == [];
    assert DeleteBranch(turn[..1], question.id) == [];
  }

  lemma EarlierTurns(i: nat, n: nat)
    requires i < n
    ensures TurnMessage(i).id != Name(n) && TurnMessage(i).parentId != Some(Name(n))
  {
    hide Name;
  }

  /** Deleting the last question of a transcript deletes its answer too. */
  lemma DeleteLastTurn(n: nat)
    requires n % 2 == 0
    ensures DeleteBranch(Turns(n + 2), Name(n)) == Turns(n)
  {
    hide Turns, Name, DeleteBranch;
    var question, answer := TurnMessage(n), TurnMessage(n + 1);
    hide TurnMessage;
    assert Turns(n + 2) == Turns(n) + [question, answer];
    forall m | m in Turns(n) ensures m.id != Name(n) && m.parentId != Some(Name(n)) {
      var i :| 0 <= i < n && Turns(n)[i] == m;
      EarlierTurns(i, n);
    }
    DeleteAppend(Turns(n), [question, answer], Name(n));
    DeleteElsewhere(Turns(n), Name(n));
    DeleteTurn(question, answer);
    assert Turns(n) + [] == Turns(n);
  }

  /** Twelve messages, the first eight summarized; the last two turns deleted, the conversation loaded again: the
      summary covers all that is left, and the Engine takes it for a summary of the first two messages. */
  lemma DeletionsBreakBoundary(estimate: string -> nat)
    ensures var messages := Turns(12);
            && Summarize(messages, estimate).Some?
            && var archived := Archived(messages, Summarize(messages, estimate).value.keepRecent);
               var left := DeleteBranch(DeleteBranch(messages, Name(10)), Name(8));
               && left == archived && RestoredKeep(left, LastId(archived)) == 0
               && SummaryBoundary(left, RestoredKeep(left, LastId(archived))) == Some(Name(1)) != LastId(archived)
  {
    hide Turns, Name, Summarize, DeleteBranch, FindId;
    var messages := Turns(12);
    TurnsSummarize(12, estimate);
    DeleteLastTurn(10);
    DeleteLastTurn(8);
    assert Archived(messages, 4) == Turns(8);
    TurnsAreUnique(8);
    assert Turns(8)[7] in Turns(8);
    RestoredAgreesIff(Turns(8), Turns(8)[7].id);
    LastIsFound(Turns(8));
  }

  /** Twelve messages, the first eight summarized. Replacing the eleventh, or deleting it with its answer, leaves ten,
      and the next request repeats the seventh and the eighth. */
  lemma EditingRepeats(estimate: string -> nat)
    ensures var messages := Turns(12);
            && Summarize(messages, estimate).Some?
            && var keepRecent := Summarize(messages, estimate).value.keepRecent;
               var archived := Archived(messages, keepRecent);
               && BeforeQuestion(messages, Name(10)) == Some(Turns(10)) && DeleteBranch(messages, Name(10)) == Turns(10)
               && GatewaySend(Turns(10), keepRecent) == Some(Turns(10)[6..])
               && archived == Turns(8) && archived[6..] == Turns(10)[6..8]
  {
    hide Turns, Name, Summarize, DeleteBranch, BeforeQuestion;
    TurnsSummarize(12, estimate);
    DeleteLastTurn(10);
    assert Archived(Turns(12), 4) == Turns(8);
    TurnsAreUnique(12);
    assert Turns(12)[10].id == Name(10) && Turns(12)[10].role == "user";
    var before := BeforeQuestion(Turns(12), Name(10)).value;
    assert |before| == 10 by {
      assert Turns(12)[|before|].id == Turns(12)[10].id;
    }
    assert before == Turns(10);
  }

  lemma LastIsFound(messages: seq<Message>)
    requires UniqueIds(messages) && |messages| > 0
    ensures FindId(messages, messages[|messages| - 1].id) == Some(|messages| - 1)
  {
  }

  // ---------- End to end ----------

  /** A session that compacts and saves; later a new one that loads the longer conversation. */
  method CompactThenRestore(estimate: string -> nat, id: string, messages: seq<Message>, more: seq<Message>)
    returns (before: State, after: State)
    requires UniqueIds(messages + more) && Summarize(messages, estimate).Some?
    requires forall m | m in messages :: m.id != ""
    ensures after.keepRecent == before.keepRecent + |more| && after.sourceTokens == before.sourceTokens
    ensures after.summary == before.summary && after.startId == before.startId && after.endId == before.endId
    ensures Archived(messages + more, after.keepRecent) == Archived(messages, before.keepRecent)
    ensures SummaryBoundary(messages + more, after.keepRecent) == after.endId != None
    ensures GatewaySend(messages + more, after.keepRecent).Some? <==> before.keepRecent + |more| <= MAX_KEEP_RECENT
  {
    hide *;
    ghost var local := Summarize(messages, estimate).value;
    LocalSummaries(messages, estimate);
    LocalTokens(messages, estimate);
    ArchivedEnds(messages, local.keepRecent);
    var session := new CompactionStore(estimate);
    var _ := session.CompactConversation(id, messages, true);
    before := session.compactions[id];
    var stored := session.saved[id];
    var later := new CompactionStore(estimate);
    later.RestoreCompaction(id, Some(stored.summary), Some(stored.startId), Some(stored.endId), messages + more);
    after := later.compactions[id];
    LocalSummaryAgrees(messages, more, estimate);
    CutsAgree(messages, more, local.keepRecent);
  }

  lemma ArchivedEnds(messages: seq<Message>, keepRecent: nat)
    requires 0 < keepRecent < |messages| && forall m | m in messages :: m.id != ""
    ensures var archived := Archived(messages, keepRecent);
            && archived != [] && archived[0].id != "" && archived[|archived| - 1].id != ""
            && FirstId(archived) == Some(archived[0].id) && LastId(archived) == Some(archived[|archived| - 1].id)
            && archived[|archived| - 1] == messages[|messages| - keepRecent - 1]
  {
    assert messages[0] in messages;
  }
}
