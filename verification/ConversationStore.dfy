/** The per-conversation cache and the top-level view of frontend/src/stores/conversationStore.ts. Every
    synchronous `set` is one step; awaits separate steps, so background work interleaves freely. */
module ConversationStore {
  import opened Wrappers

  // ---------- Data ----------

  datatype Status = Pending | Completed | Failed | Stopped
  datatype Role = User | Assistant | System
  datatype Message = Message(id: string, parentId: Option<string>, role: Role, content: string, status: Status)

  datatype ToolCall = ToolCall(
    index: int, id: Option<string>, name: string, arguments: string, result: Option<string>, status: string)

  /** A fragment of a tool call as the stream delivers it. */
  datatype ToolFragment = ToolFragment(index: int, id: Option<string>, name: Option<string>, arguments: Option<string>)

  /** The identity of one AbortController, that is, of one running turn. */
  type Controller = nat

  datatype Entry = Entry(
    messages: seq<Message>,
    streaming: bool,
    content: string,
    reasoning: string,
    durationMs: int,
    toolCalls: seq<ToolCall>,
    controller: Option<Controller>)

  function EmptyEntry(messages: seq<Message>): Entry {
    Entry(messages, false, "", "", 0, [], None)
  }

  /** The fields of an entry that an update names. */
  datatype Patch = Patch(
    messages: Option<seq<Message>> := None,
    streaming: Option<bool> := None,
    content: Option<string> := None,
    reasoning: Option<string> := None,
    durationMs: Option<int> := None,
    toolCalls: Option<seq<ToolCall>> := None,
    controller: Option<Option<Controller>> := None)

  function Or<T>(o: Option<T>, default: T): T {
    if o.Some? then o.value else default
  }

  function Apply(e: Entry, p: Patch): Entry {
    Entry(Or(p.messages, e.messages), Or(p.streaming, e.streaming), Or(p.content, e.content),
          Or(p.reasoning, e.reasoning), Or(p.durationMs, e.durationMs), Or(p.toolCalls, e.toolCalls),
          Or(p.controller, e.controller))
  }

  /** Who waits for the shared load of a conversation. */
  datatype Waiter = Prefetching | Selecting

  datatype State = State(
    activeId: Option<string>,
    view: Entry,
    cache: map<string, Entry>,
    prefetched: set<string>,
    claims: set<string>,
    loads: map<string, seq<Waiter>>)

  const INITIAL: State := State(None, EmptyEntry([]), map[], {}, {}, map[])

  // ---------- Message lists ----------

  function Filter(messages: seq<Message>, keep: Message -> bool): seq<Message> {
    if |messages| == 0 then []
    else (if keep(messages[0]) then [messages[0]] else []) + Filter(messages[1..], keep)
  }

  function OutsideTurn(optimisticId: string, user: Message, assistant: Option<Message>): Message -> bool {
    (m: Message) =>
      && m.id != optimisticId && m.id != user.id && m.parentId != Some(user.id)
      && (assistant.Some? ==> m.id != assistant.value.id)
  }

  /** `reconcileTurnMessages`: the persisted turn replaces every trace of it and moves to the end. */
  function Reconcile(messages: seq<Message>, optimisticId: string, user: Message, assistant: Option<Message>)
    : seq<Message>
  {
    Filter(messages, OutsideTurn(optimisticId, user, assistant))
    + [user] + if assistant.Some? then [assistant.value] else []
  }

  // ---------- What one stream event changes in its own conversation ----------

  datatype TurnEvent =
    | TurnStarted(optimisticId: string, user: Message)
    | Delta(text: string)
    | Reasoning(text: string)
    | ToolCalled(fragment: ToolFragment)
    | ToolReturned(id: string, result: string, status: string)
    | Telemetry(durationMs: int)
    | TurnDone(optimisticId: string, user: Message, assistant: Option<Message>)
    | TurnFailed(optimisticId: string, persisted: Option<Message>, assistant: Option<Message>,
                 authoritative: bool, previous: Option<seq<Message>>)
    | Settled
    | Reloaded(messages: seq<Message>)
    | MessageDeleted(id: string)

  function Idle(messages: Option<seq<Message>>): Patch {
    Patch(messages, Some(false), Some(""), Some(""), Some(0), Some([]), Some(None))
  }

  predicate Truthy(o: Option<string>) {
    o.Some? && o.value != ""
  }

  function MergeToolCall(calls: seq<ToolCall>, f: ToolFragment): seq<ToolCall> {
    if |calls| == 0 then
      [ToolCall(f.index, f.id, Or(f.name, ""), Or(f.arguments, ""), None, "pending")]
    else if calls[0].index == f.index then
      [calls[0].(
         id := if Truthy(f.id) then f.id else calls[0].id,
         name := if Truthy(f.name) then f.name.value else calls[0].name,
         arguments := calls[0].arguments + Or(f.arguments, ""))] + calls[1..]
    else [calls[0]] + MergeToolCall(calls[1..], f)
  }

  function ReturnToolCall(calls: seq<ToolCall>, id: string, result: string, status: string): seq<ToolCall> {
    if |calls| == 0 then []
    else
      [if calls[0].id == Some(id) || (!Truthy(calls[0].id) && calls[0].status == "pending")
       then calls[0].(result := Some(result), status := status) else calls[0]]
      + ReturnToolCall(calls[1..], id, result, status)
  }

  function OtherThan(id: string): Message -> bool {
    (m: Message) => m.id != id
  }

  function TurnPatch(e: Entry, ev: TurnEvent): Patch {
    match ev
    case TurnStarted(opt, user) => Patch(messages := Some(Reconcile(e.messages, opt, user, None)))
    case Delta(text) => Patch(content := Some(e.content + text))
    case Reasoning(text) => Patch(reasoning := Some(e.reasoning + text))
    case ToolCalled(f) => Patch(toolCalls := Some(MergeToolCall(e.toolCalls, f)))
    case ToolReturned(id, result, status) =>
      Patch(toolCalls := Some(ReturnToolCall(e.toolCalls, id, result, status)))
    case Telemetry(ms) => Patch(durationMs := Some(if ms > e.durationMs then ms else e.durationMs))
    case TurnDone(opt, user, assistant) => Idle(Some(Reconcile(e.messages, opt, user, assistant)))
    case TurnFailed(opt, user, assistant, authoritative, previous) =>
      Idle(Some(
        if user.Some? then Reconcile(e.messages, opt, user.value, assistant)
        else if authoritative then e.messages
        else if previous.Some? then previous.value
        else Filter(e.messages, OtherThan(opt))))
    case Settled => Idle(None)
    case Reloaded(messages) => Idle(Some(messages))
    case MessageDeleted(id) =>
      Patch(messages := Some(Filter(e.messages, (m: Message) => m.id != id && m.parentId != Some(id))))
  }

  // ---------- Steps ----------

  datatype Event =
    | PrefetchBegin(id: string)
    | SelectBegin(id: string)
    | LoadCompleted(id: string, detail: seq<Message>)
    | LoadFailed(id: string)
    | Release(id: string)
    | NewConversation(id: string)
    | DeleteBegin(id: string)
    | DeleteDone(id: string)
    | ReloadAll
    | SendBegin(id: string, replace: Option<string>, user: Message, controller: Controller)
    | Turn(id: string, event: TurnEvent)
    | PushSystem(message: Message)

  function CacheUpdate(s: State, id: string, p: Patch): State {
    if id !in s.cache then s
    else
      var s' := s.(cache := s.cache[id := Apply(s.cache[id], p)]);
      if s.activeId == Some(id) then s'.(view := Apply(s.view, p)) else s'
  }

  function SaveActiveView(s: State): map<string, Entry> {
    if s.activeId.None? || s.activeId.value !in s.cache then s.cache
    else s.cache[s.activeId.value := s.view]
  }

  function AddWaiter(loads: map<string, seq<Waiter>>, id: string, w: Waiter): map<string, seq<Waiter>> {
    loads[id := (if id in loads then loads[id] else []) + [w]]
  }

  /** One waiter's continuation once the detail of `id` has arrived. */
  function Deliver(s: State, id: string, messages: seq<Message>, w: Waiter): State {
    match w
    case Prefetching =>
      if id !in s.claims || s.activeId == Some(id) || id in s.cache then s
      else s.(cache := s.cache[id := EmptyEntry(messages)], prefetched := s.prefetched + {id})
    case Selecting =>
      var s' := s.(cache := s.cache[id := EmptyEntry(messages)]);
      if s.activeId == Some(id) then s'.(view := s.view.(messages := messages)) else s'
  }

  function DeliverAll(s: State, id: string, messages: seq<Message>, ws: seq<Waiter>): State {
    if |ws| == 0 then s
    else Deliver(DeliverAll(s, id, messages, ws[..|ws| - 1]), id, messages, ws[|ws| - 1])
  }

  /** The first question with this id. */
  function IndexOfUser(messages: seq<Message>, id: string): (at: Option<nat>)
    ensures at.Some? ==> at.value < |messages| && messages[at.value].id == id && messages[at.value].role == User
    ensures at.Some? ==> forall i | 0 <= i < at.value :: !(messages[i].id == id && messages[i].role == User)
    ensures at.None? ==> forall m | m in messages :: !(m.id == id && m.role == User)
  {
    if |messages| == 0 then None
    else if messages[0].id == id && messages[0].role == User then Some(0)
    else
      var r := IndexOfUser(messages[1..], id);
      if r.Some? then Some(r.value + 1) else None
  }

  /** The transcript that an optimistic message is appended to; none when the message to replace is gone. */
  function OptimisticBase(previous: seq<Message>, replace: Option<string>): Option<seq<Message>>
    ensures OptimisticBase(previous, replace).Some? ==> OptimisticBase(previous, replace).value <= previous
  {
    if !Truthy(replace) then Some(previous)
    else
      var at := IndexOfUser(previous, replace.value);
      if at.Some? then Some(previous[..at.value]) else None
  }

  function Step(s: State, ev: Event): State {
    match ev
    case PrefetchBegin(id) =>
      if id == "" || s.activeId == Some(id) || id in s.cache then s
      else s.(claims := s.claims + {id}, loads := AddWaiter(s.loads, id, Prefetching))
    case SelectBegin(id) =>
      var saved := s.(cache := SaveActiveView(s), claims := s.claims - {id}, prefetched := s.prefetched - {id},
                      activeId := Some(id));
      if id in saved.cache then saved.(view := saved.cache[id])
      else saved.(view := EmptyEntry(s.view.messages).(controller := s.view.controller),
                  loads := AddWaiter(s.loads, id, Selecting))
    case LoadCompleted(id, messages) =>
      if id !in s.loads then s
      else DeliverAll(s, id, messages, s.loads[id]).(loads := s.loads - {id})
    case LoadFailed(id) =>
      if id !in s.loads then s
      else s.(loads := s.loads - {id},
              claims := if Prefetching in s.loads[id] then s.claims - {id} else s.claims)
    case Release(id) =>
      var s' := s.(claims := s.claims - {id});
      if id !in s.prefetched || s.activeId == Some(id) then s'
      else s'.(cache := s.cache - {id}, prefetched := s.prefetched - {id})
    case NewConversation(id) =>
      s.(activeId := Some(id), view := EmptyEntry([]), cache := SaveActiveView(s)[id := EmptyEntry([])])
    case DeleteBegin(id) => s.(claims := s.claims - {id})
    case DeleteDone(id) =>
      var s' := s.(cache := s.cache - {id}, prefetched := s.prefetched - {id});
      if s.activeId == Some(id) then s'.(activeId := None, view := EmptyEntry([])) else s'
    case ReloadAll =>
      State(None, EmptyEntry([]), map[], {}, {}, s.loads)
    case SendBegin(id, replace, user, controller) =>
      var entered := if id in s.cache then s else s.(cache := s.cache[id := EmptyEntry(s.view.messages)]);
      var base := OptimisticBase(entered.cache[id].messages, replace);
      if base.None? then entered
      else CacheUpdate(entered, id,
        Patch(Some(base.value + [user]), Some(true), Some(""), Some(""), Some(0), Some([]), Some(Some(controller))))
    case Turn(id, event) =>
      if id in s.cache then CacheUpdate(s, id, TurnPatch(s.cache[id], event)) else s
    case PushSystem(message) =>
      if s.activeId.None? then s.(view := s.view.(messages := s.view.messages + [message]))
      else if s.activeId.value in s.cache then
        CacheUpdate(s, s.activeId.value,
                    Patch(messages := Some(s.cache[s.activeId.value].messages + [message])))
      else s
  }

  /** A selection waits for the first load of the conversation. */
  predicate IsOpening(s: State, id: string) {
    id in s.loads && Selecting in s.loads[id]
  }

  /** What the surroundings guarantee: no turn starts, or goes on in an entry, while a selection waits for the first
      load of its conversation. */
  predicate Enabled(s: State, ev: Event) {
    match ev
    case SendBegin(id, _, _, _) => !IsOpening(s, id)
    case Turn(id, _) => IsOpening(s, id) ==> id !in s.cache
    case _ => true
  }

  // ---------- The invariant ----------

  /** The six fields of an entry that the view mirrors; the controller is the seventh. */
  function Six(e: Entry): Entry {
    e.(controller := None)
  }

  predicate IsIdle(e: Entry) {
    Six(e) == EmptyEntry(e.messages)
  }

  /** The view mirrors the active entry, or shows no turn while there is none. */
  ghost predicate Mirror(s: State) {
    s.activeId.Some? ==>
      if s.activeId.value in s.cache then Six(s.view) == Six(s.cache[s.activeId.value]) else IsIdle(s.view)
  }

  /** The first load of the conversation on screen arrives while the view shows a turn: the entry becomes an empty one,
      of the view only the messages change. */
  predicate OverwritesTurn(s: State, ev: Event) {
    ev.LoadCompleted? && s.activeId == Some(ev.id) && IsOpening(s, ev.id) && !IsIdle(s.view)
  }

  /** In every state, this is the one event that ends the mirror. */
  lemma MirrorBreaksIff(s: State, ev: Event)
    requires Mirror(s)
    ensures Mirror(Step(s, ev)) <==> !OverwritesTurn(s, ev)
  {
    hide TurnPatch, OptimisticBase, DeliverAll, AddWaiter;
    match ev
    case LoadCompleted(id, messages) =>
      if id in s.loads && s.activeId == Some(id) {
        DeliverToActive(s, id, messages, s.loads[id]);
      } else if id in s.loads {
        DeliverElsewhere(s, id, messages, s.loads[id]);
      }
    case SendBegin(id, replace, user, controller) => SendKeepsMirror(s, id, replace, user, controller);
    case _ =>
  }

  lemma SendKeepsMirror(s: State, id: string, replace: Option<string>, user: Message, controller: Controller)
    requires Mirror(s)
    ensures Mirror(Step(s, SendBegin(id, replace, user, controller)))
  {
    hide OptimisticBase;
    var entered := if id in s.cache then s else s.(cache := s.cache[id := EmptyEntry(s.view.messages)]);
    assert Mirror(entered);
  }

  lemma {:induction false} DeliverToActive(s: State, id: string, messages: seq<Message>, ws: seq<Waiter>)
    requires s.activeId == Some(id)
    ensures var t := DeliverAll(s, id, messages, ws);
            && t.activeId == s.activeId
            && t.view == (if Selecting in ws then s.view.(messages := messages) else s.view)
            && t.cache == (if Selecting in ws then s.cache[id := EmptyEntry(messages)] else s.cache)
  {
    if |ws| > 0 {
      DeliverToActive(s, id, messages, ws[..|ws| - 1]);
      assert ws == ws[..|ws| - 1] + [ws[|ws| - 1]];
    }
  }

  lemma {:induction false} DeliverElsewhere(s: State, id: string, messages: seq<Message>, ws: seq<Waiter>)
    requires s.activeId != Some(id)
    ensures var t := DeliverAll(s, id, messages, ws);
            && t.activeId == s.activeId && t.view == s.view
            && forall other | other != id :: (other in t.cache <==> other in s.cache)
                 && (other in s.cache ==> t.cache[other] == s.cache[other])
  {
    if |ws| > 0 {
      DeliverElsewhere(s, id, messages, ws[..|ws| - 1]);
    }
  }

  /** Beside the mirror: an entry that a pending load will replace has no turn, and prefetched conversations have entries. */
  ghost predicate Inv(s: State) {
    && Mirror(s)
    && (forall id | id in s.cache && IsOpening(s, id) :: IsIdle(s.cache[id]))
    && s.prefetched <= s.cache.Keys
  }

  lemma CacheUpdateKeepsInv(s: State, id: string, p: Patch)
    requires Inv(s) && (IsOpening(s, id) ==> id !in s.cache || p == Patch(messages := p.messages))
    ensures Inv(CacheUpdate(s, id, p))
  {}

  /** What holds between two deliveries to the waiters of one load, when a selection waits among them. */
  ghost predicate Delivering(t: State, id: string, selecting: bool) {
    && Inv(t.(loads := t.loads - {id}))
    && (selecting && id in t.cache ==> IsIdle(t.cache[id]))
  }

  lemma DeliverKeeps(t: State, id: string, messages: seq<Message>, w: Waiter, selecting: bool)
    requires Delivering(t, id, selecting) && (w.Selecting? ==> selecting)
    ensures var u := Deliver(t, id, messages, w);
            Delivering(u, id, selecting) && u.loads == t.loads
  {}

  lemma {:induction false} DeliverAllKeeps(s: State, id: string, messages: seq<Message>, ws: seq<Waiter>)
    requires Inv(s) && id in s.loads && ws <= s.loads[id]
    ensures var t := DeliverAll(s, id, messages, ws);
            Delivering(t, id, Selecting in s.loads[id]) && t.loads == s.loads
  {
    hide Deliver;
    if |ws| > 0 {
      var rest, w := ws[..|ws| - 1], ws[|ws| - 1];
      DeliverAllKeeps(s, id, messages, rest);
      assert w == s.loads[id][|ws| - 1];
      DeliverKeeps(DeliverAll(s, id, messages, rest), id, messages, w, Selecting in s.loads[id]);
    }
  }

  lemma SendKeepsInv(s: State, id: string, replace: Option<string>, user: Message, controller: Controller)
    requires Inv(s) && Enabled(s, SendBegin(id, replace, user, controller))
    ensures Inv(Step(s, SendBegin(id, replace, user, controller)))
  {
    hide OptimisticBase;
    var entered := if id in s.cache then s else s.(cache := s.cache[id := EmptyEntry(s.view.messages)]);
    assert Inv(entered);
  }

  lemma StepKeepsInv(s: State, ev: Event)
    requires Inv(s) && Enabled(s, ev)
    ensures Inv(Step(s, ev)) && !OverwritesTurn(s, ev)
  {
    hide TurnPatch, OptimisticBase, DeliverAll;
    match ev
    case LoadCompleted(id, messages) =>
      if id in s.loads {
        DeliverAllKeeps(s, id, messages, s.loads[id]);
      }
    case Turn(id, event) =>
      if id in s.cache {
        CacheUpdateKeepsInv(s, id, TurnPatch(s.cache[id], event));
      }
    case SendBegin(id, replace, user, controller) =>
      SendKeepsInv(s, id, replace, user, controller);
    case _ =>
  }

  // ---------- Runs ----------

  /** The states of a run, first to last. */
  ghost function Trace(s: State, events: seq<Event>): (t: seq<State>)
    ensures |t| == |events| + 1 && t[0] == s
    decreases |events|
  {
    if |events| == 0 then [s] else [s] + Trace(Step(s, events[0]), events[1..])
  }

  ghost predicate RunEnabled(s: State, events: seq<Event>) {
    forall i | 0 <= i < |events| :: Enabled(Trace(s, events)[i], events[i])
  }

  lemma {:induction false} TraceSteps(s: State, events: seq<Event>, i: nat)
    requires i < |events|
    ensures Trace(s, events)[i + 1] == Step(Trace(s, events)[i], events[i])
    decreases i
  {
    hide Step;
    if i > 0 {
      TraceSteps(Step(s, events[0]), events[1..], i - 1);
    }
  }

  ghost predicate MirrorUntil(s: State, events: seq<Event>, n: nat)
    requires n <= |events|
  {
    forall i | 0 <= i <= n :: Mirror(Trace(s, events)[i])
  }

  ghost predicate NothingOverwritten(s: State, events: seq<Event>, n: nat)
    requires n <= |events|
  {
    forall i | 0 <= i < n :: !OverwritesTurn(Trace(s, events)[i], events[i])
  }

  /** Over every interleaving, the view mirrors the active entry exactly as long as no load overwrites a turn on screen. */
  lemma {:induction false} RunMirrorIff(events: seq<Event>, n: nat)
    requires n <= |events|
    ensures MirrorUntil(INITIAL, events, n) <==> NothingOverwritten(INITIAL, events, n)
  {
    hide Step, Mirror, OverwritesTurn;
    if n == 0 {
      NothingIsShown();
    } else {
      RunMirrorIff(events, n - 1);
      TraceSteps(INITIAL, events, n - 1);
      if MirrorUntil(INITIAL, events, n - 1) {
        MirrorBreaksIff(Trace(INITIAL, events)[n - 1], events[n - 1]);
      }
    }
  }

  lemma NothingIsShown()
    ensures Mirror(INITIAL)
  {}

  /** The first load of "a" arrives after a turn was started in it: the view shows the turn, the entry does not. */
  lemma MirrorLostRun(user: Message)
    ensures var s := Step(Step(INITIAL, SelectBegin("a")), SendBegin("a", None, user, 7));
            var t := Step(s, LoadCompleted("a", []));
            && OverwritesTurn(s, LoadCompleted("a", [])) && t.activeId == Some("a") && "a" in t.cache
            && t.view.streaming && !t.cache["a"].streaming && StopTarget(t).None?
  {
    var begun := Step(INITIAL, SelectBegin("a"));
    assert begun.loads["a"] == [] + [Selecting] == [Selecting];
    var s := Step(begun, SendBegin("a", None, user, 7));
    assert s.view.streaming && s.loads == begun.loads && s.activeId == Some("a");
    hide TurnPatch, OptimisticBase, DeliverAll, AddWaiter, CacheUpdate;
    DeliverToActive(s, "a", [], [Selecting]);
  }

  /** A condition that can be checked earlier: no load overwrites a turn in a run in which no turn starts, or goes on in
      an entry, while a selection waits for the first load of its conversation. */
  lemma NoTurnWhileOpening(events: seq<Event>, n: nat)
    requires RunEnabled(INITIAL, events) && n <= |events|
    ensures NothingOverwritten(INITIAL, events, n)
  {
    hide Step, Enabled, OverwritesTurn, Inv;
    forall i | 0 <= i < n ensures !OverwritesTurn(Trace(INITIAL, events)[i], events[i]) {
      RunKeepsInv(events, i);
      StepKeepsInv(Trace(INITIAL, events)[i], events[i]);
    }
  }

  /** Over every interleaving from the initial state in which that is so, the rest of `Inv` holds too. */
  lemma {:induction false} RunKeepsInv(events: seq<Event>, i: nat)
    requires RunEnabled(INITIAL, events) && i <= |events|
    ensures Inv(Trace(INITIAL, events)[i])
  {
    if i > 0 {
      RunKeepsInv(events, i - 1);
      TraceSteps(INITIAL, events, i - 1);
      StepKeepsInv(Trace(INITIAL, events)[i - 1], events[i - 1]);
    }
  }

  // ---------- Refinement of a plain map ----------

  /** The store without its view: one entry per conversation. */
  datatype Plain = Plain(
    activeId: Option<string>,
    entries: map<string, Entry>,
    prefetched: set<string>,
    claims: set<string>,
    loads: map<string, seq<Waiter>>)

  function Abstract(s: State): Plain {
    Plain(s.activeId, map id | id in s.cache :: Six(s.cache[id]), s.prefetched, s.claims, s.loads)
  }

  function PlainUpdate(p: Plain, id: string, patch: Patch): Plain
    requires id in p.entries
  {
    p.(entries := p.entries[id := Six(Apply(p.entries[id], patch))])
  }

  function PlainDeliver(p: Plain, id: string, messages: seq<Message>, w: Waiter): Plain {
    match w
    case Prefetching =>
      if id !in p.claims || p.activeId == Some(id) || id in p.entries then p
      else p.(entries := p.entries[id := EmptyEntry(messages)], prefetched := p.prefetched + {id})
    case Selecting => p.(entries := p.entries[id := EmptyEntry(messages)])
  }

  function PlainDeliverAll(p: Plain, id: string, messages: seq<Message>, ws: seq<Waiter>): Plain {
    if |ws| == 0 then p
    else PlainDeliver(PlainDeliverAll(p, id, messages, ws[..|ws| - 1]), id, messages, ws[|ws| - 1])
  }

  /** The step of the plain map. Selecting a conversation changes no entry; `shown` matters only to a turn that
      starts on a conversation without an entry, which the source seeds from the messages on screen. */
  function PlainStep(p: Plain, ev: Event, shown: seq<Message>): Plain {
    match ev
    case PrefetchBegin(id) =>
      if id == "" || p.activeId == Some(id) || id in p.entries then p
      else p.(claims := p.claims + {id}, loads := AddWaiter(p.loads, id, Prefetching))
    case SelectBegin(id) =>
      p.(activeId := Some(id), claims := p.claims - {id}, prefetched := p.prefetched - {id},
         loads := if id in p.entries then p.loads else AddWaiter(p.loads, id, Selecting))
    case LoadCompleted(id, messages) =>
      if id !in p.loads then p
      else PlainDeliverAll(p, id, messages, p.loads[id]).(loads := p.loads - {id})
    case LoadFailed(id) =>
      if id !in p.loads then p
      else p.(loads := p.loads - {id},
              claims := if Prefetching in p.loads[id] then p.claims - {id} else p.claims)
    case Release(id) =>
      if id !in p.prefetched || p.activeId == Some(id) then p.(claims := p.claims - {id})
      else p.(claims := p.claims - {id}, entries := p.entries - {id}, prefetched := p.prefetched - {id})
    case NewConversation(id) => p.(activeId := Some(id), entries := p.entries[id := EmptyEntry([])])
    case DeleteBegin(id) => p.(claims := p.claims - {id})
    case DeleteDone(id) =>
      p.(entries := p.entries - {id}, prefetched := p.prefetched - {id},
         activeId := if p.activeId == Some(id) then None else p.activeId)
    case ReloadAll => Plain(None, map[], {}, {}, p.loads)
    case SendBegin(id, replace, user, controller) =>
      var entered := if id in p.entries then p else p.(entries := p.entries[id := EmptyEntry(shown)]);
      var base := OptimisticBase(entered.entries[id].messages, replace);
      if base.None? then entered
      else PlainUpdate(entered, id,
        Patch(Some(base.value + [user]), Some(true), Some(""), Some(""), Some(0), Some([]), None))
    case Turn(id, event) =>
      if id in p.entries then PlainUpdate(p, id, TurnPatch(p.entries[id], event)) else p
    case PushSystem(message) =>
      if p.activeId.Some? && p.activeId.value in p.entries then
        PlainUpdate(p, p.activeId.value,
                    Patch(messages := Some(p.entries[p.activeId.value].messages + [message])))
      else p
  }

  lemma UpdateRefines(s: State, id: string, patch: Patch)
    requires id in s.cache
    ensures Abstract(CacheUpdate(s, id, patch)) == PlainUpdate(Abstract(s), id, patch)
    ensures PlainUpdate(Abstract(s), id, patch) == PlainUpdate(Abstract(s), id, patch.(controller := None))
  {}

  lemma DeliverRefines(s: State, id: string, messages: seq<Message>, w: Waiter)
    ensures Abstract(Deliver(s, id, messages, w)) == PlainDeliver(Abstract(s), id, messages, w)
  {}

  lemma {:induction false} DeliverAllRefines(s: State, id: string, messages: seq<Message>, ws: seq<Waiter>)
    ensures Abstract(DeliverAll(s, id, messages, ws)) == PlainDeliverAll(Abstract(s), id, messages, ws)
  {
    hide Deliver, PlainDeliver, Abstract;
    if |ws| > 0 {
      DeliverAllRefines(s, id, messages, ws[..|ws| - 1]);
      DeliverRefines(DeliverAll(s, id, messages, ws[..|ws| - 1]), id, messages, ws[|ws| - 1]);
    }
  }

  /** Leaving the active conversation saves a view that does not mirror its entry. */
  predicate SavesUnmirrored(s: State, ev: Event) {
    && (ev.SelectBegin? || (ev.NewConversation? && s.activeId != Some(ev.id)))
    && s.activeId.Some? && s.activeId.value in s.cache && Six(s.view) != Six(s.cache[s.activeId.value])
  }

  lemma SavedEntries(s: State)
    ensures SaveActiveView(s).Keys == s.cache.Keys
    ensures forall c | c in s.cache && s.activeId != Some(c) :: SaveActiveView(s)[c] == s.cache[c]
    ensures forall c | c in s.cache && s.activeId == Some(c) :: SaveActiveView(s)[c] == s.view
  {}

  lemma SelectRefinesIff(s: State, id: string)
    ensures Abstract(Step(s, SelectBegin(id))) == PlainStep(Abstract(s), SelectBegin(id), s.view.messages)
            <==> !SavesUnmirrored(s, SelectBegin(id))
  {
    hide AddWaiter, SaveActiveView;
    SavedEntries(s);
    var t := Step(s, SelectBegin(id));
    assert t.cache == SaveActiveView(s);
    if SavesUnmirrored(s, SelectBegin(id)) {
      var a := s.activeId.value;
      assert Abstract(t).entries[a] == Six(s.view) != Abstract(s).entries[a];
    } else {
      assert Abstract(t).entries == Abstract(s).entries;
    }
  }

  lemma NewRefinesIff(s: State, id: string)
    ensures Abstract(Step(s, NewConversation(id))) == PlainStep(Abstract(s), NewConversation(id), s.view.messages)
            <==> !SavesUnmirrored(s, NewConversation(id))
  {
    hide AddWaiter, DeliverAll, PlainDeliverAll, TurnPatch, OptimisticBase, CacheUpdate, PlainUpdate, Filter, SaveActiveView;
    SavedEntries(s);
    var t := Step(s, NewConversation(id));
    assert t.cache == SaveActiveView(s)[id := EmptyEntry([])];
    if SavesUnmirrored(s, NewConversation(id)) {
      var a := s.activeId.value;
      assert Abstract(t).entries[a] == Six(s.view) != Abstract(s).entries[a];
    } else {
      assert Abstract(t).entries == Abstract(s).entries[id := EmptyEntry([])];
    }
  }

  lemma SendRefines(s: State, id: string, replace: Option<string>, user: Message, controller: Controller)
    ensures var ev := SendBegin(id, replace, user, controller);
            Abstract(Step(s, ev)) == PlainStep(Abstract(s), ev, s.view.messages)
  {
    hide OptimisticBase, PlainUpdate, CacheUpdate;
    var entered := if id in s.cache then s else s.(cache := s.cache[id := EmptyEntry(s.view.messages)]);
    var plain := if id in s.cache then Abstract(s)
                 else Abstract(s).(entries := Abstract(s).entries[id := EmptyEntry(s.view.messages)]);
    assert Abstract(entered) == plain;
    var base := OptimisticBase(entered.cache[id].messages, replace);
    if base.Some? {
      UpdateRefines(entered, id,
        Patch(Some(base.value + [user]), Some(true), Some(""), Some(""), Some(0), Some([]), Some(Some(controller))));
    }
  }

  lemma TurnRefines(s: State, id: string, event: TurnEvent)
    ensures Abstract(Step(s, Turn(id, event))) == PlainStep(Abstract(s), Turn(id, event), s.view.messages)
  {
    if id in s.cache {
      TurnIgnoresController(s.cache[id], event);
      UpdateRefines(s, id, TurnPatch(s.cache[id], event));
    }
  }

  lemma PushRefines(s: State, message: Message)
    ensures Abstract(Step(s, PushSystem(message))) == PlainStep(Abstract(s), PushSystem(message), s.view.messages)
  {
    hide CacheUpdate, PlainUpdate;
    if s.activeId.Some? && s.activeId.value in s.cache {
      var messages := s.cache[s.activeId.value].messages + [message];
      UpdateRefines(s, s.activeId.value, Patch(messages := Some(messages)));
    }
  }

  lemma TurnIgnoresController(e: Entry, event: TurnEvent)
    ensures TurnPatch(Six(e), event) == TurnPatch(e, event)
  {}

  /** Every step of the store is the step of the plain map, except the save of a view that is no mirror; saving and
      restoring one that is cannot be seen there. */
  lemma StepRefines(s: State, ev: Event)
    ensures Abstract(Step(s, ev)) == PlainStep(Abstract(s), ev, s.view.messages) <==> !SavesUnmirrored(s, ev)
  {
    hide TurnPatch, OptimisticBase, DeliverAll, PlainDeliverAll, AddWaiter, CacheUpdate, PlainUpdate;
    match ev
    case SelectBegin(id) => SelectRefinesIff(s, id);
    case NewConversation(id) => NewRefinesIff(s, id);
    case LoadCompleted(id, messages) =>
      if id in s.loads {
        DeliverAllRefines(s, id, messages, s.loads[id]);
      }
    case SendBegin(id, replace, user, controller) => SendRefines(s, id, replace, user, controller);
    case Turn(id, event) => TurnRefines(s, id, event);
    case PushSystem(message) => PushRefines(s, message);
    case _ =>
  }

  /** So the store refines the plain map in every run, from the start and for as long as the view is a mirror. */
  lemma RunRefines(events: seq<Event>, n: nat)
    requires n <= |events| && NothingOverwritten(INITIAL, events, n)
    ensures forall i | 0 <= i < n :: var s := Trace(INITIAL, events)[i];
              Abstract(Trace(INITIAL, events)[i + 1]) == PlainStep(Abstract(s), events[i], s.view.messages)
  {
    hide Step, PlainStep, Abstract, OverwritesTurn, Mirror, SavesUnmirrored;
    RunMirrorIff(events, n);
    forall i | 0 <= i < n
      ensures var s := Trace(INITIAL, events)[i];
              Abstract(Trace(INITIAL, events)[i + 1]) == PlainStep(Abstract(s), events[i], s.view.messages)
    {
      TraceSteps(INITIAL, events, i);
      StepRefines(Trace(INITIAL, events)[i], events[i]);
      MirrorIsSaved(Trace(INITIAL, events)[i], events[i]);
    }
  }

  lemma MirrorIsSaved(s: State, ev: Event)
    requires Mirror(s)
    ensures !SavesUnmirrored(s, ev)
  {}

  /** The one conversation whose entry an event may change. */
  function Subject(s: State, ev: Event): Option<string> {
    match ev
    case PrefetchBegin(_) => None
    case SelectBegin(_) => None
    case LoadCompleted(id, _) => Some(id)
    case LoadFailed(_) => None
    case Release(id) => Some(id)
    case NewConversation(id) => Some(id)
    case DeleteBegin(_) => None
    case DeleteDone(id) => Some(id)
    case ReloadAll => None
    case SendBegin(id, _, _, _) => Some(id)
    case Turn(id, _) => Some(id)
    case PushSystem(_) => s.activeId
  }

  lemma {:induction false} PlainDeliverAllFrame(p: Plain, id: string, messages: seq<Message>, ws: seq<Waiter>, other: string)
    requires other != id
    ensures var q := PlainDeliverAll(p, id, messages, ws);
            (other in q.entries <==> other in p.entries) && (other in p.entries ==> q.entries[other] == p.entries[other])
  {
    if |ws| > 0 {
      PlainDeliverAllFrame(p, id, messages, ws[..|ws| - 1], other);
    }
  }

  /** If this conversation is on screen, the view mirrors its entry. */
  ghost predicate MirrorAt(s: State, id: string) {
    s.activeId == Some(id) && id in s.cache ==> Six(s.view) == Six(s.cache[id])
  }

  /** An event changes no entry but its subject's; only a data reload drops them all. */
  lemma OtherEntriesUntouched(s: State, ev: Event, other: string)
    requires MirrorAt(s, other) && !ev.ReloadAll? && Subject(s, ev) != Some(other)
    ensures var t := Step(s, ev);
            (other in t.cache <==> other in s.cache) && (other in s.cache ==> Six(t.cache[other]) == Six(s.cache[other]))
  {
    if ev.SelectBegin? || ev.NewConversation? {
      SavedEntries(s);
    } else {
      StepRefines(s, ev);
      var p, q := Abstract(s), Abstract(Step(s, ev));
      if ev.LoadCompleted? && ev.id in s.loads {
        PlainDeliverAllFrame(p, ev.id, ev.detail, p.loads[ev.id], other);
      }
      assert other in q.entries <==> other in p.entries;
      assert other in p.entries ==> q.entries[other] == p.entries[other];
    }
  }

  /** The text that the deltas of `id` carry, in order. */
  function Deltas(events: seq<Event>, id: string): string {
    if |events| == 0 then ""
    else
      var last := events[|events| - 1];
      Deltas(events[..|events| - 1], id)
      + if last.Turn? && last.id == id && last.event.Delta? then last.event.text else ""
  }

  /** A stream keeps every delta, whatever is selected, prefetched, loaded or streamed elsewhere meanwhile. */
  lemma {:induction false} DeltasAccumulate(s: State, events: seq<Event>, id: string)
    requires MirrorAt(s, id) && id in s.cache
    requires forall i | 0 <= i < |events| ::
               var t := Trace(s, events)[i];
               && !events[i].ReloadAll?
               && (Subject(t, events[i]) == Some(id) ==> events[i].Turn? && events[i].event.Delta?)
    ensures var t := Trace(s, events)[|events|];
            MirrorAt(t, id) && id in t.cache && Six(t.cache[id]) == Six(s.cache[id]).(content := s.cache[id].content + Deltas(events, id))
  {
    hide Step, MirrorAt, Abstract, Trace, Deltas, Subject;
    if |events| == 0 {
      NoDeltas(s, id);
    } else {
      var n := |events| - 1;
      TracePrefix(s, events, n);
      assert forall i | 0 <= i < n :: events[..n][i] == events[i] && Trace(s, events[..n])[i] == Trace(s, events)[i];
      DeltasAccumulate(s, events[..n], id);
      TraceSteps(s, events, n);
      DeltaStep(Trace(s, events)[n], events[n], id);
      DeltasGrow(events, id);
    }
  }

  lemma NoDeltas(s: State, id: string)
    ensures Deltas([], id) == "" && s == Trace(s, [])[0]
  {}

  lemma DeltasGrow(events: seq<Event>, id: string)
    requires |events| > 0
    ensures var last := events[|events| - 1];
            Deltas(events, id) == Deltas(events[..|events| - 1], id)
              + if last.Turn? && last.id == id && last.event.Delta? then last.event.text else ""
  {}

  lemma DeltaStep(t: State, ev: Event, id: string)
    requires MirrorAt(t, id) && !ev.ReloadAll? && id in t.cache
    requires Subject(t, ev) == Some(id) ==> ev.Turn? && ev.event.Delta?
    ensures var u := Step(t, ev);
            && MirrorAt(u, id) && id in u.cache
            && Six(u.cache[id]) == Six(t.cache[id]).(content := t.cache[id].content
                 + if ev.Turn? && ev.id == id && ev.event.Delta? then ev.event.text else "")
  {
    if Subject(t, ev) != Some(id) {
      OtherEntriesUntouched(t, ev, id);
      MirrorStaysAt(t, ev, id);
    }
  }

  lemma MirrorStaysAt(s: State, ev: Event, id: string)
    requires MirrorAt(s, id) && !ev.ReloadAll? && id in s.cache && Subject(s, ev) != Some(id)
    ensures MirrorAt(Step(s, ev), id)
  {
    hide TurnPatch, OptimisticBase, DeliverAll, AddWaiter;
    if ev.LoadCompleted? && ev.id in s.loads {
      if s.activeId == Some(ev.id) {
        DeliverToActive(s, ev.id, ev.detail, s.loads[ev.id]);
      } else {
        DeliverElsewhere(s, ev.id, ev.detail, s.loads[ev.id]);
      }
    }
  }

  // Everything that a stream delivers, not only its deltas.

  /** The event belongs to a turn that goes on. */
  predicate IsStream(ev: TurnEvent) {
    ev.TurnStarted? || ev.Delta? || ev.Reasoning? || ev.ToolCalled? || ev.ToolReturned? || ev.Telemetry? || ev.MessageDeleted?
  }

  /** The reasoning that the events of `id` carry, in order. */
  function Reasonings(events: seq<Event>, id: string): string {
    if |events| == 0 then ""
    else
      var last := events[|events| - 1];
      Reasonings(events[..|events| - 1], id)
      + if last.Turn? && last.id == id && last.event.Reasoning? then last.event.text else ""
  }

  /** The longest duration reported for `id`, and at least `least`. */
  function Longest(events: seq<Event>, id: string, least: int): (longest: int)
    ensures longest >= least
    ensures forall ev | ev in events && ev.Turn? && ev.id == id && ev.event.Telemetry? :: longest >= ev.event.durationMs
    ensures longest == least
            || exists ev :: ev in events && ev.Turn? && ev.id == id && ev.event.Telemetry? && longest == ev.event.durationMs
  {
    if |events| == 0 then least
    else
      var last, before := events[|events| - 1], Longest(events[..|events| - 1], id, least);
      if last.Turn? && last.id == id && last.event.Telemetry? && last.event.durationMs > before
      then last.event.durationMs else before
  }

  /** The pieces of arguments that the events of `id` carry for the tool call at `index`, in order. */
  function Pieces(events: seq<Event>, id: string, index: int): string {
    if |events| == 0 then ""
    else
      var last := events[|events| - 1];
      Pieces(events[..|events| - 1], id, index)
      + if last.Turn? && last.id == id && last.event.ToolCalled? && last.event.fragment.index == index
        then Or(last.event.fragment.arguments, "") else ""
  }

  /** The arguments that an entry shows for the tool call at `index`. */
  function ArgumentsAt(calls: seq<ToolCall>, index: int): string {
    if |calls| == 0 then "" else if calls[0].index == index then calls[0].arguments else ArgumentsAt(calls[1..], index)
  }

  lemma {:induction false} MergeAppends(calls: seq<ToolCall>, f: ToolFragment, index: int)
    ensures ArgumentsAt(MergeToolCall(calls, f), index)
            == ArgumentsAt(calls, index) + if f.index == index then Or(f.arguments, "") else ""
  {
    hide Or;
    if |calls| > 0 {
      MergeAppends(calls[1..], f, index);
      var merged := MergeToolCall(calls, f);
      assert merged[0].index == calls[0].index;
      if calls[0].index == f.index {
        assert merged[1..] == calls[1..];
      } else {
        assert merged[1..] == MergeToolCall(calls[1..], f);
      }
    } else {
      assert "" + Or(f.arguments, "") == Or(f.arguments, "");
    }
  }

  /** A fragment for a call that is there extends its arguments, renames it if it says so, and touches no other call. */
  lemma {:induction false} FragmentExtends(calls: seq<ToolCall>, f: ToolFragment, at: nat)
    requires at < |calls| && calls[at].index == f.index && forall i | 0 <= i < at :: calls[i].index != f.index
    ensures var merged := MergeToolCall(calls, f);
            && |merged| == |calls| && (forall i | 0 <= i < |calls| && i != at :: merged[i] == calls[i])
            && merged[at] == ToolCall(f.index,
                 if f.id.Some? && f.id.value != "" then f.id else calls[at].id,
                 if f.name.Some? && f.name.value != "" then f.name.value else calls[at].name,
                 calls[at].arguments + (if f.arguments.Some? then f.arguments.value else ""),
                 calls[at].result, calls[at].status)
  {
    if at > 0 {
      FragmentExtends(calls[1..], f, at - 1);
    }
  }

  /** A fragment for a new call opens it behind the others. */
  lemma {:induction false} FragmentOpens(calls: seq<ToolCall>, f: ToolFragment)
    requires forall c | c in calls :: c.index != f.index
    ensures MergeToolCall(calls, f) == calls + [ToolCall(f.index, f.id, if f.name.Some? then f.name.value else "",
              if f.arguments.Some? then f.arguments.value else "", None, "pending")]
  {
    if |calls| > 0 {
      FragmentOpens(calls[1..], f);
      assert calls[0] in calls;
    }
  }

  /** A result goes to the calls with its id, and to pending ones without an id; the others stay as they are. */
  lemma {:induction false} ResultGoesTo(calls: seq<ToolCall>, id: string, result: string, status: string, i: nat)
    requires i < |calls|
    ensures var returned := ReturnToolCall(calls, id, result, status);
            && |returned| == |calls|
            && returned[i] == if calls[i].id == Some(id) || ((calls[i].id == None || calls[i].id == Some("")) && calls[i].status == "pending")
                              then ToolCall(calls[i].index, calls[i].id, calls[i].name, calls[i].arguments, Some(result), status)
                              else calls[i]
  {
    if |calls| > 1 {
      ResultGoesTo(calls[1..], id, result, status, if i > 0 then i - 1 else 0);
    }
  }

  lemma {:induction false} ResultKeepsArguments(calls: seq<ToolCall>, id: string, result: string, status: string, index: int)
    ensures ArgumentsAt(ReturnToolCall(calls, id, result, status), index) == ArgumentsAt(calls, index)
  {
    if |calls| > 0 {
      ResultKeepsArguments(calls[1..], id, result, status, index);
    }
  }

  /** What the entry has become after more of its stream: text, reasoning and the arguments of every tool call have
      grown by what was delivered for each, the duration is the longest, and the turn goes on. */
  ghost predicate HasGrown(e: Entry, f: Entry, events: seq<Event>, id: string) {
    && f.content == e.content + Deltas(events, id) && f.reasoning == e.reasoning + Reasonings(events, id)
    && f.durationMs == Longest(events, id, e.durationMs) && f.streaming == e.streaming
    && forall index :: ArgumentsAt(f.toolCalls, index) == ArgumentsAt(e.toolCalls, index) + Pieces(events, id, index)
  }

  /** A stream loses nothing and mixes nothing up, whatever happens elsewhere meanwhile. */
  lemma {:induction false} StreamAccumulates(s: State, events: seq<Event>, id: string)
    requires MirrorAt(s, id) && id in s.cache
    requires forall i | 0 <= i < |events| ::
               var t := Trace(s, events)[i];
               && !events[i].ReloadAll?
               && (Subject(t, events[i]) == Some(id) ==> events[i].Turn? && IsStream(events[i].event))
    ensures var t := Trace(s, events)[|events|];
            MirrorAt(t, id) && id in t.cache && HasGrown(s.cache[id], t.cache[id], events, id)
  {
    hide Step, MirrorAt, Abstract, Trace, Subject, HasGrown, IsStream;
    if |events| == 0 {
      NothingGrown(s, id);
    } else {
      var n := |events| - 1;
      TracePrefix(s, events, n);
      assert forall i | 0 <= i < n :: events[..n][i] == events[i] && Trace(s, events[..n])[i] == Trace(s, events)[i];
      StreamAccumulates(s, events[..n], id);
      TraceSteps(s, events, n);
      var t := Trace(s, events)[n];
      StreamStep(t, events[n], id);
      Grows(s.cache[id], t.cache[id], Trace(s, events)[n + 1].cache[id], events, id);
    }
  }

  lemma NothingGrown(s: State, id: string)
    requires id in s.cache
    ensures Trace(s, [])[0] == s && HasGrown(s.cache[id], s.cache[id], [], id)
  {
    var e := s.cache[id];
    assert e.content + "" == e.content && e.reasoning + "" == e.reasoning;
    forall index ensures ArgumentsAt(e.toolCalls, index) == ArgumentsAt(e.toolCalls, index) + Pieces([], id, index) {
      assert ArgumentsAt(e.toolCalls, index) + "" == ArgumentsAt(e.toolCalls, index);
    }
  }

  lemma StreamStep(t: State, ev: Event, id: string)
    requires MirrorAt(t, id) && !ev.ReloadAll? && id in t.cache
    requires Subject(t, ev) == Some(id) ==> ev.Turn? && IsStream(ev.event)
    ensures var u := Step(t, ev);
            MirrorAt(u, id) && id in u.cache && HasGrown(t.cache[id], u.cache[id], [ev], id)
  {
    hide TurnPatch, HasGrown, MirrorAt;
    if Subject(t, ev) != Some(id) {
      OtherEntriesUntouched(t, ev, id);
      MirrorStaysAt(t, ev, id);
      ElsewhereGrowsNothing(t.cache[id], Step(t, ev).cache[id], ev, id);
    } else {
      var u := Step(t, ev);
      UpdateKeepsMirrorAt(t, id, TurnPatch(t.cache[id], ev.event));
      PatchGrows(t.cache[id], ev, id);
    }
  }

  lemma UpdateKeepsMirrorAt(s: State, id: string, p: Patch)
    requires MirrorAt(s, id) && id in s.cache
    ensures var t := CacheUpdate(s, id, p);
            MirrorAt(t, id) && id in t.cache && t.cache[id] == Apply(s.cache[id], p)
  {}

  lemma OneEvent(ev: Event, id: string, index: int, least: int)
    ensures Deltas([ev], id) == if ev.Turn? && ev.id == id && ev.event.Delta? then ev.event.text else ""
    ensures Reasonings([ev], id) == if ev.Turn? && ev.id == id && ev.event.Reasoning? then ev.event.text else ""
    ensures Pieces([ev], id, index)
            == if ev.Turn? && ev.id == id && ev.event.ToolCalled? && ev.event.fragment.index == index
               then Or(ev.event.fragment.arguments, "") else ""
    ensures Longest([ev], id, least)
            == if ev.Turn? && ev.id == id && ev.event.Telemetry? && ev.event.durationMs > least then ev.event.durationMs else least
  {
    assert [ev][..0] == [];
    assert Deltas([], id) == Reasonings([], id) == Pieces([], id, index) == "" && Longest([], id, least) == least;
  }

  lemma ElsewhereGrowsNothing(e: Entry, f: Entry, ev: Event, id: string)
    requires Six(e) == Six(f) && !(ev.Turn? && ev.id == id)
    ensures HasGrown(e, f, [ev], id)
  {
    forall index
      ensures ArgumentsAt(f.toolCalls, index) == ArgumentsAt(e.toolCalls, index) + Pieces([ev], id, index)
      ensures Deltas([ev], id) == "" == Reasonings([ev], id) && Longest([ev], id, e.durationMs) == e.durationMs
    {
      OneEvent(ev, id, index, e.durationMs);
    }
    OneEvent(ev, id, 0, e.durationMs);
    assert e.content + "" == e.content && e.reasoning + "" == e.reasoning;
  }

  lemma PatchGrows(e: Entry, ev: Event, id: string)
    requires ev.Turn? && ev.id == id && IsStream(ev.event)
    ensures HasGrown(e, Apply(e, TurnPatch(e, ev.event)), [ev], id)
  {
    hide MergeToolCall, ReturnToolCall, Reconcile, Filter, Deltas, Reasonings, Pieces, Longest, ArgumentsAt;
    var f := Apply(e, TurnPatch(e, ev.event));
    OneEvent(ev, id, 0, e.durationMs);
    forall index ensures ArgumentsAt(f.toolCalls, index) == ArgumentsAt(e.toolCalls, index) + Pieces([ev], id, index) {
      OneEvent(ev, id, index, e.durationMs);
      match ev.event
      case ToolCalled(fragment) => MergeAppends(e.toolCalls, fragment, index);
      case ToolReturned(call, result, status) => ResultKeepsArguments(e.toolCalls, call, result, status, index);
      case _ =>
    }
    assert e.content + "" == e.content && e.reasoning + "" == e.reasoning;
  }

  lemma LastEvent(events: seq<Event>, id: string, index: int, least: int)
    requires |events| > 0
    ensures var before, last := events[..|events| - 1], [events[|events| - 1]];
            && Deltas(events, id) == Deltas(before, id) + Deltas(last, id)
            && Reasonings(events, id) == Reasonings(before, id) + Reasonings(last, id)
            && Pieces(events, id, index) == Pieces(before, id, index) + Pieces(last, id, index)
            && Longest(events, id, least) == Longest(last, id, Longest(before, id, least))
  {
    OneEvent(events[|events| - 1], id, index, Longest(events[..|events| - 1], id, least));
  }

  lemma Associative(a: string, b: string, c: string)
    ensures (a + b) + c == a + (b + c)
  {}

  lemma Grows(d: Entry, e: Entry, f: Entry, events: seq<Event>, id: string)
    requires |events| > 0 && HasGrown(d, e, events[..|events| - 1], id) && HasGrown(e, f, [events[|events| - 1]], id)
    ensures HasGrown(d, f, events, id)
  {
    hide Deltas, Reasonings, Pieces, Longest, ArgumentsAt;
    var before, last := events[..|events| - 1], [events[|events| - 1]];
    LastEvent(events, id, 0, d.durationMs);
    Associative(d.content, Deltas(before, id), Deltas(last, id));
    Associative(d.reasoning, Reasonings(before, id), Reasonings(last, id));
    forall index ensures ArgumentsAt(f.toolCalls, index) == ArgumentsAt(d.toolCalls, index) + Pieces(events, id, index) {
      LastEvent(events, id, index, d.durationMs);
      Associative(ArgumentsAt(d.toolCalls, index), Pieces(before, id, index), Pieces(last, id, index));
    }
  }

  lemma {:induction false} TracePrefix(s: State, events: seq<Event>, n: nat)
    requires n <= |events|
    ensures Trace(s, events[..n]) == Trace(s, events)[..n + 1]
    decreases n
  {
    hide Step;
    if n > 0 {
      TracePrefix(Step(s, events[0]), events[1..], n - 1);
      assert events[..n][1..] == events[1..][..n - 1];
    }
  }

  // ---------- Prefetched conversations ----------

  /** A prefetched conversation has an entry, is not on screen and runs no turn. */
  ghost predicate PrefetchedIdle(s: State) {
    forall p | p in s.prefetched :: s.activeId != Some(p) && p in s.cache && !s.cache[p].streaming
  }

  /** A conversation is created, or a turn starts in it, while it still counts as prefetched. */
  predicate UsesPrefetched(s: State, ev: Event) {
    match ev
    case NewConversation(id) => id in s.prefetched
    case SendBegin(id, replace, _, _) =>
      id in s.prefetched && id in s.cache && OptimisticBase(s.cache[id].messages, replace).Some?
    case _ => false
  }

  lemma TurnNeverStarts(e: Entry, ev: TurnEvent)
    ensures TurnPatch(e, ev).streaming != Some(true)
  {}

  lemma {:induction false} DeliverAllKeepsIdle(s: State, id: string, messages: seq<Message>, ws: seq<Waiter>)
    requires PrefetchedIdle(s)
    ensures PrefetchedIdle(DeliverAll(s, id, messages, ws))
  {
    if |ws| > 0 {
      DeliverAllKeepsIdle(s, id, messages, ws[..|ws| - 1]);
    }
  }

  /** Only these two events end that: creation does not take the conversation off the list of prefetched ones. */
  lemma PrefetchedIdleBreaks(s: State, ev: Event)
    requires PrefetchedIdle(s)
    ensures PrefetchedIdle(Step(s, ev)) <==> !UsesPrefetched(s, ev)
  {
    hide TurnPatch, OptimisticBase, DeliverAll;
    match ev
    case LoadCompleted(id, messages) =>
      if id in s.loads {
        DeliverAllKeepsIdle(s, id, messages, s.loads[id]);
      }
    case Turn(id, event) =>
      if id in s.cache {
        TurnNeverStarts(s.cache[id], event);
      }
    case SendBegin(id, replace, user, controller) =>
      SendKeepsIdleIff(s, id, replace, user, controller);
    case _ =>
  }

  lemma SendKeepsIdleIff(s: State, id: string, replace: Option<string>, user: Message, controller: Controller)
    requires PrefetchedIdle(s)
    ensures PrefetchedIdle(Step(s, SendBegin(id, replace, user, controller)))
            <==> !UsesPrefetched(s, SendBegin(id, replace, user, controller))
  {
    hide OptimisticBase, CacheUpdate;
    var entered := if id in s.cache then s else s.(cache := s.cache[id := EmptyEntry(s.view.messages)]);
    assert PrefetchedIdle(entered);
    var base := OptimisticBase(entered.cache[id].messages, replace);
    if base.Some? {
      UpdateKeepsIdleIff(entered, id,
        Patch(Some(base.value + [user]), Some(true), Some(""), Some(""), Some(0), Some([]), Some(Some(controller))));
    }
  }

  lemma UpdateKeepsIdleIff(s: State, id: string, p: Patch)
    requires PrefetchedIdle(s) && id in s.cache
    ensures PrefetchedIdle(CacheUpdate(s, id, p)) <==> !(id in s.prefetched && p.streaming == Some(true))
  {
    var t := CacheUpdate(s, id, p);
    assert t.cache[id] == Apply(s.cache[id], p);
  }

  ghost predicate IdleUntil(events: seq<Event>, n: nat)
    requires n <= |events|
  {
    forall i | 0 <= i <= n :: PrefetchedIdle(Trace(INITIAL, events)[i])
  }

  ghost predicate NoneUsed(events: seq<Event>, n: nat)
    requires n <= |events|
  {
    forall i | 0 <= i < n :: !UsesPrefetched(Trace(INITIAL, events)[i], events[i])
  }

  /** Over every run, prefetched conversations stay idle exactly as long as none of them is created or sent to. */
  lemma {:induction false} RunKeepsPrefetchedIdle(events: seq<Event>, n: nat)
    requires n <= |events|
    ensures IdleUntil(events, n) <==> NoneUsed(events, n)
  {
    hide Step, UsesPrefetched;
    if n > 0 {
      RunKeepsPrefetchedIdle(events, n - 1);
      TraceSteps(INITIAL, events, n - 1);
      if IdleUntil(events, n - 1) {
        PrefetchedIdleBreaks(Trace(INITIAL, events)[n - 1], events[n - 1]);
      }
    }
  }

  /** What a release drops is then neither on screen nor streaming. */
  lemma ReleaseDropsOnlyIdle(s: State, id: string, dropped: string)
    requires PrefetchedIdle(s) && dropped in s.cache && dropped !in Step(s, Release(id)).cache
    ensures dropped == id && dropped in s.prefetched && s.activeId != Some(dropped) && !s.cache[dropped].streaming
  {}

  /** A release drops something that streams exactly when it is prefetched and off screen all the same. */
  lemma ReleaseDropsStreamIff(s: State, id: string)
    requires id in s.cache && s.cache[id].streaming
    ensures id !in Step(s, Release(id)).cache <==> id in s.prefetched && s.activeId != Some(id)
  {}

  /** Prefetched before its creation is acknowledged, a conversation loses its running turn to a release. */
  lemma PrefetchedTurnIsLost(user: Message, text: string)
    ensures var s1 := Step(Step(INITIAL, PrefetchBegin("a")), LoadCompleted("a", []));
            var s2 := Step(Step(s1, NewConversation("a")), SendBegin("a", None, user, 7));
            var s3 := Step(Step(s2, SelectBegin("b")), Release("a"));
            && UsesPrefetched(s1, NewConversation("a")) && s2.cache["a"].streaming && "a" !in s3.cache
            && Step(s3, Turn("a", Delta(text))) == s3
  {
    hide Step, UsesPrefetched;
    var s1 := Step(Step(INITIAL, PrefetchBegin("a")), LoadCompleted("a", []));
    PrefetchArrives("a");
    CreatedWhilePrefetched(s1, "a", user);
    LostToRelease(Step(Step(s1, NewConversation("a")), SendBegin("a", None, user, 7)), "a", "b", text);
  }

  lemma CreatedWhilePrefetched(s: State, id: string, user: Message)
    requires id in s.prefetched
    ensures UsesPrefetched(s, NewConversation(id))
    ensures var t := Step(Step(s, NewConversation(id)), SendBegin(id, None, user, 7));
            id in t.prefetched && id in t.cache && t.cache[id].streaming
  {
    hide AddWaiter, TurnPatch, DeliverAll, Filter, IndexOfUser;
    var created := Step(s, NewConversation(id));
    assert created.cache[id] == EmptyEntry([]);
  }

  lemma LostToRelease(s: State, id: string, other: string, text: string)
    requires id in s.prefetched && id in s.cache && id != other
    ensures var t := Step(Step(s, SelectBegin(other)), Release(id));
            id !in t.cache && Step(t, Turn(id, Delta(text))) == t
  {
    hide AddWaiter, TurnPatch, DeliverAll, OptimisticBase, CacheUpdate;
    var left := Step(s, SelectBegin(other));
    assert id in left.prefetched && left.activeId == Some(other);
  }

  lemma PrefetchArrives(id: string)
    requires id != ""
    ensures var s := Step(Step(INITIAL, PrefetchBegin(id)), LoadCompleted(id, []));
            s.cache == map[id := EmptyEntry([])] && s.prefetched == {id} && s.activeId.None?
  {
    hide TurnPatch, OptimisticBase, CacheUpdate;
    var s := Step(INITIAL, PrefetchBegin(id));
    assert s.loads[id] == [] + [Prefetching] == [Prefetching];
    assert DeliverAll(s, id, [], [Prefetching][..0]) == s;
    assert DeliverAll(s, id, [], [Prefetching]) == Deliver(s, id, [], Prefetching);
  }

  // ---------- The seventh field ----------

  ghost predicate ControllerMirrored(s: State) {
    s.activeId.Some? && s.activeId.value in s.cache ==> s.view.controller == s.cache[s.activeId.value].controller
  }

  /** The active conversation gets the entry of its first load while the view still holds a controller. */
  predicate OpensOverController(s: State, ev: Event) {
    && s.activeId.Some? && s.view.controller.Some?
    && match ev
       case LoadCompleted(id, _) => s.activeId == Some(id) && IsOpening(s, id)
       case SendBegin(id, replace, _, _) =>
         s.activeId == Some(id) && id !in s.cache && OptimisticBase(s.view.messages, replace).None?
       case _ => false
  }

  /** The first-open path leaves the controller of the view alone; this is exactly when the mirror misses it. */
  lemma ControllerMirrorBreaks(s: State, ev: Event)
    requires ControllerMirrored(s)
    ensures ControllerMirrored(Step(s, ev)) <==> !OpensOverController(s, ev)
  {
    if ev.LoadCompleted? && ev.id in s.loads && s.activeId == Some(ev.id) {
      DeliverToActive(s, ev.id, ev.detail, s.loads[ev.id]);
    } else if ev.LoadCompleted? && ev.id in s.loads {
      DeliverElsewhere(s, ev.id, ev.detail, s.loads[ev.id]);
    }
  }

  /** The controller that `stopStreaming` aborts. */
  function StopTarget(s: State): Option<Controller> {
    if s.activeId.Some? && s.activeId.value in s.cache then s.cache[s.activeId.value].controller else None
  }

  /** From every state with a turn on screen: open another conversation for the first time, come back, and go there
      again. Stop, with the other one on screen, then aborts the turn that was left. */
  lemma StaleController(s: State, a: string, b: string, detail: seq<Message>)
    requires s.activeId == Some(a) && a in s.cache && s.view.controller.Some? && b != a && b !in s.cache && b !in s.loads
    ensures var arrived := Step(Step(s, SelectBegin(b)), LoadCompleted(b, detail));
            var t := Step(Step(arrived, SelectBegin(a)), SelectBegin(b));
            t.activeId == Some(b) && a in t.cache && StopTarget(t) == s.view.controller == t.cache[a].controller
  {
    hide Step;
    FirstOpenKeepsController(s, a, b, detail);
    var arrived := Step(Step(s, SelectBegin(b)), LoadCompleted(b, detail));
    BackAndForth(arrived, b, a);
  }

  lemma FirstOpenKeepsController(s: State, a: string, b: string, detail: seq<Message>)
    requires s.activeId == Some(a) && a in s.cache && b != a && b !in s.cache && b !in s.loads
    ensures var t := Step(Step(s, SelectBegin(b)), LoadCompleted(b, detail));
            && t.activeId == Some(b) && b in t.cache && a in t.cache
            && t.view.controller == s.view.controller == t.cache[a].controller
  {
    hide TurnPatch, OptimisticBase, CacheUpdate;
    var t := Step(s, SelectBegin(b));
    assert t.loads[b] == [] + [Selecting] == [Selecting];
    assert DeliverAll(t, b, detail, [Selecting][..0]) == t;
    assert DeliverAll(t, b, detail, [Selecting]) == Deliver(t, b, detail, Selecting);
  }

  lemma BackAndForth(s: State, b: string, a: string)
    requires s.activeId == Some(b) && b in s.cache && a in s.cache && a != b
    ensures var t := Step(Step(s, SelectBegin(a)), SelectBegin(b));
            && t.activeId == Some(b) && StopTarget(t) == s.view.controller
            && a in t.cache && t.cache[a].controller == s.cache[a].controller
  {
    hide TurnPatch, OptimisticBase, CacheUpdate, DeliverAll, AddWaiter;
    var left := Step(s, SelectBegin(a));
    assert left.cache[b] == s.view && left.view == left.cache[a];
  }

  /** A run that gets there, with the turn of conversation a. */
  lemma StaleControllerRun(user: Message)
    ensures var s := Step(Step(INITIAL, NewConversation("a")), SendBegin("a", None, user, 7));
            var t := Step(Step(s, SelectBegin("b")), LoadCompleted("b", []));
            var u := Step(Step(t, SelectBegin("a")), SelectBegin("b"));
            u.activeId == Some("b") && "a" in u.cache && StopTarget(u) == Some(7) == u.cache["a"].controller
  {
    var s := Step(Step(INITIAL, NewConversation("a")), SendBegin("a", None, user, 7));
    assert s.activeId == Some("a") && s.view.controller == Some(7) && "a" in s.cache && "b" !in s.cache && "b" !in s.loads;
    hide Step;
    StaleController(s, "a", "b", []);
  }

  /** Every cached controller belongs to a turn of its own conversation; `owner` says whose each is. */
  ghost predicate StopIsOwn(s: State, owner: map<Controller, string>) {
    forall id | id in s.cache && s.cache[id].controller.Some? :: Owns(owner, id, s.cache[id].controller.value)
  }

  predicate Owns(owner: map<Controller, string>, id: string, controller: Controller) {
    controller in owner && owner[controller] == id
  }

  /** The owners once the event has happened: a turn that starts brings a controller of its own. */
  function OwnersAfter(owner: map<Controller, string>, ev: Event): map<Controller, string> {
    if ev.SendBegin? then owner[ev.controller := ev.id] else owner
  }

  /** Leaving the active conversation writes the view's controller to its entry, although it is another's. */
  predicate SavesForeign(s: State, owner: map<Controller, string>, ev: Event) {
    && (ev.SelectBegin? || (ev.NewConversation? && s.activeId != Some(ev.id)))
    && s.activeId.Some? && s.activeId.value in s.cache
    && s.view.controller.Some? && !Owns(owner, s.activeId.value, s.view.controller.value)
  }

  /** Cached controllers stay with their conversations exactly when no such save happens. */
  lemma StopIsOwnBreaks(s: State, owner: map<Controller, string>, ev: Event)
    requires StopIsOwn(s, owner) && (ev.SendBegin? ==> ev.controller !in owner)
    ensures StopIsOwn(Step(s, ev), OwnersAfter(owner, ev)) <==> !SavesForeign(s, owner, ev)
  {
    hide OptimisticBase, DeliverAll, CacheUpdate, Apply, AddWaiter;
    match ev
    case LoadCompleted(id, messages) =>
      if id in s.loads {
        DeliverAllKeepsOwners(s, id, messages, s.loads[id], owner);
      }
    case SelectBegin(id) => SaveKeepsOwnersIff(s, owner, ev, Step(s, ev));
    case NewConversation(id) => SaveKeepsOwnersIff(s, owner, ev, Step(s, ev));
    case Turn(id, event) =>
      if id in s.cache {
        TurnBringsNoController(s.cache[id], event);
        UpdateKeepsOwners(s, id, TurnPatch(s.cache[id], event), owner);
      }
    case SendBegin(id, replace, user, controller) => SendKeepsOwners(s, id, replace, user, controller, owner);
    case PushSystem(message) =>
      if s.activeId.Some? && s.activeId.value in s.cache {
        var messages := s.cache[s.activeId.value].messages + [message];
        UpdateKeepsOwners(s, s.activeId.value, Patch(messages := Some(messages)), owner);
      }
    case _ =>
  }

  /** An update leaves the controller, clears it, or sets one of the conversation's own. */
  lemma UpdateKeepsOwners(s: State, id: string, p: Patch, owner: map<Controller, string>)
    requires StopIsOwn(s, owner)
    requires p.controller.Some? && p.controller.value.Some? ==> Owns(owner, id, p.controller.value.value)
    ensures StopIsOwn(CacheUpdate(s, id, p), owner)
  {}

  lemma SendKeepsOwners(s: State, id: string, replace: Option<string>, user: Message, controller: Controller,
                        owner: map<Controller, string>)
    requires StopIsOwn(s, owner) && controller !in owner
    ensures StopIsOwn(Step(s, SendBegin(id, replace, user, controller)), owner[controller := id])
  {
    hide OptimisticBase, CacheUpdate;
    var entered := if id in s.cache then s else s.(cache := s.cache[id := EmptyEntry(s.view.messages)]);
    assert StopIsOwn(entered, owner[controller := id]);
    var base := OptimisticBase(entered.cache[id].messages, replace);
    if base.Some? {
      UpdateKeepsOwners(entered, id,
        Patch(Some(base.value + [user]), Some(true), Some(""), Some(""), Some(0), Some([]), Some(Some(controller))),
        owner[controller := id]);
    }
  }

  lemma TurnBringsNoController(e: Entry, event: TurnEvent)
    ensures TurnPatch(e, event).controller in {None, Some(None)}
  {}

  lemma {:induction false} DeliverAllKeepsOwners(s: State, id: string, messages: seq<Message>, ws: seq<Waiter>,
                                                 owner: map<Controller, string>)
    requires StopIsOwn(s, owner)
    ensures StopIsOwn(DeliverAll(s, id, messages, ws), owner)
  {
    if |ws| > 0 {
      DeliverAllKeepsOwners(s, id, messages, ws[..|ws| - 1], owner);
    }
  }

  lemma SaveKeepsOwnersIff(s: State, owner: map<Controller, string>, ev: Event, t: State)
    requires StopIsOwn(s, owner) && (ev.SelectBegin? || ev.NewConversation?) && t == Step(s, ev)
    ensures StopIsOwn(t, owner) <==> !SavesForeign(s, owner, ev)
  {
    if SavesForeign(s, owner, ev) {
      var a := s.activeId.value;
      assert a in t.cache && t.cache[a].controller == s.view.controller;
    }
  }

  /** Whose turn each controller of a run is. */
  function Owners(events: seq<Event>): map<Controller, string> {
    if |events| == 0 then map[] else OwnersAfter(Owners(events[..|events| - 1]), events[|events| - 1])
  }

  /** Every turn brings a controller that no earlier one had. */
  ghost predicate NewControllers(events: seq<Event>) {
    forall i | 0 <= i < |events| && events[i].SendBegin? :: events[i].controller !in Owners(events[..i])
  }

  ghost predicate OwnUntil(events: seq<Event>, n: nat)
    requires n <= |events|
  {
    forall i | 0 <= i <= n :: StopIsOwn(Trace(INITIAL, events)[i], Owners(events[..i]))
  }

  ghost predicate NoForeignSaves(events: seq<Event>, n: nat)
    requires n <= |events|
  {
    forall i | 0 <= i < n :: !SavesForeign(Trace(INITIAL, events)[i], Owners(events[..i]), events[i])
  }

  /** Over every run, each cached controller is its conversation's own exactly as long as no foreign one is saved. */
  lemma {:induction false} OwnIffNoForeignSaves(events: seq<Event>, n: nat)
    requires NewControllers(events) && n <= |events|
    ensures OwnUntil(events, n) <==> NoForeignSaves(events, n)
  {
    hide StopIsOwn, SavesForeign, Step, Owners, OwnersAfter, Trace;
    if n == 0 {
      NothingIsOwned();
      assert events[..0] == [];
    } else {
      OwnIffNoForeignSaves(events, n - 1);
      TraceSteps(INITIAL, events, n - 1);
      OwnersGrow(events, n);
      if OwnUntil(events, n - 1) {
        StopIsOwnBreaks(Trace(INITIAL, events)[n - 1], Owners(events[..n - 1]), events[n - 1]);
      }
    }
  }

  lemma OwnersGrow(events: seq<Event>, n: nat)
    requires 0 < n <= |events|
    ensures Owners(events[..n]) == OwnersAfter(Owners(events[..n - 1]), events[n - 1])
  {
    assert events[..n][..n - 1] == events[..n - 1];
  }

  lemma NothingIsOwned()
    ensures StopIsOwn(INITIAL, map[]) && Owners([]) == map[]
  {}

  /** Then Stop aborts only a turn of the conversation on screen. */
  lemma StopAbortsOwnTurn(events: seq<Event>, n: nat)
    requires NewControllers(events) && n <= |events| && NoForeignSaves(events, n)
    ensures var s := Trace(INITIAL, events)[n];
            StopTarget(s).Some? ==> s.activeId.Some? && Owns(Owners(events[..n]), s.activeId.value, StopTarget(s).value)
  {
    OwnIffNoForeignSaves(events, n);
  }

  /** The controller in the view is the active conversation's own. */
  ghost predicate ViewIsOwn(s: State, owner: map<Controller, string>) {
    s.view.controller.Some? ==> s.activeId.Some? && Owns(owner, s.activeId.value, s.view.controller.value)
  }

  /** A conversation without an entry is opened while the view holds the controller of a running turn. */
  predicate OpensDuringTurn(s: State, ev: Event) {
    ev.SelectBegin? && s.view.controller.Some? && ev.id !in s.cache
  }

  /** Only that leads to a foreign save. */
  lemma ViewStaysOwn(s: State, owner: map<Controller, string>, ev: Event)
    requires StopIsOwn(s, owner) && ViewIsOwn(s, owner) && (ev.SendBegin? ==> ev.controller !in owner)
    requires !OpensDuringTurn(s, ev)
    ensures !SavesForeign(s, owner, ev) && ViewIsOwn(Step(s, ev), OwnersAfter(owner, ev))
  {
    hide OptimisticBase, DeliverAll, AddWaiter;
    match ev
    case LoadCompleted(id, messages) =>
      if id in s.loads && s.activeId == Some(id) {
        DeliverToActive(s, id, messages, s.loads[id]);
      } else if id in s.loads {
        DeliverElsewhere(s, id, messages, s.loads[id]);
      }
    case Turn(id, event) =>
      if id in s.cache {
        TurnBringsNoController(s.cache[id], event);
      }
    case SendBegin(id, replace, user, controller) => SendKeepsViewOwn(s, owner, id, replace, user, controller);
    case _ =>
  }

  lemma SendKeepsViewOwn(s: State, owner: map<Controller, string>, id: string, replace: Option<string>, user: Message,
                         controller: Controller)
    requires ViewIsOwn(s, owner) && controller !in owner
    ensures ViewIsOwn(Step(s, SendBegin(id, replace, user, controller)), owner[controller := id])
  {
    hide OptimisticBase;
  }

  /** So Stop is right over every run that opens no conversation for the first time during a turn on screen. */
  lemma {:induction false} NoOpeningDuringTurns(events: seq<Event>, n: nat)
    requires NewControllers(events) && n <= |events|
    requires forall i | 0 <= i < n :: !OpensDuringTurn(Trace(INITIAL, events)[i], events[i])
    ensures NoForeignSaves(events, n) && ViewIsOwn(Trace(INITIAL, events)[n], Owners(events[..n]))
  {
    hide StopIsOwn, SavesForeign, Step, OpensDuringTurn;
    if n > 0 {
      NoOpeningDuringTurns(events, n - 1);
      OwnIffNoForeignSaves(events, n - 1);
      TraceSteps(INITIAL, events, n - 1);
      assert events[..n][..n - 1] == events[..n - 1];
      ViewStaysOwn(Trace(INITIAL, events)[n - 1], Owners(events[..n - 1]), events[n - 1]);
    }
  }

  // ---------- Stop reaches the turn ----------

  /** The entry of the conversation holds the controller of a turn. */
  ghost predicate Holds(s: State, id: string, controller: Controller) {
    id in s.cache && s.cache[id].controller == Some(controller)
  }

  /** The event takes the controller out of the entry: the entry goes or is replaced, a turn's last callback or a reload
      from the Engine clears it, another turn takes its place, or a view without it is saved. */
  predicate LosesController(s: State, ev: Event, id: string, controller: Controller) {
    match ev
    case LoadCompleted(other, _) => other == id && IsOpening(s, id)
    case Release(other) => other == id && id in s.prefetched && s.activeId != Some(id)
    case NewConversation(other) => other == id || (s.activeId == Some(id) && s.view.controller != Some(controller))
    case SelectBegin(_) => s.activeId == Some(id) && s.view.controller != Some(controller)
    case DeleteDone(other) => other == id
    case ReloadAll => true
    case SendBegin(other, replace, _, newer) =>
      other == id && newer != controller && id in s.cache && OptimisticBase(s.cache[id].messages, replace).Some?
    case Turn(other, event) => other == id && (event.TurnDone? || event.TurnFailed? || event.Settled? || event.Reloaded?)
    case _ => false
  }

  lemma HoldsIff(s: State, ev: Event, id: string, controller: Controller)
    requires Holds(s, id, controller)
    ensures Holds(Step(s, ev), id, controller) <==> !LosesController(s, ev, id, controller)
  {
    hide OptimisticBase, DeliverAll, AddWaiter, Filter;
    if ev.LoadCompleted? && ev.id in s.loads {
      DeliverKeepsController(s, ev.id, ev.detail, s.loads[ev.id], id);
    }
  }

  lemma {:induction false} DeliverKeepsController(s: State, id: string, messages: seq<Message>, ws: seq<Waiter>, held: string)
    requires held in s.cache
    ensures var t := DeliverAll(s, id, messages, ws);
            && held in t.cache && t.activeId == s.activeId
            && t.cache[held] == if held == id && Selecting in ws then EmptyEntry(messages) else s.cache[held]
  {
    if |ws| > 0 {
      DeliverKeepsController(s, id, messages, ws[..|ws| - 1], held);
      assert ws == ws[..|ws| - 1] + [ws[|ws| - 1]];
    }
  }

  ghost predicate HoldsUntil(s: State, events: seq<Event>, n: nat, id: string, controller: Controller)
    requires n <= |events|
  {
    forall i | 0 <= i <= n :: Holds(Trace(s, events)[i], id, controller)
  }

  ghost predicate NeverLost(s: State, events: seq<Event>, n: nat, id: string, controller: Controller)
    requires n <= |events|
  {
    forall i | 0 <= i < n :: !LosesController(Trace(s, events)[i], events[i], id, controller)
  }

  /** From every state with a turn in a conversation and over every run, its entry holds the turn's controller exactly
      as long as no such event happens. */
  lemma {:induction false} HoldsWhileNotLost(s: State, events: seq<Event>, n: nat, id: string, controller: Controller)
    requires Holds(s, id, controller) && n <= |events|
    ensures HoldsUntil(s, events, n, id, controller) <==> NeverLost(s, events, n, id, controller)
  {
    hide Step, Holds, LosesController;
    if n > 0 {
      HoldsWhileNotLost(s, events, n - 1, id, controller);
      TraceSteps(s, events, n - 1);
      if HoldsUntil(s, events, n - 1, id, controller) {
        HoldsIff(Trace(s, events)[n - 1], events[n - 1], id, controller);
      }
    }
  }

  /** And then Stop, with the conversation on screen, aborts that turn. */
  lemma StopReachesTurn(s: State, events: seq<Event>, n: nat, id: string, controller: Controller)
    requires Holds(s, id, controller) && n <= |events| && NeverLost(s, events, n, id, controller)
    requires Trace(s, events)[n].activeId == Some(id)
    ensures StopTarget(Trace(s, events)[n]) == Some(controller)
  {
    HoldsWhileNotLost(s, events, n, id, controller);
  }

  /** From every state with a conversation on screen: a turn fails, the next one starts, and only then the reload of the
      first arrives from the Engine. The second goes on receiving text, and Stop finds no turn. */
  lemma LateReloadHidesTurn(s: State, id: string, failed: TurnEvent, user: Message, controller: Controller,
                            detail: seq<Message>, text: string)
    requires s.activeId == Some(id) && id in s.cache && failed.TurnFailed?
    ensures var t := Step(Step(s, Turn(id, failed)), SendBegin(id, None, user, controller));
            var u := Step(t, Turn(id, Reloaded(detail)));
            var v := Step(u, Turn(id, Delta(text)));
            && StopTarget(t) == Some(controller) && LosesController(t, Turn(id, Reloaded(detail)), id, controller)
            && StopTarget(v).None? && v.view.content == text && v.cache[id].content == text
  {
    hide TurnPatch, IndexOfUser, DeliverAll, AddWaiter, Filter;
    var first := Step(s, Turn(id, failed));
    assert first.activeId == Some(id) && id in first.cache;
    var t := Step(first, SendBegin(id, None, user, controller));
    StartedTurn(first, id, user, controller);
    ReloadedThenDelta(t, id, detail, text);
  }

  lemma StartedTurn(s: State, id: string, user: Message, controller: Controller)
    requires s.activeId == Some(id) && id in s.cache
    ensures var t := Step(s, SendBegin(id, None, user, controller));
            t.activeId == Some(id) && id in t.cache && StopTarget(t) == Some(controller)
  {
    hide IndexOfUser;
  }

  lemma ReloadedThenDelta(s: State, id: string, detail: seq<Message>, text: string)
    requires s.activeId == Some(id) && id in s.cache
    ensures var u := Step(Step(s, Turn(id, Reloaded(detail))), Turn(id, Delta(text)));
            && u.activeId == Some(id) && id in u.cache
            && StopTarget(u).None? && u.view.content == text && u.cache[id].content == text
  {
    var r := Step(s, Turn(id, Reloaded(detail)));
    assert r.activeId == Some(id) && id in r.cache && r.cache[id] == EmptyEntry(detail) && r.view == EmptyEntry(detail);
    assert "" + text == text;
    var u := Step(r, Turn(id, Delta(text)));
    assert u.cache[id] == r.cache[id].(content := "" + text) && u.view == r.view.(content := "" + text);
  }

  // ---------- Reconciling a turn ----------

  lemma {:induction false} FilterAppend(a: seq<Message>, b: seq<Message>, keep: Message -> bool)
    ensures Filter(a + b, keep) == Filter(a, keep) + Filter(b, keep)
  {
    if |a| == 0 {
      assert a + b == b;
    } else {
      assert (a + b)[1..] == a[1..] + b && (a + b)[0] == a[0];
      FilterAppend(a[1..], b, keep);
      var head := if keep(a[0]) then [a[0]] else [];
      assert head + (Filter(a[1..], keep) + Filter(b, keep)) == (head + Filter(a[1..], keep)) + Filter(b, keep);
    }
  }

  lemma {:induction false} FilterTwice(a: seq<Message>, keep: Message -> bool, keepLess: Message -> bool)
    requires forall m | m in a && keepLess(m) :: keep(m)
    ensures Filter(Filter(a, keep), keepLess) == Filter(a, keepLess)
  {
    if |a| > 0 {
      FilterTwice(a[1..], keep, keepLess);
      FilterAppend(if keep(a[0]) then [a[0]] else [], Filter(a[1..], keep), keepLess);
      assert [a[0]][1..] == [];
    }
  }

  /** Whether or not the turn was announced first, its completion leaves the same transcript. */
  lemma StartedThenDone(messages: seq<Message>, optimisticId: string, user: Message, assistant: Option<Message>)
    ensures Reconcile(Reconcile(messages, optimisticId, user, None), optimisticId, user, assistant)
         == Reconcile(messages, optimisticId, user, assistant)
  {
    var keep, keepLess := OutsideTurn(optimisticId, user, None), OutsideTurn(optimisticId, user, assistant);
    FilterTwice(messages, keep, keepLess);
    FilterAppend(Filter(messages, keep), [user], keepLess);
    assert Filter([user], keepLess) == [] by { assert [user][1..] == []; }
    assert Reconcile(messages, optimisticId, user, None) == Filter(messages, keep) + [user];
  }

  /** The persisted turn occurs once, at the end, and the optimistic message is gone. */
  lemma ReconcileEndsWithTurn(messages: seq<Message>, optimisticId: string, user: Message, assistant: Option<Message>)
    requires optimisticId != user.id && (assistant.Some? ==> assistant.value.id !in {optimisticId, user.id})
    ensures var r := Reconcile(messages, optimisticId, user, assistant);
            var n := |r| - if assistant.Some? then 2 else 1;
            && 0 <= n && r[n] == user && (assistant.Some? ==> r[n + 1] == assistant.value)
            && forall i | 0 <= i < |r| :: r[i].id != optimisticId && (r[i].id == user.id <==> i == n)
  {
    var kept := Filter(messages, OutsideTurn(optimisticId, user, assistant));
    FilterKeeps(messages, OutsideTurn(optimisticId, user, assistant));
    var r := Reconcile(messages, optimisticId, user, assistant);
    assert |r| == |kept| + if assistant.Some? then 2 else 1;
    forall i | 0 <= i < |kept| ensures r[i] in kept {
      assert r[i] == kept[i];
    }
  }

  lemma {:induction false} FilterKeeps(a: seq<Message>, keep: Message -> bool)
    ensures forall m :: m in Filter(a, keep) <==> m in a && keep(m)
  {
    if |a| > 0 {
      FilterKeeps(a[1..], keep);
      assert a == [a[0]] + a[1..];
    }
  }

  /** `kept` is the messages at the places `at`, in their order. */
  ghost predicate Selects(messages: seq<Message>, at: seq<nat>, kept: seq<Message>) {
    && |at| == |kept| && (forall i, j | 0 <= i < j < |at| :: at[i] < at[j])
    && forall i | 0 <= i < |at| :: at[i] < |messages| && kept[i] == messages[at[i]]
  }

  /** The places are those of the messages to keep. */
  ghost predicate KeptAt(messages: seq<Message>, at: seq<nat>, keep: Message -> bool) {
    forall k: nat | k < |messages| :: k in at <==> keep(messages[k])
  }

  lemma {:induction false} FilterSelects(messages: seq<Message>, keep: Message -> bool) returns (at: seq<nat>)
    ensures Selects(messages, at, Filter(messages, keep)) && KeptAt(messages, at, keep)
    decreases |messages|
  {
    hide Selects, Filter, KeptAt;
    if |messages| == 0 {
      at := [];
      NothingSelected(keep);
      assert messages == [];
    } else {
      var before, last := messages[..|messages| - 1], messages[|messages| - 1];
      var rest := FilterSelects(before, keep);
      at := if keep(last) then rest + [|before|] else rest;
      FilterLast(before, last, keep);
      assert messages == before + [last] && Filter(before, keep) + [] == Filter(before, keep);
      SelectsLast(before, rest, Filter(before, keep), last);
      KeptAtLast(before, rest, keep, last);
    }
  }

  lemma KeptAtLast(before: seq<Message>, at: seq<nat>, keep: Message -> bool, last: Message)
    requires KeptAt(before, at, keep) && |before| !in at
    ensures KeptAt(before + [last], if keep(last) then at + [|before|] else at, keep)
  {
    var messages := before + [last];
    assert forall k: nat | k < |before| :: messages[k] == before[k];
  }

  lemma NothingSelected(keep: Message -> bool)
    ensures Selects([], [], Filter([], keep)) && KeptAt([], [], keep)
  {}

  lemma FilterLast(before: seq<Message>, last: Message, keep: Message -> bool)
    ensures Filter(before + [last], keep) == Filter(before, keep) + if keep(last) then [last] else []
  {
    FilterAppend(before, [last], keep);
    assert [last][1..] == [];
  }

  lemma SelectsLast(before: seq<Message>, at: seq<nat>, kept: seq<Message>, last: Message)
    requires Selects(before, at, kept)
    ensures Selects(before + [last], at, kept) && Selects(before + [last], at + [|before|], kept + [last])
    ensures |before| !in at
  {}

  /** The rest of the transcript survives a turn: in the result, before the persisted turn, stand exactly the messages
      that are not a trace of it, in their old order. */
  lemma ReconcileKeepsRest(messages: seq<Message>, optimisticId: string, user: Message, assistant: Option<Message>)
    returns (at: seq<nat>, kept: seq<Message>)
    ensures Selects(messages, at, kept)
    ensures forall k: nat | k < |messages| :: k in at <==>
              var m := messages[k];
              m.id != optimisticId && m.id != user.id && m.parentId != Some(user.id)
              && (assistant.Some? ==> m.id != assistant.value.id)
    ensures Reconcile(messages, optimisticId, user, assistant)
            == kept + [user] + if assistant.Some? then [assistant.value] else []
  {
    kept := Filter(messages, OutsideTurn(optimisticId, user, assistant));
    at := FilterSelects(messages, OutsideTurn(optimisticId, user, assistant));
  }

  lemma {:induction false} FilterAll(messages: seq<Message>, keep: Message -> bool)
    requires forall m | m in messages :: keep(m)
    ensures Filter(messages, keep) == messages
  {
    if |messages| > 0 {
      assert messages[0] in messages;
      FilterAll(messages[1..], keep);
    }
  }

  /** No message of the transcript is a trace of the turn. */
  ghost predicate IsNewTurn(messages: seq<Message>, optimisticId: string, user: Message, assistant: Option<Message>) {
    forall m | m in messages ::
      m.id != optimisticId && m.id != user.id && m.parentId != Some(user.id)
      && (assistant.Some? ==> m.id != assistant.value.id)
  }

  lemma ReconcileAppends(messages: seq<Message>, optimisticId: string, user: Message, assistant: Option<Message>)
    requires IsNewTurn(messages, optimisticId, user, assistant)
    ensures Reconcile(messages, optimisticId, user, assistant)
            == messages + [user] + if assistant.Some? then [assistant.value] else []
  {
    FilterAll(messages, OutsideTurn(optimisticId, user, assistant));
  }

  /** The optimistic message is replaced. */
  lemma ReconcileReplaces(messages: seq<Message>, optimistic: Message, user: Message, assistant: Option<Message>)
    requires IsNewTurn(messages, optimistic.id, user, assistant)
    ensures Reconcile(messages + [optimistic], optimistic.id, user, assistant)
            == messages + [user] + if assistant.Some? then [assistant.value] else []
  {
    var keep := OutsideTurn(optimistic.id, user, assistant);
    FilterAppend(messages, [optimistic], keep);
    FilterAll(messages, keep);
    assert [optimistic][1..] == [];
    assert Filter([optimistic], keep) == [];
  }

  // ---------- A whole turn in the store ----------

  /** The first question with this id is at index `q`. */
  ghost predicate FirstQuestion(messages: seq<Message>, id: string, q: nat) {
    && q < |messages| && messages[q].id == id && messages[q].role == User
    && forall i | 0 <= i < q :: !(messages[i].id == id && messages[i].role == User)
  }

  /** Where the transcript of a send is cut: behind the last message, or before the first question to be replaced. */
  lemma SendCuts(s: State, id: string, replace: Option<string>, optimistic: Message, controller: Controller)
    requires id in s.cache
    ensures var before := s.cache[id].messages;
            var t := Step(s, SendBegin(id, replace, optimistic, controller));
            && id in t.cache
            && (replace == None || replace == Some("") ==>
                  t.cache[id] == Entry(before + [optimistic], true, "", "", 0, [], Some(controller)))
            && (replace != None && replace != Some("") ==>
                  && (forall q: nat | FirstQuestion(before, replace.value, q) ::
                        t.cache[id] == Entry(before[..q] + [optimistic], true, "", "", 0, [], Some(controller)))
                  && ((forall q: nat :: !FirstQuestion(before, replace.value, q)) ==> t == s))
  {
    hide IndexOfUser;
    var before := s.cache[id].messages;
    if replace.Some? && replace.value != "" {
      FirstQuestionIs(before, replace.value);
    }
  }

  lemma FirstQuestionIs(messages: seq<Message>, id: string)
    ensures forall q: nat :: FirstQuestion(messages, id, q) <==> IndexOfUser(messages, id) == Some(q)
  {
    hide IndexOfUser;
    assert forall q | 0 <= q < |messages| :: messages[q] in messages;
  }

  /** After the last callback of a turn, a local settlement or a reload, nothing of the stream is left in the entry. */
  lemma TurnEnds(s: State, id: string, event: TurnEvent)
    requires id in s.cache && (event.TurnDone? || event.TurnFailed? || event.Settled? || event.Reloaded?)
    ensures var before, t := s.cache[id].messages, Step(s, Turn(id, event));
            && id in t.cache && t.cache[id] == EmptyEntry(t.cache[id].messages)
            && (event.Settled? ==> t.cache[id].messages == before)
            && (event.Reloaded? ==> t.cache[id].messages == event.messages)
            && (event.TurnDone? ==>
                  t.cache[id].messages == Reconcile(before, event.optimisticId, event.user, event.assistant))
            && (event.TurnFailed? && event.persisted.Some? ==>
                  t.cache[id].messages == Reconcile(before, event.optimisticId, event.persisted.value, event.assistant))
            && (event.TurnFailed? && event.persisted.None? && event.authoritative ==> t.cache[id].messages == before)
            && (event.TurnFailed? && event.persisted.None? && !event.authoritative && event.previous.Some? ==>
                  t.cache[id].messages == event.previous.value)
            && (event.TurnFailed? && event.persisted.None? && !event.authoritative && event.previous.None? ==>
                  t.cache[id].messages == Filter(before, OtherThan(event.optimisticId)))
  {
    hide Reconcile, Filter, OtherThan;
  }

  /** So a completed turn keeps the rest of the entry's transcript, whatever else has happened to it meanwhile. */
  lemma TurnDoneKeepsRest(s: State, id: string, optimisticId: string, user: Message, assistant: Option<Message>)
    returns (at: seq<nat>, kept: seq<Message>)
    requires id in s.cache
    ensures var t := Step(s, Turn(id, TurnDone(optimisticId, user, assistant)));
            id in t.cache && t.cache[id] == EmptyEntry(kept + [user] + if assistant.Some? then [assistant.value] else [])
    ensures Selects(s.cache[id].messages, at, kept)
    ensures forall k: nat | k < |s.cache[id].messages| :: k in at <==>
              var m := s.cache[id].messages[k];
              m.id != optimisticId && m.id != user.id && m.parentId != Some(user.id)
              && (assistant.Some? ==> m.id != assistant.value.id)
  {
    hide Reconcile, Selects;
    at, kept := ReconcileKeepsRest(s.cache[id].messages, optimisticId, user, assistant);
    TurnEnds(s, id, TurnDone(optimisticId, user, assistant));
  }

  /** A turn that is sent and completed leaves the earlier transcript with the persisted turn behind it, whether or not
      it was announced in between. */
  lemma SentAndDone(s: State, id: string, optimistic: Message, controller: Controller, announced: bool, user: Message,
                    assistant: Option<Message>)
    requires id in s.cache && IsNewTurn(s.cache[id].messages, optimistic.id, user, assistant)
    ensures var t := Step(s, SendBegin(id, None, optimistic, controller));
            var u := if announced then Step(t, Turn(id, TurnStarted(optimistic.id, user))) else t;
            var v := Step(u, Turn(id, TurnDone(optimistic.id, user, assistant)));
            id in v.cache && v.cache[id]
              == EmptyEntry(s.cache[id].messages + [user] + if assistant.Some? then [assistant.value] else [])
  {
    hide Reconcile, IsNewTurn, OptimisticBase;
    var t := Step(s, SendBegin(id, None, optimistic, controller));
    SendCuts(s, id, None, optimistic, controller);
    StartedThenDone(t.cache[id].messages, optimistic.id, user, assistant);
    ReconcileReplaces(s.cache[id].messages, optimistic, user, assistant);
    var u := if announced then Step(t, Turn(id, TurnStarted(optimistic.id, user))) else t;
    TurnEnds(u, id, TurnDone(optimistic.id, user, assistant));
  }

  /** One that fails before anything was persisted leaves what was there before, replaced question or not. */
  lemma SentAndFailed(s: State, id: string, replace: Option<string>, optimistic: Message, controller: Controller)
    requires id in s.cache && OptimisticBase(s.cache[id].messages, replace).Some?
    requires forall m | m in s.cache[id].messages :: m.id != optimistic.id
    ensures var previous := if replace.Some? && replace.value != "" then Some(s.cache[id].messages) else None;
            var t := Step(s, SendBegin(id, replace, optimistic, controller));
            var u := Step(t, Turn(id, TurnFailed(optimistic.id, None, None, false, previous)));
            id in u.cache && u.cache[id] == EmptyEntry(s.cache[id].messages)
  {
    hide Step, OptimisticBase, Filter;
    var before := s.cache[id].messages;
    var previous := if replace.Some? && replace.value != "" then Some(before) else None;
    SendEnters(s, id, replace, optimistic, controller);
    SendCuts(s, id, replace, optimistic, controller);
    TurnEnds(Step(s, SendBegin(id, replace, optimistic, controller)), id,
             TurnFailed(optimistic.id, None, None, false, previous));
    FilterLast(before, optimistic, OtherThan(optimistic.id));
    FilterAll(before, OtherThan(optimistic.id));
  }

  lemma SendEnters(s: State, id: string, replace: Option<string>, optimistic: Message, controller: Controller)
    requires id in s.cache
    ensures id in Step(s, SendBegin(id, replace, optimistic, controller)).cache
  {
    hide OptimisticBase;
  }

  /** A deletion takes the message and its replies out of the entry and leaves the others in their order. */
  lemma DeletionKeepsRest(s: State, id: string, message: string) returns (at: seq<nat>)
    requires id in s.cache
    ensures var t := Step(s, Turn(id, MessageDeleted(message)));
            id in t.cache && Selects(s.cache[id].messages, at, t.cache[id].messages)
            && t.cache[id] == s.cache[id].(messages := t.cache[id].messages)
    ensures forall k: nat | k < |s.cache[id].messages| :: k in at <==>
              s.cache[id].messages[k].id != message && s.cache[id].messages[k].parentId != Some(message)
  {
    hide Filter, Selects;
    at := FilterSelects(s.cache[id].messages, (m: Message) => m.id != message && m.parentId != Some(message));
  }

  // ---------- The store itself ----------

  function Mirrored(view: Entry, updated: Entry, p: Patch): Entry {
    Entry(if p.messages.Some? then updated.messages else view.messages,
          if p.streaming.Some? then updated.streaming else view.streaming,
          if p.content.Some? then updated.content else view.content,
          if p.reasoning.Some? then updated.reasoning else view.reasoning,
          if p.durationMs.Some? then updated.durationMs else view.durationMs,
          if p.toolCalls.Some? then updated.toolCalls else view.toolCalls,
          if p.controller.Some? then updated.controller else view.controller)
  }

  lemma MirroredIsApplied(view: Entry, e: Entry, p: Patch)
    ensures Mirrored(view, Apply(e, p), p) == Apply(view, p)
  {}

  /** The mutable store: top-level view fields, the cache beside them, and the module-level load bookkeeping. */
  class Store {
    var activeId: Option<string>
    var messages: seq<Message>
    var streaming: bool
    var streamingContent: string
    var streamingReasoning: string
    var streamingDurationMs: int
    var streamingToolCalls: seq<ToolCall>
    var abortController: Option<Controller>
    var convCache: map<string, Entry>
    var prefetchedConversationIds: set<string>
    var transientPrefetchClaims: set<string>
    var conversationLoads: map<string, seq<Waiter>>

    constructor ()
      ensures Snapshot() == INITIAL
    {
      activeId, messages, streaming, streamingContent, streamingReasoning := None, [], false, "", "";
      streamingDurationMs, streamingToolCalls, abortController := 0, [], None;
      convCache, prefetchedConversationIds, transientPrefetchClaims, conversationLoads := map[], {}, {}, map[];
    }

    function CurrentViewEntry(): Entry
      reads this
    {
      Entry(messages, streaming, streamingContent, streamingReasoning, streamingDurationMs, streamingToolCalls,
            abortController)
    }

    function Snapshot(): State
      reads this
    {
      State(activeId, CurrentViewEntry(), convCache, prefetchedConversationIds, transientPrefetchClaims,
            conversationLoads)
    }

    method ShowEntry(entry: Entry)
      modifies this`messages, this`streaming, this`streamingContent, this`streamingReasoning,
               this`streamingDurationMs, this`streamingToolCalls, this`abortController
      ensures CurrentViewEntry() == entry
    {
      messages, streaming, streamingContent := entry.messages, entry.streaming, entry.content;
      streamingReasoning, streamingDurationMs := entry.reasoning, entry.durationMs;
      streamingToolCalls, abortController := entry.toolCalls, entry.controller;
    }

    /** The first-open path: the streaming fields are reset, the messages and the controller are not. */
    method ClearStreamingView()
      modifies this`streaming, this`streamingContent, this`streamingReasoning, this`streamingDurationMs,
               this`streamingToolCalls
      ensures CurrentViewEntry() == EmptyEntry(messages).(controller := abortController)
    {
      streaming, streamingContent, streamingReasoning := false, "", "";
      streamingDurationMs, streamingToolCalls := 0, [];
    }

    /** `set(cacheUpdate(...))`: the entry takes the patch, and the view takes the same keys when it shows that entry. */
    method UpdateCache(id: string, patch: Patch)
      modifies this
      ensures Snapshot() == CacheUpdate(old(Snapshot()), id, patch)
    {
      hide Mirrored, Apply;
      if id !in convCache {
        return;
      }
      MirroredIsApplied(CurrentViewEntry(), convCache[id], patch);
      var updated := Apply(convCache[id], patch);
      convCache := convCache[id := updated];
      if activeId != Some(id) {
        return;
      }
      MirrorKeys(updated, patch);
    }

    /** Copies onto the view the fields of `updated` that the patch names. */
    method MirrorKeys(updated: Entry, patch: Patch)
      modifies this`messages, this`streaming, this`streamingContent, this`streamingReasoning,
               this`streamingDurationMs, this`streamingToolCalls, this`abortController
      ensures CurrentViewEntry() == Mirrored(old(CurrentViewEntry()), updated, patch)
    {
      messages := if patch.messages.Some? then updated.messages else messages;
      streaming := if patch.streaming.Some? then updated.streaming else streaming;
      streamingContent := if patch.content.Some? then updated.content else streamingContent;
      streamingReasoning := if patch.reasoning.Some? then updated.reasoning else streamingReasoning;
      streamingDurationMs := if patch.durationMs.Some? then updated.durationMs else streamingDurationMs;
      streamingToolCalls := if patch.toolCalls.Some? then updated.toolCalls else streamingToolCalls;
      abortController := if patch.controller.Some? then updated.controller else abortController;
    }

    method SaveView()
      modifies this`convCache
      ensures convCache == SaveActiveView(old(Snapshot()))
    {
      if activeId.Some? && activeId.value in convCache {
        convCache := convCache[activeId.value := CurrentViewEntry()];
      }
    }

    method PrefetchConversation(id: string)
      modifies this
      ensures Snapshot() == Step(old(Snapshot()), PrefetchBegin(id))
    {
      if id == "" || activeId == Some(id) || id in convCache {
        return;
      }
      transientPrefetchClaims := transientPrefetchClaims + {id};
      conversationLoads := AddWaiter(conversationLoads, id, Prefetching);
    }

    method SelectConversation(id: string)
      modifies this
      ensures Snapshot() == Step(old(Snapshot()), SelectBegin(id))
    {
      hide AddWaiter, TurnPatch, OptimisticBase, DeliverAll, CacheUpdate, SaveActiveView, Apply;
      SaveView();
      transientPrefetchClaims := transientPrefetchClaims - {id};
      prefetchedConversationIds := prefetchedConversationIds - {id};
      activeId := Some(id);
      if id in convCache {
        ShowEntry(convCache[id]);
        return;
      }
      ClearStreamingView();
      conversationLoads := AddWaiter(conversationLoads, id, Selecting);
    }

    /** Settles the shared load of `id`: every waiter continues, in the order in which it began to wait. */
    method FinishLoad(id: string, detail: seq<Message>)
      modifies this
      ensures Snapshot() == Step(old(Snapshot()), LoadCompleted(id, detail))
    {
      if id !in conversationLoads {
        return;
      }
      var waiters := conversationLoads[id];
      ghost var before := Snapshot();
      for i := 0 to |waiters|
        invariant Snapshot() == DeliverAll(before, id, detail, waiters[..i])
        invariant conversationLoads == before.loads
      {
        assert waiters[..i + 1][..i] == waiters[..i];
        ContinueWaiter(id, detail, waiters[i]);
      }
      assert waiters[..|waiters|] == waiters;
      conversationLoads := conversationLoads - {id};
    }

    method ContinueWaiter(id: string, detail: seq<Message>, waiter: Waiter)
      modifies this`convCache, this`prefetchedConversationIds, this`messages
      ensures Snapshot() == Deliver(old(Snapshot()), id, detail, waiter)
    {
      match waiter
      case Prefetching =>
        if id in transientPrefetchClaims && activeId != Some(id) && id !in convCache {
          convCache := convCache[id := EmptyEntry(detail)];
          prefetchedConversationIds := prefetchedConversationIds + {id};
        }
      case Selecting =>
        convCache := convCache[id := EmptyEntry(detail)];
        if activeId == Some(id) {
          messages := detail;
        }
    }

    method FailLoad(id: string)
      modifies this
      ensures Snapshot() == Step(old(Snapshot()), LoadFailed(id))
    {
      if id !in conversationLoads {
        return;
      }
      if Prefetching in conversationLoads[id] {
        transientPrefetchClaims := transientPrefetchClaims - {id};
      }
      conversationLoads := conversationLoads - {id};
    }

    method ReleaseConversationPrefetch(id: string)
      modifies this
      ensures Snapshot() == Step(old(Snapshot()), Release(id))
    {
      transientPrefetchClaims := transientPrefetchClaims - {id};
      if id !in prefetchedConversationIds || activeId == Some(id) {
        return;
      }
      convCache := convCache - {id};
      prefetchedConversationIds := prefetchedConversationIds - {id};
    }

    method OpenNewConversation(id: string)
      modifies this
      ensures Snapshot() == Step(old(Snapshot()), NewConversation(id))
    {
      SaveView();
      convCache := convCache[id := EmptyEntry([])];
      activeId := Some(id);
      ShowEntry(EmptyEntry([]));
    }

    /** `deleteConversation` up to its await. */
    method BeginDelete(id: string)
      modifies this
      ensures Snapshot() == Step(old(Snapshot()), DeleteBegin(id))
    {
      transientPrefetchClaims := transientPrefetchClaims - {id};
    }

    /** The rest of it, once the conversation is gone from the Engine. */
    method FinishDelete(id: string)
      modifies this
      ensures Snapshot() == Step(old(Snapshot()), DeleteDone(id))
    {
      convCache := convCache - {id};
      prefetchedConversationIds := prefetchedConversationIds - {id};
      if activeId == Some(id) {
        activeId := None;
        ShowEntry(EmptyEntry([]));
      }
    }

    /** Drops all local state and returns the controller that it aborts. */
    method ReloadAfterDataChange() returns (aborted: Option<Controller>)
      modifies this
      ensures Snapshot() == Step(old(Snapshot()), ReloadAll) && aborted == old(abortController)
    {
      transientPrefetchClaims := {};
      aborted := abortController;
      activeId := None;
      ShowEntry(EmptyEntry([]));
      convCache, prefetchedConversationIds := map[], {};
    }

    method SendMessage(id: string, replace: Option<string>, user: Message, controller: Controller)
      modifies this
      ensures Snapshot() == Step(old(Snapshot()), SendBegin(id, replace, user, controller))
    {
      if id !in convCache {
        convCache := convCache[id := EmptyEntry(messages)];
      }
      var base := OptimisticBase(convCache[id].messages, replace);
      if base.None? {
        return;
      }
      UpdateCache(id,
        Patch(Some(base.value + [user]), Some(true), Some(""), Some(""), Some(0), Some([]), Some(Some(controller))));
    }

    /** Any callback of a running turn. */
    method OnTurnEvent(id: string, event: TurnEvent)
      modifies this
      ensures Snapshot() == Step(old(Snapshot()), Turn(id, event))
    {
      if id in convCache {
        UpdateCache(id, TurnPatch(convCache[id], event));
      }
    }

    method PushSystemMessage(message: Message)
      modifies this
      ensures Snapshot() == Step(old(Snapshot()), PushSystem(message))
    {
      if activeId.None? {
        messages := messages + [message];
      } else if activeId.value in convCache {
        UpdateCache(activeId.value, Patch(messages := Some(convCache[activeId.value].messages + [message])));
      }
    }

    method StopStreaming() returns (aborted: Option<Controller>)
      ensures aborted == StopTarget(Snapshot())
    {
      aborted := None;
      if activeId.Some? && activeId.value in convCache {
        aborted := convCache[activeId.value].controller;
      }
    }

    /** One step of any kind, as the surroundings trigger it. */
    method Perform(ev: Event)
      modifies this
      ensures Snapshot() == Step(old(Snapshot()), ev)
    {
      match ev
      case PrefetchBegin(id) => PrefetchConversation(id);
      case SelectBegin(id) => SelectConversation(id);
      case LoadCompleted(id, detail) => FinishLoad(id, detail);
      case LoadFailed(id) => FailLoad(id);
      case Release(id) => ReleaseConversationPrefetch(id);
      case NewConversation(id) => OpenNewConversation(id);
      case DeleteBegin(id) => BeginDelete(id);
      case DeleteDone(id) => FinishDelete(id);
      case ReloadAll => var _ := ReloadAfterDataChange();
      case SendBegin(id, replace, user, controller) => SendMessage(id, replace, user, controller);
      case Turn(id, event) => OnTurnEvent(id, event);
      case PushSystem(message) => PushSystemMessage(message);
    }
  }
}
