/**
 The per-user session context and its lifecycle: construction, the truthy-guarded
 `update`, clearing, saving to and loading from the user's storage slot,
 termination, the inactivity autosave, the summary, and the per-line command
 dispatch of the interactive loop.

 The JSON file is replaced by an abstract store from file paths to file states:
 a file either holds a context written by `Save` or is corrupt (does not parse).
 A read that fails with an I/O error is a parameter of `Load`. Wall-clock times,
 the timer thread, signal handlers, `sys.exit` and all printing and logging are
 not part of this model; the timer survives only as the `timerArmed` flag.
 */
module ContextManager {
  import opened Optional
  import opened Text

  /** One `{"input": ..., "response": ...}` history entry. */
  datatype Exchange = Exchange(input: string, response: string)

  /** The context dictionary. Every key may hold `None` (`clear_context` even
      sets `user_id` to `None`); the history is a list. */
  datatype Context = Context(
    userId: Option<string>,
    lastIntent: Option<string>,
    lastEntity: Option<string>,
    topic: Option<string>,
    history: seq<Exchange>)

  /** What the context file of a user holds: a context written by `Save`, or
      content that does not parse as JSON. */
  datatype FileState = Saved(ctx: Context) | Corrupt

  /** The file system, reduced to the context files: path to content. */
  type Store = map<string, FileState>

  /** A `ContextManager` object: the user id it was created for, its context,
      the `is_terminated` flag, and whether an inactivity timer is pending. */
  datatype Manager = Manager(userId: string, context: Context, terminated: bool, timerArmed: bool)

  /** The keyword arguments of `update`, each `None` when not passed. */
  datatype UpdateRequest = UpdateRequest(
    intent: Option<string>,
    entity: Option<string>,
    topic: Option<string>,
    inputText: Option<string>,
    response: Option<string>)

  /** The fixed reply the interactive loop records for an ordinary line. */
  const LoopReply: string := "Bot response based on input."

  /** `f"session_context_{user_id}.json"`. */
  function ContextPath(userId: string): string {
    "session_context_" + userId + ".json"
  }

  /** Distinct users have distinct context files. */
  lemma ContextPathInjective(u: string, v: string)
    ensures ContextPath(u) == ContextPath(v) ==> u == v
  {
    if ContextPath(u) == ContextPath(v) {
      assert |u| == |v|;
      assert u == ContextPath(u)[16..16 + |u|];
      assert v == ContextPath(v)[16..16 + |v|];
    }
  }

  /** The context of a session that starts from nothing. */
  function FreshContext(userId: string): Context {
    Context(Some(userId), None, None, None, [])
  }

  /** `ContextManager.__init__`. */
  function New(userId: string): (m: Manager)
    ensures m.userId == userId && m.context.userId == Some(userId)
    ensures m.context.lastIntent == None && m.context.lastEntity == None && m.context.topic == None
    ensures m.context.history == []
    ensures !m.terminated && !m.timerArmed
  {
    Manager(userId, FreshContext(userId), false, false)
  }

  /** Python truthiness of an optional string: present and non-empty. */
  predicate Truthy(o: Option<string>) {
    o.Some? && o.value != ""
  }

  /** Whether an update records an exchange: input and response both truthy. */
  predicate Records(req: UpdateRequest) {
    Truthy(req.inputText) && Truthy(req.response)
  }

  /** `ContextManager.update`, followed by re-arming the inactivity timer. */
  function Update(m: Manager, req: UpdateRequest): (r: Manager)
    ensures r.userId == m.userId && r.terminated == m.terminated && r.timerArmed
    ensures r.context.userId == m.context.userId
    ensures r.context.lastIntent == if Truthy(req.intent) then req.intent else m.context.lastIntent
    ensures r.context.lastEntity == if Truthy(req.entity) then req.entity else m.context.lastEntity
    ensures r.context.topic == if Truthy(req.topic) then req.topic else m.context.topic
    ensures |r.context.history| == |m.context.history| + (if Records(req) then 1 else 0)
    ensures r.context.history[..|m.context.history|] == m.context.history
    ensures Records(req) ==>
              r.context.history[|m.context.history|] == Exchange(req.inputText.value, req.response.value)
  {
    var c := m.context;
    m.(context := c.(
         lastIntent := if Truthy(req.intent) then req.intent else c.lastIntent,
         lastEntity := if Truthy(req.entity) then req.entity else c.lastEntity,
         topic := if Truthy(req.topic) then req.topic else c.topic,
         history := c.history + if Records(req) then [Exchange(req.inputText.value, req.response.value)] else []),
       timerArmed := true)
  }

  /** A run of updates, applied in order. */
  function ApplyUpdates(m: Manager, reqs: seq<UpdateRequest>): Manager
    decreases |reqs|
  {
    if reqs == [] then m else ApplyUpdates(Update(m, reqs[0]), reqs[1..])
  }

  /** The exchanges a run of updates records: one per recording request, in call order. */
  function Recorded(reqs: seq<UpdateRequest>): seq<Exchange> {
    if reqs == [] then []
    else if Records(reqs[0]) then [Exchange(reqs[0].inputText.value, reqs[0].response.value)] + Recorded(reqs[1..])
    else Recorded(reqs[1..])
  }

  /** The history is append-only: a run of updates appends exactly the
      exchanges it records, in call order, and never touches the user id. */
  lemma {:induction false} HistoryAfterUpdates(m: Manager, reqs: seq<UpdateRequest>)
    ensures ApplyUpdates(m, reqs).context.history == m.context.history + Recorded(reqs)
    ensures ApplyUpdates(m, reqs).context.userId == m.context.userId
    ensures ApplyUpdates(m, reqs).userId == m.userId
    decreases |reqs|
  {
    if reqs != [] {
      var m1 := Update(m, reqs[0]);
      HistoryAfterUpdates(m1, reqs[1..]);
      assert m1.context.history == m.context.history + Recorded([reqs[0]]);
    }
  }

  /** Updates that carry no truthy intent leave the last intent alone. */
  lemma {:induction false} IntentKeptWithoutTruthyIntent(m: Manager, reqs: seq<UpdateRequest>)
    requires forall j :: 0 <= j < |reqs| ==> !Truthy(reqs[j].intent)
    ensures ApplyUpdates(m, reqs).context.lastIntent == m.context.lastIntent
    decreases |reqs|
  {
    if reqs != [] {
      IntentKeptWithoutTruthyIntent(Update(m, reqs[0]), reqs[1..]);
    }
  }

  /** After a run of updates the last intent is the one of the latest request
      whose intent was truthy. */
  lemma {:induction false} LastIntentWins(m: Manager, reqs: seq<UpdateRequest>, k: nat)
    requires k < |reqs| && Truthy(reqs[k].intent)
    requires forall j :: k < j < |reqs| ==> !Truthy(reqs[j].intent)
    ensures ApplyUpdates(m, reqs).context.lastIntent == reqs[k].intent
    decreases |reqs|
  {
    var m1 := Update(m, reqs[0]);
    if k == 0 {
      IntentKeptWithoutTruthyIntent(m1, reqs[1..]);
    } else {
      LastIntentWins(m1, reqs[1..], k - 1);
    }
  }

  /** `ContextManager.clear_context`: every key of the context, `user_id`
      included, becomes `None`, and the history becomes empty. */
  function Clear(m: Manager): (r: Manager)
    ensures r.context.userId == None && r.context.lastIntent == None
    ensures r.context.lastEntity == None && r.context.topic == None
    ensures r.context.history == []
    ensures r.userId == m.userId && r.terminated == m.terminated && r.timerArmed == m.timerArmed
  {
    m.(context := Context(None, None, None, None, []))
  }

  /** Clearing twice is clearing once. */
  lemma ClearIdempotent(m: Manager)
    ensures Clear(Clear(m)) == Clear(m)
  {
  }

  /** `ContextManager.save_context`: writes the context to the user's file
      unless the session is terminated; no other file changes. */
  function Save(m: Manager, store: Store): (s: Store)
    ensures m.terminated ==> s == store
    ensures !m.terminated ==> ContextPath(m.userId) in s && s[ContextPath(m.userId)] == Saved(m.context)
    ensures forall p :: p != ContextPath(m.userId) ==> (p in s <==> p in store)
    ensures forall p :: p in s && p != ContextPath(m.userId) ==> s[p] == store[p]
  {
    if m.terminated then store else store[ContextPath(m.userId) := Saved(m.context)]
  }

  /** `ContextManager.load_context`. A missing file keeps the context; a file
      that parses replaces it wholesale; a corrupt file or an I/O error resets
      it to the fresh context of the manager's own user id. */
  function Load(m: Manager, store: Store, ioError: bool): (r: Manager)
    ensures r.userId == m.userId && r.terminated == m.terminated && r.timerArmed == m.timerArmed
    ensures ContextPath(m.userId) !in store ==> r.context == m.context
    ensures ContextPath(m.userId) in store && !ioError && store[ContextPath(m.userId)].Saved? ==>
              r.context == store[ContextPath(m.userId)].ctx
    ensures ContextPath(m.userId) in store && (ioError || store[ContextPath(m.userId)].Corrupt?) ==>
              r.context == New(m.userId).context
  {
    var path := ContextPath(m.userId);
    if path !in store then m
    else if ioError then m.(context := FreshContext(m.userId))
    else match store[path]
      case Saved(ctx) => m.(context := ctx)
      case Corrupt => m.(context := FreshContext(m.userId))
  }

  /** A manager of the same user loads back exactly what a live manager saved. */
  lemma SaveThenLoad(m: Manager, other: Manager, store: Store)
    requires !m.terminated && other.userId == m.userId
    ensures Load(other, Save(m, store), false).context == m.context
  {
  }

  /** Saving for one user never changes what another user loads. */
  lemma SlotsIsolated(m: Manager, other: Manager, store: Store, ioError: bool)
    requires other.userId != m.userId
    ensures Load(other, Save(m, store), ioError) == Load(other, store, ioError)
  {
    ContextPathInjective(m.userId, other.userId);
  }

  /** Loading a corrupt file never fails: it yields the fresh context. */
  lemma CorruptFileResets(m: Manager, store: Store, ioError: bool)
    ensures Load(m, store[ContextPath(m.userId) := Corrupt], ioError) == m.(context := FreshContext(m.userId))
  {
  }

  /** `ContextManager.manual_terminate`: save first, then mark the session
      terminated (the process exit is not modelled). */
  function Terminate(m: Manager, store: Store): (r: (Manager, Store))
    ensures r.0.terminated
    ensures r.0.userId == m.userId && r.0.context == m.context && r.0.timerArmed == m.timerArmed
    ensures !m.terminated ==> ContextPath(m.userId) in r.1 && r.1[ContextPath(m.userId)] == Saved(m.context)
    ensures m.terminated ==> r.1 == store
    ensures forall p :: p != ContextPath(m.userId) ==> (p in r.1 <==> p in store)
    ensures forall p :: p in r.1 && p != ContextPath(m.userId) ==> r.1[p] == store[p]
  {
    var s := Save(m, store);
    (m.(terminated := true), s)
  }

  /** `ContextManager.on_timeout`: the pending timer fires and saves. */
  function OnTimeout(m: Manager, store: Store): (r: (Manager, Store))
    requires m.timerArmed
    ensures !r.0.timerArmed
    ensures r.0.userId == m.userId && r.0.context == m.context && r.0.terminated == m.terminated
    ensures !m.terminated ==> ContextPath(m.userId) in r.1 && r.1[ContextPath(m.userId)] == Saved(m.context)
    ensures m.terminated ==> r.1 == store
    ensures forall p :: p != ContextPath(m.userId) ==> (p in r.1 <==> p in store)
    ensures forall p :: p in r.1 && p != ContextPath(m.userId) ==> r.1[p] == store[p]
  {
    (m.(timerArmed := false), Save(m, store))
  }

  /** Termination persists the final context, and afterwards no save, autosave
      or repeated termination changes any file. */
  lemma TerminateIsFinal(m: Manager, store: Store, later: Store)
    requires !m.terminated
    ensures Load(New(m.userId), Terminate(m, store).1, false).context == m.context
    ensures Save(Terminate(m, store).0, later) == later
    ensures Terminate(m, store).0.timerArmed ==> OnTimeout(Terminate(m, store).0, later).1 == later
    ensures Terminate(Terminate(m, store).0, later).1 == later
  {
  }

  /** The three context fields `get_summary` reports. */
  datatype Summary = Summary(currentTopic: Option<string>, lastIntent: Option<string>, lastEntity: Option<string>)

  /** `ContextManager.get_summary`. */
  function GetSummary(m: Manager): (s: Summary)
    ensures s.currentTopic == m.context.topic
    ensures s.lastIntent == m.context.lastIntent
    ensures s.lastEntity == m.context.lastEntity
  {
    Summary(m.context.topic, m.context.lastIntent, m.context.lastEntity)
  }

  /** The summary of a cleared context is empty, and an update that only
      records an exchange leaves the summary unchanged. */
  lemma SummaryFacts(m: Manager, input: string, response: string)
    ensures GetSummary(Clear(m)) == Summary(None, None, None)
    ensures GetSummary(Update(m, UpdateRequest(None, None, None, Some(input), Some(response)))) == GetSummary(m)
  {
  }

  /** A line of the interactive loop, stripped and lower-cased. */
  function Command(line: string): string {
    Lower(Strip(line))
  }

  /** An ordinary line of the interactive loop: recorded with the fixed reply. */
  function RecordLine(m: Manager, line: string): (r: Manager)
    ensures r.userId == m.userId && r.terminated == m.terminated && r.timerArmed
    ensures r.context.userId == m.context.userId && r.context.lastIntent == m.context.lastIntent
    ensures r.context.lastEntity == m.context.lastEntity && r.context.topic == m.context.topic
    ensures r.context.history == m.context.history + (if line != "" then [Exchange(line, LoopReply)] else [])
  {
    var r := Update(m, UpdateRequest(None, None, None, Some(line), Some(LoopReply)));
    assert r.context.history == r.context.history[..|m.context.history|] + r.context.history[|m.context.history|..];
    r
  }

  /** The body of the loop in `ContextManager.start`: "exit" terminates,
      "save" saves, and any other line is recorded with the fixed reply. */
  function Step(m: Manager, store: Store, line: string): (r: (Manager, Store))
    ensures Command(line) == "exit" ==> r == Terminate(m, store) && r.0.terminated
    ensures Command(line) == "save" ==> r.0 == m && r.1 == Save(m, store)
    ensures Command(line) != "exit" && Command(line) != "save" ==>
              && r.1 == store
              && r.0.userId == m.userId && r.0.terminated == m.terminated && r.0.timerArmed
              && r.0.context.userId == m.context.userId && r.0.context.lastIntent == m.context.lastIntent
              && r.0.context.lastEntity == m.context.lastEntity && r.0.context.topic == m.context.topic
              && r.0.context.history ==
                   m.context.history + (if Command(line) != "" then [Exchange(Command(line), LoopReply)] else [])
  {
    var cmd := Command(line);
    if cmd == "exit" then Terminate(m, store)
    else if cmd == "save" then (m, Save(m, store))
    else (RecordLine(m, cmd), store)
  }

  lemma TrimLeftExample()
    ensures TrimLeft(" EXIT\t") == "EXIT\t"
  {
    var s := " EXIT\t";
    assert s[0] == ' ' && s[1..] == "EXIT\t";
    assert "EXIT\t"[0] == 'E';
    assert TrimLeft("EXIT\t") == "EXIT\t";
  }

  lemma TrimRightExample()
    ensures TrimRight("EXIT\t") == "EXIT"
  {
    assert "EXIT\t"[..4] == "EXIT";
  }

  lemma LowerExample()
    ensures Lower("EXIT") == "exit"
  {
    var l := Lower("EXIT");
    assert l[0] == 'e' && l[1] == 'x' && l[2] == 'i' && l[3] == 't';
  }

  /** Surrounding whitespace and letter case do not matter to the commands:
      the line " EXIT" followed by a tab terminates the session. */
  lemma ExitLineTerminates(m: Manager, store: Store)
    ensures Step(m, store, " EXIT\t").0.terminated
  {
    TrimLeftExample();
    TrimRightExample();
    LowerExample();
  }

  /** In a live session exactly the lines that normalize to "exit" end it, and
      only "save" and "exit" lines write to the store. */
  lemma StepTerminatesIffExit(m: Manager, store: Store, line: string)
    requires !m.terminated
    ensures Step(m, store, line).0.terminated <==> Command(line) == "exit"
    ensures Step(m, store, line).1 != store ==> Command(line) == "exit" || Command(line) == "save"
  {
  }
}
