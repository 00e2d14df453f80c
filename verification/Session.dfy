/** The event and session machine of cwmp.c and event.c with its persisted backup, as steps on a
    state value. SessionState.dfy has the source's own in-place form of the same steps. */
module Session {
  import opened Options
  import opened ParamList

  // ---- EVENT_CONST ----

  const CONNECTION_REQUEST := 6
  const MAX_INT_ID := 2147483646

  // EVENT_TYPE_SINGLE: at most one container of the code in a session.
  predicate Single(code: nat) { code < 12 }

  predicate RetryAfterReboot(code: nat) {
    code != 1 && code != 4 && code != 6 && code != 8
  }

  // RETRY == 0
  predicate NoRetry(code: nat) { code == CONNECTION_REQUEST }

  // ---- sessions ----

  datatype Event = Event(code: nat, key: string, params: seq<Param>, id: nat)

  datatype Kind = Inform | GetRpcMethods | TransferComplete | DuStateChangeComplete

  datatype Rpc = Rpc(kind: Kind, data: int)

  datatype Session = Session(events: seq<Event>, acs: seq<Rpc>, cpe: seq<int>)

  const INFORM_RPC := Rpc(Inform, 0)
  const NEW_SESSION := Session([], [INFORM_RPC], [])

  // One queue_event or send_event record of the backup.
  datatype Saved = Saved(queued: bool, code: nat, id: nat, key: string, params: seq<string>)

  // 'head' is head_event_container, as the position in the queue of the session it points into.
  // 'created' and 'saved' are history: how many containers were made, and the ids of those given
  // to cwmp_save_event_container in this process or, as the backup shows, in one before it.
  datatype Machine = Machine(queue: seq<Session>, head: Option<nat>, send: Option<Session>, lastId: nat,
                             tree: seq<Saved>, retries: nat, crEvent: bool, created: nat, saved: set<nat>)

  const START := Machine([], None, None, 0, [], 0, false, 0, {})

  // ---- cwmp_add_event_container ----

  // Where the scan of the sorted list stops: at a SINGLE event of the code, before the first
  // greater code, or at the end.
  function Stop(events: seq<Event>, code: nat, i: nat): (j: nat)
    requires i <= |events|
    ensures i <= j <= |events|
    ensures forall k :: i <= k < j ==> events[k].code <= code && (events[k].code == code ==> !Single(code))
    ensures j < |events| ==> events[j].code > code || (events[j].code == code && Single(code))
    decreases |events| - i
  {
    if i == |events| || (events[i].code == code && Single(code)) || events[i].code > code then i
    else Stop(events, code, i + 1)
  }

  predicate Existing(events: seq<Event>, code: nat) {
    var i := Stop(events, code, 0);
    i < |events| && events[i].code == code
  }

  function AddTo(events: seq<Event>, e: Event): seq<Event> {
    var i := Stop(events, e.code, 0);
    if Existing(events, e.code) then events else events[..i] + [e] + events[i..]
  }

  function NextId(id: nat): nat {
    (if id >= MAX_INT_ID then 0 else id) + 1
  }

  ghost predicate PointsIntoQueue(m: Machine) {
    m.head.Some? && m.head.value < |m.queue|
  }

  function Current(m: Machine): Session
    requires PointsIntoQueue(m)
  {
    m.queue[m.head.value]
  }

  function SetCurrent(m: Machine, s: Session): Machine
    requires PointsIntoQueue(m)
  {
    m.(queue := m.queue[m.head.value := s])
  }

  // A head that is not null points into the queue.
  ghost predicate HeadOk(m: Machine) {
    m.head.Some? ==> m.head.value < |m.queue|
  }

  function WithQueue(m: Machine): (m': Machine)
    requires HeadOk(m)
    ensures PointsIntoQueue(m')
  {
    if m.head.Some? then m else m.(queue := m.queue + [NEW_SESSION], head := Some(|m.queue|))
  }

  function AddEvent(m: Machine, code: nat, key: string): (m': Machine)
    requires HeadOk(m)
    ensures PointsIntoQueue(m')
  {
    var q := WithQueue(m);
    var s := Current(q);
    if Existing(s.events, code) then q else
      var id := NextId(q.lastId);
      SetCurrent(q, s.(events := AddTo(s.events, Event(code, key, [], id)))).(lastId := id, created := q.created + 1)
  }

  // ---- cwmp_save_event_container and the backup records ----

  function Names(params: seq<Param>): (names: seq<string>)
    ensures |names| == |params|
    ensures forall i :: 0 <= i < |params| ==> names[i] == params[i].name
  {
    seq(|params|, i requires 0 <= i < |params| => params[i].name)
  }

  // bkp_session_node_found for an event: from the first record of the status on, the first of
  // either status that has the id.
  function FirstOf(tree: seq<Saved>, queued: bool, i: nat): (j: nat)
    requires i <= |tree|
    ensures i <= j <= |tree|
    ensures forall k :: i <= k < j ==> tree[k].queued != queued
    ensures j < |tree| ==> tree[j].queued == queued
    decreases |tree| - i
  {
    if i == |tree| || tree[i].queued == queued then i else FirstOf(tree, queued, i + 1)
  }

  function WithId(tree: seq<Saved>, id: nat, i: nat): (j: Option<nat>)
    requires i <= |tree|
    ensures j.Some? ==>
      i <= j.value < |tree| && tree[j.value].id == id && forall k :: i <= k < j.value ==> tree[k].id != id
    ensures j.None? ==> forall k :: i <= k < |tree| ==> tree[k].id != id
    decreases |tree| - i
  {
    if i == |tree| then None else if tree[i].id == id then Some(i) else WithId(tree, id, i + 1)
  }

  function FindSaved(tree: seq<Saved>, queued: bool, id: nat): (j: Option<nat>)
    ensures j.Some? ==> j.value < |tree| && tree[j.value].id == id
  {
    WithId(tree, id, FirstOf(tree, queued, 0))
  }

  function SaveRecord(tree: seq<Saved>, e: Event): seq<Saved> {
    if !RetryAfterReboot(e.code) then tree else
      match FindSaved(tree, true, e.id)
      case None => tree + [Saved(true, e.code, e.id, e.key, Names(e.params))]
      case Some(j) => tree[j := tree[j].(params := tree[j].params + Names(e.params))]
  }

  function DeleteRecord(tree: seq<Saved>, id: nat, queued: bool): seq<Saved> {
    match FindSaved(tree, queued, id)
    case None => tree
    case Some(j) => tree[..j] + tree[j + 1..]
  }

  // event_remove_all_event_container, as far as the backup is concerned.
  function DeleteRecords(tree: seq<Saved>, events: seq<Event>, queued: bool): seq<Saved>
    decreases |events|
  {
    if events == [] then tree
    else DeleteRecords(DeleteRecord(tree, events[0].id, queued), events[1..], queued)
  }

  // bkp_session_move_inform_to_inform_send and _queue.
  function MarkAll(tree: seq<Saved>, queued: bool): (t: seq<Saved>)
    ensures |t| == |tree|
    ensures forall i :: 0 <= i < |t| ==> t[i] == tree[i].(queued := queued)
  {
    seq(|tree|, i requires 0 <= i < |tree| => tree[i].(queued := queued))
  }

  // add_dm_parameter_tolist for each name, without data.
  function AddNames(params: seq<Param>, names: seq<string>): seq<Param>
    decreases |names|
  {
    if names == [] then params else AddNames(Insert(params, Param(names[0], "", "")), names[1..])
  }

  // The parameters of a container with more of them: spliced in front as they are, or their names
  // inserted in order.
  function Extended(own: seq<Param>, more: seq<Param>, spliced: bool): seq<Param> {
    if spliced then more + own else AddNames(own, Names(more))
  }

  // Add an event, give it parameters, and save it.
  function AddSaved(m: Machine, code: nat, key: string, params: seq<Param>, spliced: bool): (m': Machine)
    requires HeadOk(m)
    ensures PointsIntoQueue(m')
  {
    var i := Stop(Current(WithQueue(m)).events, code, 0);
    var added := AddEvent(m, code, key);
    var s := Current(added);
    var e := s.events[i].(params := Extended(s.events[i].params, params, spliced));
    SetCurrent(added, s.(events := s.events[i := e])).(tree := SaveRecord(added.tree, e), saved := added.saved + {e.id})
  }

  // ---- moving a session ----

  function MoveToSend(m: Machine): Machine
    requires m.queue != []
  {
    m.(queue := m.queue[1..], send := Some(m.queue[0]), head := None, tree := MarkAll(m.tree, false))
  }

  function MergeEvents(m: Machine, events: seq<Event>): (m': Machine)
    requires HeadOk(m)
    ensures HeadOk(m') && (PointsIntoQueue(m) ==> PointsIntoQueue(m'))
    decreases |events|
  {
    if events == [] then m
    else MergeEvents(AddSaved(m, events[0].code, events[0].key, events[0].params, true), events[1..])
  }

  lemma {:induction false} MergeKeepsSend(m: Machine, events: seq<Event>)
    requires HeadOk(m)
    ensures MergeEvents(m, events).send == m.send && MergeEvents(m, events).retries == m.retries
    decreases |events|
  {
    if events != [] {
      MergeKeepsSend(AddSaved(m, events[0].code, events[0].key, events[0].params, true), events[1..]);
    }
  }

  predicate Duplicate(queued: seq<Rpc>, r: Rpc) {
    (r.kind.Inform? || r.kind.GetRpcMethods?) && exists i :: 0 <= i < |queued| && queued[i].kind == r.kind
  }

  // The RPCs of the failed session that move to the queued one, and those that stay behind.
  function Moved(queued: seq<Rpc>, acs: seq<Rpc>): seq<Rpc>
    decreases |acs|
  {
    if acs == [] then []
    else if Duplicate(queued, acs[0]) then Moved(queued, acs[1..])
    else [acs[0]] + Moved(queued + [acs[0]], acs[1..])
  }

  function LeftBehind(queued: seq<Rpc>, acs: seq<Rpc>): seq<Rpc>
    decreases |acs|
  {
    if acs == [] then []
    else if Duplicate(queued, acs[0]) then [acs[0]] + LeftBehind(queued, acs[1..])
    else LeftBehind(queued + [acs[0]], acs[1..])
  }

  predicate HasInform(acs: seq<Rpc>) {
    exists i :: 0 <= i < |acs| && acs[i].kind.Inform?
  }

  // cwmp_session_destructor: cleaning up an Inform removes the events of its session.
  function Destroyed(tree: seq<Saved>, s: Session): seq<Saved> {
    if HasInform(s.acs) then DeleteRecords(tree, s.events, false) else tree
  }

  function InformFirst(acs: seq<Rpc>): seq<Rpc> {
    if acs != [] && acs[0].kind.Inform? then acs else [INFORM_RPC] + acs
  }

  // A failed session queued again as it is.
  function Requeued(m: Machine, s: Session): (m': Machine)
    ensures HeadOk(m')
  {
    m.(queue := [Session(s.events, InformFirst(s.acs), [])], head := Some(0), tree := MarkAll(m.tree, true))
  }

  // A failed session merged into the one queued meanwhile.
  function Merged(m: Machine, s: Session): (m': Machine)
    requires PointsIntoQueue(m)
    ensures HeadOk(m')
  {
    var q := MergeEvents(m, s.events);
    var c := Current(q);
    var moved := SetCurrent(q, c.(acs := c.acs + Moved(c.acs, s.acs)));
    moved.(tree := Destroyed(moved.tree, s.(acs := LeftBehind(c.acs, s.acs))))
  }

  // cwmp_move_session_to_session_queue
  function MoveToQueue(m: Machine, s: Session): (m': Machine)
    requires HeadOk(m) && (m.head.None? ==> m.queue == [])
    ensures HeadOk(m')
  {
    var n := m.(retries := m.retries + 1, send := None);
    if m.queue == [] then Requeued(n, s) else Merged(n, s)
  }

  // event_remove_noretry_event_container
  function WithoutNoRetry(events: seq<Event>): seq<Event> {
    if events == [] then []
    else if NoRetry(events[0].code) then WithoutNoRetry(events[1..])
    else [events[0]] + WithoutNoRetry(events[1..])
  }

  predicate HasConnectionRequest(events: seq<Event>) {
    exists i :: 0 <= i < |events| && events[i].code == CONNECTION_REQUEST
  }

  // ---- steps ----

  datatype Op =
    | Add(code: nat, key: string)
    | AddAndSave(code: nat, key: string, params: seq<Param>, spliced: bool)
    | AddRpc(rpc: Rpc)
    | ClearQueue
    | StartSession
    | Acknowledge
    | Receive(request: int)
    | Fail
    | Finish

  function AcknowledgeHead(m: Machine, s: Session): Machine
    requires s.acs != []
  {
    if s.acs[0].kind.Inform? then
      m.(send := Some(s.(acs := s.acs[1..], events := [])), tree := DeleteRecords(m.tree, s.events, false))
    else
      m.(send := Some(s.(acs := s.acs[1..])))
  }

  // A failed session is queued again, unless only connection requests were left to report.
  function FailSession(m: Machine, s: Session): (m': Machine)
    requires HeadOk(m) && (m.head.None? ==> m.queue == [])
    ensures HeadOk(m')
  {
    var cr := m.crEvent || HasConnectionRequest(s.events);
    var f := s.(events := WithoutNoRetry(s.events));
    var n := m.(crEvent := cr);
    if f.events != [] || !cr then MoveToQueue(n, f)
    else n.(send := None, retries := 0, tree := Destroyed(n.tree, f))
  }

  // One atomic step; a step that is not enabled changes nothing.
  function Step(m: Machine, op: Op): (m': Machine)
    requires HeadOk(m) && (m.head.None? ==> m.queue == [])
  {
    match op
    case Add(code, key) => AddEvent(m, code, key)
    case AddAndSave(code, key, params, spliced) => AddSaved(m, code, key, params, spliced)
    case AddRpc(rpc) =>
      if m.head.None? || rpc.kind.Inform? then m
      else SetCurrent(m, Current(m).(acs := Current(m).acs + [rpc]))
    case ClearQueue =>
      if m.head.None? then m
      else SetCurrent(m, Current(m).(events := [])).(tree := DeleteRecords(m.tree, Current(m).events, true))
    case StartSession => if m.send.Some? || m.queue == [] then m else MoveToSend(m)
    case Acknowledge =>
      if m.send.None? || m.send.value.acs == [] then m else AcknowledgeHead(m, m.send.value)
    case Receive(request) =>
      if m.send.None? then m else m.(send := Some(m.send.value.(cpe := m.send.value.cpe + [request])))
    case Fail => if m.send.None? then m else FailSession(m, m.send.value)
    case Finish =>
      if m.send.None? || m.send.value.acs != [] then m
      else m.(send := None, retries := 0, tree := Destroyed(m.tree, m.send.value))
  }

  // ---- what every step keeps ----

  ghost predicate SortedEvents(events: seq<Event>) {
    forall i, j :: 0 <= i < j < |events| ==>
      events[i].code <= events[j].code && (Single(events[i].code) ==> events[i].code != events[j].code)
  }

  // Exactly one Inform, at the head.
  ghost predicate InformAtHead(acs: seq<Rpc>) {
    acs != [] && acs[0].kind.Inform? && forall i :: 0 < i < |acs| ==> !acs[i].kind.Inform?
  }

  ghost predicate Structured(m: Machine) {
    && |m.queue| <= 1
    && m.head == (if m.queue == [] then None else Some(0))
    && (m.queue != [] ==> SortedEvents(m.queue[0].events) && InformAtHead(m.queue[0].acs))
    && (m.send.Some? ==>
          && SortedEvents(m.send.value.events)
          && (InformAtHead(m.send.value.acs) || (!HasInform(m.send.value.acs) && m.send.value.events == [])))
  }

  lemma AddToSorted(events: seq<Event>, e: Event)
    requires SortedEvents(events)
    ensures SortedEvents(AddTo(events, e))
  {
  }

  lemma AddEventStructured(m: Machine, code: nat, key: string)
    requires Structured(m)
    ensures Structured(AddEvent(m, code, key))
  {
    var s := Current(WithQueue(m));
    AddToSorted(s.events, Event(code, key, [], NextId(m.lastId)));
  }

  lemma ParamsKeepSorted(events: seq<Event>, i: nat, params: seq<Param>)
    requires SortedEvents(events) && i < |events|
    ensures SortedEvents(events[i := events[i].(params := params)])
  {
  }

  // Rewriting the parameters of one queued container.
  lemma RewriteStructured(m: Machine, i: nat, params: seq<Param>, tree: seq<Saved>, saved: set<nat>)
    requires Structured(m) && PointsIntoQueue(m) && i < |Current(m).events|
    ensures var s := Current(m);
      Structured(SetCurrent(m, s.(events := s.events[i := s.events[i].(params := params)]))
                 .(tree := tree, saved := saved))
  {
    ParamsKeepSorted(Current(m).events, i, params);
    hide SortedEvents, InformAtHead;
  }

  lemma AddSavedStructured(m: Machine, code: nat, key: string, params: seq<Param>, spliced: bool)
    requires Structured(m)
    ensures Structured(AddSaved(m, code, key, params, spliced))
  {
    AddEventStructured(m, code, key);
    var i := Stop(Current(WithQueue(m)).events, code, 0);
    var added := AddEvent(m, code, key);
    var s := Current(added);
    assert i < |s.events|;
    hide Structured, AddEvent, Stop, SaveRecord, Extended;
    var e := s.events[i].(params := Extended(s.events[i].params, params, spliced));
    RewriteStructured(added, i, e.params, SaveRecord(added.tree, e), added.saved + {e.id});
  }

  lemma {:induction false} MergeEventsStructured(m: Machine, events: seq<Event>)
    requires Structured(m) && m.queue != []
    ensures Structured(MergeEvents(m, events)) && MergeEvents(m, events).queue != []
    ensures Current(MergeEvents(m, events)).acs == Current(m).acs
    decreases |events|
  {
    if events != [] {
      AddSavedStructured(m, events[0].code, events[0].key, events[0].params, true);
      MergeEventsStructured(AddSaved(m, events[0].code, events[0].key, events[0].params, true), events[1..]);
    }
  }

  lemma {:induction false} WithoutNoRetryMembers(events: seq<Event>)
    ensures forall e :: e in WithoutNoRetry(events) <==> e in events && !NoRetry(e.code)
  {
    if events != [] {
      WithoutNoRetryMembers(events[1..]);
      assert events == [events[0]] + events[1..];
    }
  }

  lemma {:induction false} WithoutNoRetrySorted(events: seq<Event>)
    requires SortedEvents(events)
    ensures SortedEvents(WithoutNoRetry(events))
  {
    if events != [] {
      SortedTail(events);
      WithoutNoRetrySorted(events[1..]);
      WithoutNoRetryMembers(events[1..]);
      hide SortedEvents;
      if !NoRetry(events[0].code) {
        SortedCons(events[0], WithoutNoRetry(events[1..]));
      }
    }
  }

  lemma WithoutNoRetryMeans(events: seq<Event>)
    ensures forall e :: e in WithoutNoRetry(events) <==> e in events && !NoRetry(e.code)
    ensures SortedEvents(events) ==> SortedEvents(WithoutNoRetry(events))
  {
    WithoutNoRetryMembers(events);
    if SortedEvents(events) {
      WithoutNoRetrySorted(events);
    }
  }

  lemma SortedTail(events: seq<Event>)
    requires SortedEvents(events) && events != []
    ensures SortedEvents(events[1..])
    ensures forall x :: x in events[1..] ==>
      events[0].code <= x.code && (Single(events[0].code) ==> x.code != events[0].code)
  {
    assert forall i :: 0 <= i < |events[1..]| ==> events[1..][i] == events[i + 1];
  }

  lemma SortedCons(e: Event, rest: seq<Event>)
    requires SortedEvents(rest)
    requires forall x :: x in rest ==> e.code <= x.code && (Single(e.code) ==> x.code != e.code)
    ensures SortedEvents([e] + rest)
  {
    assert forall i :: 0 <= i < |rest| ==> rest[i] in rest;
  }

  // No second Inform is moved.
  lemma {:induction false} MovedNoInform(queued: seq<Rpc>, acs: seq<Rpc>)
    requires HasInform(queued)
    ensures !HasInform(Moved(queued, acs))
    decreases |acs|
  {
    if acs != [] {
      if Duplicate(queued, acs[0]) {
        MovedNoInform(queued, acs[1..]);
      } else {
        var i :| 0 <= i < |queued| && queued[i].kind.Inform?;
        assert (queued + [acs[0]])[i] == queued[i];
        MovedNoInform(queued + [acs[0]], acs[1..]);
      }
    }
  }

  lemma RequeueStructured(m: Machine, s: Session)
    requires m.send.None? && SortedEvents(s.events) && (InformAtHead(s.acs) || !HasInform(s.acs))
    ensures Structured(Requeued(m, s))
  {
    hide SortedEvents;
    assert s.acs != [] && s.acs[0].kind.Inform? ==> HasInform(s.acs);
  }

  lemma AppendNoInform(acs: seq<Rpc>, more: seq<Rpc>)
    requires InformAtHead(acs) && !HasInform(more)
    ensures InformAtHead(acs + more)
  {
  }

  lemma MergeStructured(m: Machine, s: Session)
    requires Structured(m) && m.queue != [] && m.send.None?
    ensures Structured(Merged(m, s))
  {
    hide SortedEvents, Destroyed, MergeEvents, LeftBehind;
    MergeEventsStructured(m, s.events);
    MergeKeepsSend(m, s.events);
    assert Current(m).acs[0].kind.Inform?;
    MovedNoInform(Current(m).acs, s.acs);
    hide InformAtHead, HasInform, Moved;
    AppendNoInform(Current(m).acs, Moved(Current(m).acs, s.acs));
  }

  lemma MoveToQueueStructured(m: Machine, s: Session)
    requires Structured(m) && SortedEvents(s.events)
    requires InformAtHead(s.acs) || !HasInform(s.acs)
    ensures Structured(MoveToQueue(m, s))
  {
    hide SortedEvents, InformAtHead, HasInform, Requeued, Merged;
    var n := m.(retries := m.retries + 1, send := None);
    if m.queue == [] {
      RequeueStructured(n, s);
    } else {
      MergeStructured(n, s);
    }
  }

  lemma AcknowledgeStructured(m: Machine, s: Session)
    requires Structured(m) && m.send == Some(s) && s.acs != []
    ensures Structured(AcknowledgeHead(m, s))
  {
    assert s.acs[0].kind.Inform? ==> HasInform(s.acs);
    assert forall i :: 0 <= i < |s.acs[1..]| ==> s.acs[1..][i] == s.acs[i + 1];
  }

  lemma FailStructured(m: Machine, s: Session)
    requires Structured(m) && m.send == Some(s)
    ensures Structured(FailSession(m, s))
  {
    assert InformAtHead(s.acs) || !HasInform(s.acs);
    WithoutNoRetryMeans(s.events);
    hide SortedEvents, InformAtHead, HasInform, WithoutNoRetry, MoveToQueue, HasConnectionRequest;
    MoveToQueueStructured(m.(crEvent := m.crEvent || HasConnectionRequest(s.events)),
      s.(events := WithoutNoRetry(s.events)));
  }

  lemma StepStructured(m: Machine, op: Op)
    requires Structured(m)
    ensures Structured(Step(m, op))
  {
    hide AddEvent, AddSaved, AcknowledgeHead, FailSession, MarkAll, Destroyed, DeleteRecords;
    match op
    case Add(code, key) => AddEventStructured(m, code, key);
    case AddAndSave(code, key, params, spliced) => AddSavedStructured(m, code, key, params, spliced);
    case Fail => if m.send.Some? { FailStructured(m, m.send.value); }
    case Acknowledge => if m.send.Some? && m.send.value.acs != [] { AcknowledgeStructured(m, m.send.value); }
    case _ =>
  }

  // A run from a structured state is structured at every step.
  function RunFrom(m: Machine, ops: seq<Op>): (m': Machine)
    requires Structured(m)
    ensures Structured(m')
  {
    if ops == [] then m else
      var before := RunFrom(m, ops[..|ops| - 1]);
      StepStructured(before, ops[|ops| - 1]);
      Step(before, ops[|ops| - 1])
  }

  // A run from an empty queue and backup.
  function Run(ops: seq<Op>): (m: Machine)
    ensures Structured(m)
  {
    RunFrom(START, ops)
  }
}
