/** Events of one code stand in the order in which their containers were made, in every reachable
    state, also after the ids have gone round. */
module SessionOrder {
  import opened Options
  import opened ParamList
  import opened Session
  import opened SessionBackup

  // The id that the n-th container gets.
  function IdOf(n: nat): nat
    requires n > 0
  {
    (n - 1) % MAX_INT_ID + 1
  }

  // at[i] says which container, counted from the start of the process, events[i] is.
  ghost predicate MadeAt(events: seq<Event>, at: seq<nat>, created: nat) {
    && |at| == |events|
    && (forall i :: 0 <= i < |events| ==> 0 < at[i] <= created && events[i].id == IdOf(at[i]))
    && (forall i, j :: 0 <= i < j < |events| && events[i].code == events[j].code ==> at[i] < at[j])
  }

  ghost predicate InOrder(events: seq<Event>, created: nat) {
    exists at :: MadeAt(events, at, created)
  }

  ghost predicate AllInOrder(m: Machine) {
    && m.lastId == (if m.created == 0 then 0 else IdOf(m.created))
    && InOrder(QueueEvents(m), m.created)
    && InOrder(SendEvents(m), m.created)
  }

  lemma NextIdOf(created: nat)
    ensures NextId(if created == 0 then 0 else IdOf(created)) == IdOf(created + 1)
  {
  }

  lemma LaterInOrder(events: seq<Event>, created: nat, later: nat)
    requires InOrder(events, created) && created <= later
    ensures InOrder(events, later)
  {
    var at :| MadeAt(events, at, created);
    assert MadeAt(events, at, later);
  }

  lemma NoneInOrder(created: nat)
    ensures InOrder([], created)
  {
    assert MadeAt([], [], created);
  }

  // A new container goes behind all of its code.
  lemma AddToInOrder(events: seq<Event>, e: Event, created: nat)
    requires InOrder(events, created) && SortedEvents(events) && e.id == IdOf(created + 1)
    ensures InOrder(AddTo(events, e), if Existing(events, e.code) then created else created + 1)
  {
    var at :| MadeAt(events, at, created);
    if !Existing(events, e.code) {
      var i := Stop(events, e.code, 0);
      var at' := at[..i] + [created + 1] + at[i..];
      hide IdOf;
      InsertMade(events, at, i, e, created);
      assert AddTo(events, e) == events[..i] + [e] + events[i..];
    }
  }

  lemma InsertMade(events: seq<Event>, at: seq<nat>, i: nat, e: Event, created: nat)
    requires MadeAt(events, at, created) && i <= |events| && e.id == IdOf(created + 1)
    requires forall k :: i <= k < |events| ==> events[k].code != e.code
    ensures MadeAt(events[..i] + [e] + events[i..], at[..i] + [created + 1] + at[i..], created + 1)
  {
    hide IdOf;
    var t, a := events[..i] + [e] + events[i..], at[..i] + [created + 1] + at[i..];
    assert forall k :: 0 <= k < |t| ==>
      t[k] == (if k < i then events[k] else if k == i then e else events[k - 1])
      && a[k] == (if k < i then at[k] else if k == i then created + 1 else at[k - 1]);
  }

  // Parameters do not matter.
  lemma SameMade(events: seq<Event>, events': seq<Event>, created: nat)
    requires InOrder(events, created) && |events| == |events'|
    requires forall i :: 0 <= i < |events| ==> events[i].id == events'[i].id && events[i].code == events'[i].code
    ensures InOrder(events', created)
  {
    var at :| MadeAt(events, at, created);
    assert MadeAt(events', at, created);
  }

  // Each of 'some' is one of 'events', made at the same time.
  ghost predicate Among(some: seq<Event>, kept: seq<nat>, events: seq<Event>, at: seq<nat>) {
    && |some| == |kept| && |events| == |at|
    && forall j :: 0 <= j < |some| ==> exists i :: 0 <= i < |events| && some[j] == events[i] && kept[j] == at[i]
  }

  lemma AmongMore(e: Event, a: nat, some: seq<Event>, kept: seq<nat>, events: seq<Event>, at: seq<nat>)
    requires events != [] && |at| == |events| && e == events[0] && a == at[0] && Among(some, kept, events[1..], at[1..])
    ensures Among(some, kept, events, at) && Among([e] + some, [a] + kept, events, at)
  {
    forall j | 0 <= j < |some| ensures exists i :: 0 < i < |events| && some[j] == events[i] && kept[j] == at[i] {
      var i :| 0 <= i < |events[1..]| && some[j] == events[1..][i] && kept[j] == at[1..][i];
      assert events[i + 1] == some[j] && at[i + 1] == kept[j];
    }
  }

  lemma FrontMade(events: seq<Event>, at: seq<nat>, some: seq<Event>, kept: seq<nat>, created: nat)
    requires events != [] && MadeAt(events, at, created)
    requires MadeAt(some, kept, created) && Among(some, kept, events[1..], at[1..])
    ensures MadeAt([events[0]] + some, [at[0]] + kept, created)
  {
    hide IdOf;
    forall j | 0 <= j < |some| && some[j].code == events[0].code ensures at[0] < kept[j] {
      var i :| 0 <= i < |events[1..]| && some[j] == events[1..][i] && kept[j] == at[1..][i];
      assert events[i + 1] == some[j] && at[i + 1] == kept[j];
    }
  }

  lemma RestMade(events: seq<Event>, at: seq<nat>, created: nat)
    requires events != [] && MadeAt(events, at, created)
    ensures MadeAt(events[1..], at[1..], created)
  {
    hide IdOf;
  }

  lemma {:induction false} KeptMade(events: seq<Event>, at: seq<nat>, created: nat) returns (kept: seq<nat>)
    requires MadeAt(events, at, created)
    ensures MadeAt(WithoutNoRetry(events), kept, created) && Among(WithoutNoRetry(events), kept, events, at)
  {
    if events == [] {
      kept := [];
    } else {
      RestMade(events, at, created);
      kept := KeptMade(events[1..], at[1..], created);
      var some := WithoutNoRetry(events[1..]);
      FrontMade(events, at, some, kept, created);
      hide MadeAt, Among;
      AmongMore(events[0], at[0], some, kept, events, at);
      kept := if NoRetry(events[0].code) then kept else [at[0]] + kept;
    }
  }

  lemma KeptInOrder(events: seq<Event>, created: nat)
    requires InOrder(events, created)
    ensures InOrder(WithoutNoRetry(events), created)
  {
    var at :| MadeAt(events, at, created);
    var kept := KeptMade(events, at, created);
  }

  lemma AddEventCounts(m: Machine, code: nat, key: string)
    requires Structured(m)
    ensures var a := AddEvent(m, code, key);
      if Existing(QueueEvents(m), code) then a.lastId == m.lastId && a.created == m.created
      else a.lastId == NextId(m.lastId) && a.created == m.created + 1
  {
    assert Current(WithQueue(m)).events == QueueEvents(m);
    hide Stop, SortedEvents, InformAtHead, HasInform, NextId;
  }

  lemma AddEventInOrder(m: Machine, code: nat, key: string)
    requires Structured(m) && AllInOrder(m)
    ensures AllInOrder(AddEvent(m, code, key))
  {
    AddEventShape(m, code, key);
    AddEventCounts(m, code, key);
    NextIdOf(m.created);
    assert SortedEvents(QueueEvents(m)) && HeadOk(m);
    hide Structured, AddEvent, InOrder, AddTo, NextId, IdOf, SortedEvents, Stop, Existing, WithQueue;
    AddToInOrder(QueueEvents(m), Event(code, key, [], NextId(m.lastId)), m.created);
    LaterInOrder(SendEvents(m), m.created, m.created + 1);
    assert SendEvents(AddEvent(m, code, key)) == SendEvents(m);
  }

  // Rewriting the parameters of one queued container.
  lemma RewriteInOrder(m: Machine, i: nat, params: seq<Param>, tree: seq<Saved>, saved: set<nat>)
    requires AllInOrder(m) && m.head == Some(0) && |m.queue| == 1 && i < |m.queue[0].events|
    ensures var s := m.queue[0];
      AllInOrder(SetCurrent(m, s.(events := s.events[i := s.events[i].(params := params)]))
                 .(tree := tree, saved := saved))
  {
    hide InOrder, IdOf;
    var events := m.queue[0].events;
    SameMade(events, events[i := events[i].(params := params)], m.created);
  }

  lemma AddSavedInOrder(m: Machine, code: nat, key: string, params: seq<Param>, spliced: bool)
    requires Structured(m) && AllInOrder(m)
    ensures AllInOrder(AddSaved(m, code, key, params, spliced))
  {
    AddEventInOrder(m, code, key);
    AddEventStructured(m, code, key);
    var i := Stop(Current(WithQueue(m)).events, code, 0);
    var added := AddEvent(m, code, key);
    assert added.head == Some(0) && |added.queue| == 1 && i < |added.queue[0].events|;
    hide Structured, AllInOrder, AddEvent, Stop, SaveRecord, Extended, WithQueue;
    var s := added.queue[0];
    var e := s.events[i].(params := Extended(s.events[i].params, params, spliced));
    RewriteInOrder(added, i, e.params, SaveRecord(added.tree, e), added.saved + {e.id});
  }

  lemma {:induction false} MergeEventsInOrder(m: Machine, events: seq<Event>)
    requires Structured(m) && AllInOrder(m)
    ensures AllInOrder(MergeEvents(m, events))
    decreases |events|
  {
    hide AllInOrder, AddSaved;
    if events != [] {
      AddSavedInOrder(m, events[0].code, events[0].key, events[0].params, true);
      AddSavedStructured(m, events[0].code, events[0].key, events[0].params, true);
      hide Structured;
      MergeEventsInOrder(AddSaved(m, events[0].code, events[0].key, events[0].params, true), events[1..]);
    }
  }

  lemma MergedInOrder(n: Machine, s: Session)
    requires Structured(n) && AllInOrder(n) && n.queue != []
    ensures AllInOrder(Merged(n, s))
  {
    MergeEventsInOrder(n, s.events);
    MergeEventsStructured(n, s.events);
    hide InOrder, IdOf, MergeEvents, Destroyed, Moved, LeftBehind, SortedEvents, InformAtHead, HasInform;
  }

  lemma RequeuedInOrder(n: Machine, s: Session)
    requires AllInOrder(n) && InOrder(s.events, n.created) && n.send.None?
    ensures AllInOrder(Requeued(n, s))
  {
    hide InOrder, IdOf, MarkAll, InformFirst;
    assert QueueEvents(Requeued(n, s)) == s.events;
    assert SendEvents(Requeued(n, s)) == SendEvents(n);
  }

  // The session is taken out of 'send'.
  lemma TakenOut(m: Machine, retries: nat)
    requires Structured(m) && AllInOrder(m)
    ensures var n := m.(retries := retries, send := None); Structured(n) && AllInOrder(n)
    ensures HeadOk(m) && (m.head.None? ==> m.queue == [])
  {
    NoneInOrder(m.created);
    hide InOrder, IdOf, SortedEvents, InformAtHead, HasInform;
    assert SendEvents(m.(retries := retries, send := None)) == [];
  }

  lemma MoveInOrder(m: Machine, s: Session)
    requires Structured(m) && AllInOrder(m) && InOrder(s.events, m.created)
    ensures AllInOrder(MoveToQueue(m, s))
  {
    hide Structured, AllInOrder, InOrder, Merged, Requeued;
    TakenOut(m, m.retries + 1);
    var n := m.(retries := m.retries + 1, send := None);
    if m.queue == [] {
      RequeuedInOrder(n, s);
    } else {
      MergedInOrder(n, s);
    }
  }

  lemma FailInOrder(m: Machine, s: Session)
    requires Structured(m) && AllInOrder(m) && m.send == Some(s)
    ensures AllInOrder(FailSession(m, s))
  {
    KeptInOrder(s.events, m.created);
    NoneInOrder(m.created);
    var n, f := m.(crEvent := m.crEvent || HasConnectionRequest(s.events)), s.(events := WithoutNoRetry(s.events));
    assert Structured(n) && AllInOrder(n);
    hide Structured, InOrder, IdOf, MoveToQueue, Destroyed, WithoutNoRetry, HasConnectionRequest;
    if f.events != [] || !n.crEvent {
      MoveInOrder(n, f);
    }
  }

  lemma StepInOrder(m: Machine, op: Op)
    requires Structured(m) && AllInOrder(m)
    ensures AllInOrder(Step(m, op))
  {
    NoneInOrder(m.created);
    hide InOrder, IdOf, AddEvent, AddSaved, MarkAll, FailSession, Destroyed, DeleteRecords, SortedEvents, InformAtHead,
      HasInform;
    match op
    case Add(code, key) => AddEventInOrder(m, code, key);
    case AddAndSave(code, key, params, spliced) => AddSavedInOrder(m, code, key, params, spliced);
    case Fail => if m.send.Some? { FailInOrder(m, m.send.value); }
    case _ =>
  }

  // Ascending by code, and no code below 12 twice.
  predicate OncePerCode(events: seq<Event>) {
    forall i, j :: 0 <= i < j < |events| ==>
      events[i].code <= events[j].code && (events[i].code < 12 ==> events[i].code < events[j].code)
  }

  // In every reachable state both lists are ascending by code, and events of one code stand in
  // the order in which they were added.
  lemma {:induction false} RunInOrder(ops: seq<Op>)
    ensures AllInOrder(Run(ops)) && SortedEvents(QueueEvents(Run(ops))) && SortedEvents(SendEvents(Run(ops)))
    ensures OncePerCode(QueueEvents(Run(ops))) && OncePerCode(SendEvents(Run(ops)))
  {
    if ops == [] {
      NoneInOrder(0);
    } else {
      var before := ops[..|ops| - 1];
      RunInOrder(before);
      StepInOrder(Run(before), ops[|ops| - 1]);
    }
  }
}
