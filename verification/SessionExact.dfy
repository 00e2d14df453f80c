/** No record outlives its container, so that a restart brings back exactly the saved events that are
    still to be reported. */
module SessionExact {
  import opened Options
  import opened ParamList
  import opened Session
  import opened SessionBackup
  import opened SessionRestart
  import opened SessionLive

  predicate HasId(events: seq<Event>, id: nat) {
    exists i :: 0 <= i < |events| && events[i].id == id
  }

  // Each record is that of a saved container which is queued, or being sent, as its status says;
  // 'out' is the session being sent.
  ghost predicate TiedWith(m: Machine, out: seq<Event>) {
    forall r :: r in m.tree ==> r.id in m.saved && HasId(if r.queued then QueueEvents(m) else out, r.id)
  }

  ghost predicate Tied(m: Machine) {
    TiedWith(m, SendEvents(m))
  }

  // ---- the edits ----

  lemma AddEventTied(m: Machine, out: seq<Event>, code: nat, key: string)
    requires PersistedWith(m, out, true) && TiedWith(m, out) && AddEvent(m, code, key).created <= MAX_INT_ID
    ensures TiedWith(AddEvent(m, code, key), out)
  {
    AddEventFields(m, code, key);
    var events, i, e := QueueEvents(m), Stop(QueueEvents(m), code, 0), Event(code, key, [], m.lastId + 1);
    forall id | HasId(events, id) ensures HasId(events[..i] + [e] + events[i..], id) {
      IdInserted(events, i, e, id);
    }
    hide AddEvent, Existing, PersistedWith, HasId, QueueEvents;
  }

  lemma IdInserted(events: seq<Event>, i: nat, e: Event, id: nat)
    requires HasId(events, id) && i <= |events|
    ensures HasId(events[..i] + [e] + events[i..], id)
  {
    var k :| 0 <= k < |events| && events[k].id == id;
    assert (events[..i] + [e] + events[i..])[if k < i then k else k + 1] == events[k];
  }

  lemma SaveTied(m: Machine, out: seq<Event>, i: nat, e: Event)
    requires PersistedWith(m, out, true) && TiedWith(m, out) && m.queue != [] && i < |QueueEvents(m)|
    requires e == QueueEvents(m)[i].(params := e.params)
    ensures TiedWith(m.(queue := [m.queue[0].(events := m.queue[0].events[i := e])],
                        tree := SaveRecord(m.tree, e), saved := m.saved + {e.id}), out)
  {
    var events, t := QueueEvents(m), SaveRecord(m.tree, e);
    assert Agrees(e, m.tree, true) by { assert Agrees(events[i], m.tree, true); }
    SaveRecordMeans(m.tree, e, m.lastId, true);
    assert events[i := e][i].id == e.id;
    forall id | HasId(events, id) ensures HasId(events[i := e], id) {
      var k :| 0 <= k < |events| && events[k].id == id;
      assert events[i := e][k].id == id;
    }
    hide SaveRecord, PersistedWith, HasId, RecordsOk, Recorded;
    assert HasId(events[i := e], e.id) by { IdAt(events[i := e], i); }
    forall r | r in t ensures r.id in m.saved + {e.id} && HasId(if r.queued then events[i := e] else out, r.id) {
      if r.id != e.id {
        assert r in m.tree;
      }
    }
  }

  lemma IdAt(events: seq<Event>, i: nat)
    requires i < |events|
    ensures HasId(events, events[i].id)
  {
  }

  lemma AddSavedTied(m: Machine, out: seq<Event>, code: nat, key: string, params: seq<Param>, spliced: bool)
    requires PersistedWith(m, out, true) && TiedWith(m, out)
      && AddSaved(m, code, key, params, spliced).created <= MAX_INT_ID
    ensures TiedWith(AddSaved(m, code, key, params, spliced), out)
  {
    hide PersistedWith, TiedWith;
    AddEventPersisted(m, out, code, key, true);
    AddEventTied(m, out, code, key);
    var added := AddEvent(m, code, key);
    var i := Stop(Current(WithQueue(m)).events, code, 0);
    var s := Current(added);
    var e := s.events[i].(params := Extended(s.events[i].params, params, spliced));
    OneSession(added, out, true);
    SaveTied(added, out, i, e);
    assert AddSaved(m, code, key, params, spliced) ==
           added.(queue := [s.(events := s.events[i := e])], tree := SaveRecord(added.tree, e),
                  saved := added.saved + {e.id});
  }

  lemma {:induction false} MergeEventsTied(m: Machine, out: seq<Event>, events: seq<Event>)
    requires PersistedWith(m, out, true) && TiedWith(m, out) && MergeEvents(m, events).created <= MAX_INT_ID
    ensures TiedWith(MergeEvents(m, events), out)
    decreases |events|
  {
    hide PersistedWith, TiedWith;
    if events != [] {
      var next := AddSaved(m, events[0].code, events[0].key, events[0].params, true);
      MergeCreates(next, events[1..]);
      AddSavedPersisted(m, out, events[0].code, events[0].key, events[0].params, true, true);
      AddSavedTied(m, out, events[0].code, events[0].key, events[0].params, true);
      MergeEventsTied(next, out, events[1..]);
    }
  }

  // The records of 'out' go with it.
  lemma DeleteOutTied(m: Machine, out: seq<Event>)
    requires PersistedWith(m, out, true) && TiedWith(m, out)
    ensures TiedWith(m.(tree := DeleteRecords(m.tree, out, false)), [])
  {
    DeleteRecordsMeans(m.tree, out, false, m.lastId);
    hide DeleteRecords, PersistedWith, QueueEvents;
  }

  lemma ClearTied(m: Machine, out: seq<Event>)
    requires PersistedWith(m, out, true) && TiedWith(m, out) && m.queue != []
    ensures TiedWith(m.(queue := [m.queue[0].(events := [])], tree := DeleteRecords(m.tree, QueueEvents(m), true)), out)
  {
    DeleteRecordsMeans(m.tree, QueueEvents(m), true, m.lastId);
    hide DeleteRecords, PersistedWith;
  }

  lemma MarkedTied(m: Machine, tree: seq<Saved>, events: seq<Event>, queued: bool)
    requires |tree| == |m.tree| && forall i :: 0 <= i < |tree| ==> tree[i] == m.tree[i].(queued := queued)
    requires forall r :: r in m.tree ==> r.id in m.saved && HasId(events, r.id)
    ensures forall r :: r in tree ==> r.queued == queued && r.id in m.saved && HasId(events, r.id)
  {
    hide HasId;
    forall r | r in tree ensures r.queued == queued && r.id in m.saved && HasId(events, r.id) {
      var k :| 0 <= k < |tree| && tree[k] == r;
      assert m.tree[k] in m.tree;
    }
  }

  lemma NoIds(id: nat)
    ensures !HasId([], id)
  {
  }

  lemma StartTied(m: Machine)
    requires Persisted(m, true) && Tied(m) && m.send.None? && m.queue != []
    ensures Tied(MoveToSend(m))
  {
    forall r | r in m.tree ensures r.id in m.saved && HasId(QueueEvents(m), r.id) {
      NoIds(r.id);
    }
    MarkedTied(m, MarkAll(m.tree, false), QueueEvents(m), false);
    hide HasId, Persisted;
  }

  lemma RequeuedTied(m: Machine, s: Session)
    requires TiedWith(m, s.events) && m.queue == []
    ensures TiedWith(Requeued(m, s), [])
  {
    forall r | r in m.tree ensures r.id in m.saved && HasId(s.events, r.id) {
      NoIds(r.id);
    }
    MarkedTied(m, MarkAll(m.tree, true), s.events, true);
    hide HasId, InformFirst;
    assert QueueEvents(Requeued(m, s)) == s.events;
  }

  // ---- a failed session ----

  lemma KeptTied(m: Machine, events: seq<Event>)
    requires PersistedWith(m, events, true) && TiedWith(m, events) && RetriedCodes(m.tree)
    ensures TiedWith(m, WithoutNoRetry(events))
  {
    assert Owned(events, m.tree, m.saved, false, true);
    hide PersistedWith, WithoutNoRetry, QueueEvents;
    forall r | r in m.tree && !r.queued ensures HasId(WithoutNoRetry(events), r.id) {
      KeptOwner(m.tree, events, m.saved, r);
    }
  }

  lemma KeptOwner(tree: seq<Saved>, events: seq<Event>, saved: set<nat>, r: Saved)
    requires Owned(events, tree, saved, false, true) && RetriedCodes(tree) && r in tree && HasId(events, r.id)
    ensures HasId(WithoutNoRetry(events), r.id)
  {
    var i :| 0 <= i < |events| && events[i].id == r.id;
    assert Agrees(events[i], tree, false);
    hide Owned;
    WithoutNoRetryMeans(events);
    assert events[i] in events;
    var kept := WithoutNoRetry(events);
    var j :| 0 <= j < |kept| && kept[j] == events[i];
  }

  // With an Inform queued, an Inform that comes stays behind.
  lemma {:induction false} LeftInform(queued: seq<Rpc>, acs: seq<Rpc>)
    requires HasInform(queued) && HasInform(acs)
    ensures HasInform(LeftBehind(queued, acs))
    decreases |acs|
  {
    var i :| 0 <= i < |queued| && queued[i].kind.Inform?;
    if acs[0].kind.Inform? {
      assert Duplicate(queued, acs[0]);
      assert LeftBehind(queued, acs)[0] == acs[0];
    } else {
      var j :| 0 <= j < |acs| && acs[j].kind.Inform?;
      assert acs[1..][j - 1] == acs[j];
      if Duplicate(queued, acs[0]) {
        LeftInform(queued, acs[1..]);
        var k :| 0 <= k < |LeftBehind(queued, acs[1..])| && LeftBehind(queued, acs[1..])[k].kind.Inform?;
        assert LeftBehind(queued, acs)[k + 1].kind.Inform?;
      } else {
        assert (queued + [acs[0]])[i].kind.Inform?;
        LeftInform(queued + [acs[0]], acs[1..]);
      }
    }
  }

  lemma DestroyedTied(m: Machine, s: Session)
    requires PersistedWith(m, s.events, true) && TiedWith(m, s.events) && (HasInform(s.acs) || s.events == [])
    ensures TiedWith(m.(tree := Destroyed(m.tree, s)), [])
  {
    if HasInform(s.acs) {
      DeleteOutTied(m, s.events);
    }
  }

  lemma MergedTied(m: Machine, s: Session)
    requires PersistedWith(m, s.events, true) && TiedWith(m, s.events) && m.queue != [] && m.send == None
    requires HasInform(s.acs) || s.events == []
    requires Merged(m, s).created <= MAX_INT_ID
    ensures TiedWith(Merged(m, s), [])
  {
    var q := MergeEvents(m, s.events);
    PersistedIsStructured(m, s.events, true);
    MergeEventsStructured(m, s.events);
    MergeEventsPersisted(m, s.events, s.events, true);
    MergeEventsTied(m, s.events, s.events);
    var c := Current(q);
    assert HasInform(c.acs) by { assert InformAtHead(m.queue[0].acs) && c.acs[0].kind.Inform?; }
    var left := s.(acs := LeftBehind(c.acs, s.acs));
    if HasInform(s.acs) {
      LeftInform(c.acs, s.acs);
    }
    hide MergeEvents, Destroyed, Moved, LeftBehind, PersistedWith, HasInform;
    DestroyedTied(q, left);
    SameTied(q.(tree := Destroyed(q.tree, left)), Merged(m, s));
  }

  lemma SameTied(a: Machine, b: Machine)
    requires TiedWith(a, []) && a.tree == b.tree && a.saved == b.saved && QueueEvents(a) == QueueEvents(b)
    ensures TiedWith(b, [])
  {
    hide HasId, QueueEvents;
  }

  lemma MoveTied(m: Machine, s: Session)
    requires PersistedWith(m, s.events, true) && TiedWith(m, s.events) && (HasInform(s.acs) || s.events == [])
    requires MoveToQueue(m, s).created <= MAX_INT_ID
    ensures Tied(MoveToQueue(m, s))
  {
    hide PersistedWith, Merged, Requeued, Structured, TiedWith;
    WithoutSend(m, s.events, m.retries + 1);
    MoveClearsSend(m, s);
    var n := m.(retries := m.retries + 1, send := None);
    if m.queue == [] {
      RequeuedTied(n, s);
    } else {
      MergedTied(n, s);
    }
  }

  lemma WithoutSend(m: Machine, out: seq<Event>, retries: nat)
    requires PersistedWith(m, out, true) && TiedWith(m, out)
    ensures var n := m.(retries := retries, send := None);
      PersistedWith(n, out, true) && TiedWith(n, out) && Structured(n)
    ensures HeadOk(m) && (m.head.None? ==> m.queue == [])
  {
    hide HasId, SortedEvents, InformAtHead, RecordsOk, IdsOk, Owned, Apart;
  }

  lemma FailTied(m: Machine, s: Session)
    requires Persisted(m, true) && Tied(m) && RetriedCodes(m.tree) && m.send == Some(s)
    requires FailSession(m, s).created <= MAX_INT_ID
    ensures Tied(FailSession(m, s))
  {
    var n, f := m.(crEvent := m.crEvent || HasConnectionRequest(s.events)), s.(events := WithoutNoRetry(s.events));
    KeptTied(m, s.events);
    NoRetryPersisted(m, s.events, n.crEvent, true);
    FailShape(m, s);
    if GivenUp(m, s) { GivenUpShape(m, s); }
    assert HasInform(f.acs) || f.events == [];
    hide Persisted, PersistedWith, Structured, WithoutNoRetry, HasConnectionRequest, MoveToQueue, Destroyed, HasInform,
      FailSession, GivenUp, TiedWith;
    NotedTied(m, n, f.events);
    if GivenUp(m, s) {
      DestroyedTied(n, f);
      SameTied(n.(tree := Destroyed(n.tree, f)), FailSession(m, s));
    } else {
      MoveTied(n, f);
    }
  }

  lemma GivenUpShape(m: Machine, s: Session)
    requires Structured(m) && m.send == Some(s) && GivenUp(m, s)
    ensures var f, r := s.(events := WithoutNoRetry(s.events)), FailSession(m, s);
      f.events == [] && r.send == None && r.tree == Destroyed(m.tree, f) && r.saved == m.saved && r.queue == m.queue
  {
    NothingKept(s.events);
    RequestIsEvent(s.events);
    assert s.events != [] ==> s.events[0] in s.events;
    hide WithoutNoRetry, HasConnectionRequest, MoveToQueue, Destroyed, SortedEvents, InformAtHead;
  }

  lemma NotedTied(m: Machine, n: Machine, out: seq<Event>)
    requires TiedWith(m, out) && n == m.(crEvent := n.crEvent)
    ensures TiedWith(n, out)
  {
    hide HasId;
  }

  // ---- every step ----

  lemma StepTied(m: Machine, op: Op)
    requires Persisted(m, true) && Tied(m) && RetriedCodes(m.tree) && Step(m, op).created <= MAX_INT_ID
    ensures Tied(Step(m, op))
  {
    match op
    case Add(code, key) => AddTied(m, code, key);
    case AddAndSave(code, key, params, spliced) => AddAndSaveTied(m, code, key, params, spliced);
    case ClearQueue => if m.head.Some? { QueueClearedTied(m); }
    case StartSession => if m.send.None? && m.queue != [] { StartTied(m); }
    case Acknowledge => AnswerTied(m);
    case Fail => if m.send.Some? { FailTied(m, m.send.value); }
    case Finish => FinishTied(m);
    case AddRpc(_) => RpcTied(m, op);
    case Receive(_) => RpcTied(m, op);
  }

  lemma AddTied(m: Machine, code: nat, key: string)
    requires Persisted(m, true) && Tied(m) && AddEvent(m, code, key).created <= MAX_INT_ID
    ensures Tied(AddEvent(m, code, key))
  {
    AddEventTied(m, SendEvents(m), code, key);
    AddKeepsSend(m, code, key, [], false);
    hide AddEvent, PersistedWith, TiedWith;
  }

  lemma AddAndSaveTied(m: Machine, code: nat, key: string, params: seq<Param>, spliced: bool)
    requires Persisted(m, true) && Tied(m) && AddSaved(m, code, key, params, spliced).created <= MAX_INT_ID
    ensures Tied(AddSaved(m, code, key, params, spliced))
  {
    AddSavedTied(m, SendEvents(m), code, key, params, spliced);
    AddKeepsSend(m, code, key, params, spliced);
    hide AddSaved, PersistedWith, TiedWith;
  }

  lemma QueueClearedTied(m: Machine)
    requires Persisted(m, true) && Tied(m) && m.head.Some?
    ensures Tied(Step(m, ClearQueue))
  {
    PersistedQueue(m, true);
    ClearTied(m, SendEvents(m));
    hide Persisted, PersistedWith, TiedWith, DeleteRecords;
  }

  lemma AnswerTied(m: Machine)
    requires Persisted(m, true) && Tied(m)
    ensures Tied(Step(m, Acknowledge))
  {
    DeleteOutTied(m, SendEvents(m));
    AnswerShape(m);
    hide Persisted, PersistedWith, Step, DeleteRecords;
    var r := Step(m, Acknowledge);
    if SendAcs(m) != [] && SendAcs(m)[0].kind.Inform? {
      SameTied(m.(tree := DeleteRecords(m.tree, SendEvents(m), false)), r);
    }
  }

  lemma AnswerShape(m: Machine)
    requires Structured(m)
    ensures var r := Step(m, Acknowledge);
      && QueueEvents(r) == QueueEvents(m) && r.saved == m.saved
      && if SendAcs(m) != [] && SendAcs(m)[0].kind.Inform?
         then SendEvents(r) == [] && r.tree == DeleteRecords(m.tree, SendEvents(m), false)
         else SendEvents(r) == SendEvents(m) && r.tree == m.tree
  {
    hide DeleteRecords, SortedEvents, InformAtHead, HasInform;
  }

  lemma FinishTied(m: Machine)
    requires Persisted(m, true) && Tied(m)
    ensures Tied(Step(m, Finish))
  {
    if m.send.Some? && m.send.value.acs == [] {
      assert m.send.value.events == [] && !HasInform(m.send.value.acs);
      hide PersistedWith, HasId, QueueEvents;
    }
  }

  lemma RpcTied(m: Machine, op: Op)
    requires Persisted(m, true) && Tied(m) && (op.AddRpc? || op.Receive?)
    ensures Tied(Step(m, op))
  {
    PersistedQueue(m, true);
    hide Persisted, PersistedWith, HasId;
  }

  // In every run from an empty backup.
  lemma {:induction false} RunTied(ops: seq<Op>)
    requires Run(ops).created <= MAX_INT_ID
    ensures Tied(Run(ops))
  {
    if ops != [] {
      var init, last := ops[..|ops| - 1], ops[|ops| - 1];
      hide Tied, Persisted, Step, RetriedCodes;
      StepCreates(Run(init), last);
      RunTied(init);
      RunPersisted(init);
      RunRetried(init);
      StepTied(Run(init), last);
    }
  }

  // ---- restarts are exact ----

  // A loaded container stands for a live one that had to survive.
  lemma LoadedIsLive(m: Machine, e: Event) returns (x: Event)
    requires Persisted(m, true) && Tied(m) && RetriedCodes(m.tree) && HasSource(e, MarkAll(m.tree, true))
    ensures x in Live(m) && MustSurvive(m, x) && x.code == e.code && x.id == e.id
    ensures e.code >= 12 ==> x.key == e.key
  {
    var marked := MarkAll(m.tree, true);
    var k :| 0 <= k < |marked| && LoadedFrom(e, marked[k]);
    var r := m.tree[k];
    assert r in m.tree;
    hide Persisted, Tied;
    x := OwnerOf(m, r) by { assert Tied(m); }
    assert r.code != 1 && r.code != 4 && r.code != 6 && r.code != 8;
  }

  lemma OwnerOf(m: Machine, r: Saved) returns (x: Event)
    requires Persisted(m, true) && Tied(m) && r in m.tree
    ensures x in Live(m) && x.id == r.id && x.code == r.code && r.id in m.saved && (x.code >= 12 ==> x.key == r.key)
  {
    var events := if r.queued then QueueEvents(m) else SendEvents(m);
    assert HasId(events, r.id);
    var i :| 0 <= i < |events| && events[i].id == r.id;
    x := events[i];
    assert Agrees(x, m.tree, r.queued);
    assert x in events;
  }

  // The MULTIPLE events of a list.
  function Many(events: seq<Event>): (r: seq<Event>)
    ensures forall e :: e in r <==> e in events && e.code >= 12
  {
    if events == [] then []
    else
      assert events == [events[0]] + events[1..];
      (if events[0].code >= 12 then [events[0]] else []) + Many(events[1..])
  }

  lemma {:induction false} ManyDistinct(events: seq<Event>)
    requires DistinctIds(events)
    ensures DistinctIds(Many(events))
  {
    if events != [] {
      var rest := Many(events[1..]);
      ManyDistinct(events[1..]);
      forall j | 0 <= j < |rest| ensures events[0].id != rest[j].id {
        assert rest[j] in events[1..];
        var k :| 0 <= k < |events[1..]| && events[1..][k] == rest[j];
        assert events[k + 1] == rest[j];
      }
    }
  }

  lemma {:induction false} MultiplesAre(m: Machine, events: seq<Event>, e: Event)
    requires e in events && MustSurvive(m, e) && e.code >= 12
    ensures e in Multiples(m, events)
  {
    if e != events[0] {
      MultiplesAre(m, events[1..], e);
    }
  }

  lemma MatchedBy(ys: seq<Event>, x: Event, y: Event)
    requires y in ys && y.code == x.code && (x.code >= 12 ==> y.key == x.key && y.id == x.id)
    ensures Matched(ys, x)
  {
    var i :| 0 <= i < |ys| && ys[i] == y;
    assert StandsFor(ys[i], x.code, x.key, x.id, []);
  }

  lemma RestoredIsLive(m: Machine, e: Event) returns (x: Event)
    requires Persisted(m, true) && Tied(m) && RetriedCodes(m.tree) && RecordsOk(m.tree, MAX_INT_ID)
    requires e in QueueEvents(Restart(m.tree))
    ensures x in Live(m) && MustSurvive(m, x) && x.code == e.code && x.id == e.id
    ensures e.code >= 12 ==> x.key == e.key
  {
    RestartLoads(m.tree);
    var restored := QueueEvents(Restart(m.tree));
    hide Persisted, Tied, RetriedCodes, RecordsOk, HasSource, Live;
    var i :| 0 <= i < |restored| && restored[i] == e;
    assert HasSource(restored[i], MarkAll(m.tree, true));
    x := LoadedIsLive(m, e);
  }

  lemma RestoredDistinct(tree: seq<Saved>)
    requires RecordsOk(tree, MAX_INT_ID)
    ensures DistinctIds(Many(QueueEvents(Restart(tree))))
  {
    RestartLoads(tree);
    ManyDistinct(QueueEvents(Restart(tree)));
  }

  // Each of these events stands for one of 'live' that had to survive.
  ghost predicate Accounted(m: Machine, live: seq<Event>, events: seq<Event>) {
    forall e :: e in events ==>
      exists x :: x in live && MustSurvive(m, x) && x.code == e.code
        && (e.code >= 12 ==> x.key == e.key && x.id == e.id)
  }

  lemma AccountedFor(m: Machine)
    requires Persisted(m, true) && Tied(m) && RetriedCodes(m.tree) && RecordsOk(m.tree, MAX_INT_ID)
    ensures Accounted(m, Live(m), QueueEvents(Restart(m.tree)))
  {
    hide Persisted, Tied, RetriedCodes, RecordsOk, Restart, Live, MustSurvive;
    forall e | e in QueueEvents(Restart(m.tree))
      ensures exists x ::
        x in Live(m) && MustSurvive(m, x) && x.code == e.code && (e.code >= 12 ==> x.key == e.key && x.id == e.id)
    {
      var x := RestoredIsLive(m, e);
    }
  }

  lemma NoMoreMany(m: Machine, live: seq<Event>, events: seq<Event>)
    requires Accounted(m, live, events) && DistinctIds(Many(events))
    ensures multiset(Pairs(Many(events))) <= multiset(Pairs(Multiples(m, live)))
  {
    var xs, ys := Many(events), Multiples(m, live);
    hide Pairs, Matched, MustSurvive, DistinctIds;
    forall i | 0 <= i < |xs| ensures Matched(ys, xs[i]) && !Single(xs[i].code) {
      var e := xs[i];
      assert e in xs;
      var x :| x in live && MustSurvive(m, x) && x.code == e.code && (e.code >= 12 ==> x.key == e.key && x.id == e.id);
      MultiplesAre(m, live, x);
      MatchedBy(ys, e, x);
    }
    IdsInject(xs, ys);
  }

  lemma NoFewerRestored(m: Machine)
    requires Persisted(m, true)
    ensures multiset(Pairs(Multiples(m, Live(m)))) <= multiset(Pairs(Many(QueueEvents(Restart(m.tree)))))
    ensures forall e :: e in Live(m) && MustSurvive(m, e) ==>
              exists x :: x in QueueEvents(Restart(m.tree)) && x.code == e.code
  {
    var live, restored := Live(m), QueueEvents(Restart(m.tree));
    LiveRestored(m, live, restored);
    hide Persisted, Restart, Live, Pairs;
    forall e | e in live && MustSurvive(m, e)
      ensures exists x :: x in restored && x.code == e.code && (e.code >= 12 ==> x.key == e.key && x.id == e.id)
    {
      assert Matched(restored, e);
      var i :| 0 <= i < |restored| && StandsFor(restored[i], e.code, e.key, e.id, []);
      assert restored[i] in restored;
    }
    var many := Multiples(m, live);
    MultiplesDistinct(m, live);
    forall i | 0 <= i < |many| ensures Matched(Many(restored), many[i]) && !Single(many[i].code) {
      assert many[i] in many;
      var x :| x in restored && x.code == many[i].code && x.key == many[i].key && x.id == many[i].id;
      MatchedBy(Many(restored), many[i], x);
    }
    hide Matched;
    IdsInject(many, Many(restored));
  }

  // In every run from an empty backup, a stop at any step boundary and a restart bring back exactly
  // the saved events still queued or being sent: the MULTIPLE ones each as often, with its key, and
  // of the others the same codes.
  lemma RunRestoresExactly(ops: seq<Op>)
    requires Run(ops).created <= MAX_INT_ID
    ensures var m := Run(ops);
            var live, restored := Live(m), QueueEvents(Restart(m.tree));
            && multiset(Pairs(Many(restored))) == multiset(Pairs(Multiples(m, live)))
            && (forall e :: e in live && MustSurvive(m, e) ==> exists x :: x in restored && x.code == e.code)
            && forall e :: e in restored ==> exists x :: x in live && MustSurvive(m, x) && x.code == e.code
  {
    RunPersisted(ops);
    RunTied(ops);
    RunRetried(ops);
    var m := Run(ops);
    assert RecordsOk(m.tree, MAX_INT_ID);
    RestoredDistinct(m.tree);
    AccountedFor(m);
    hide Persisted, Tied, RetriedCodes, Run, Restart, Live, Pairs, RecordsOk, DistinctIds, MustSurvive;
    NoMoreMany(m, Live(m), QueueEvents(Restart(m.tree)));
    NoFewerRestored(m);
  }
}
