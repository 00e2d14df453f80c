/** Runs that follow a restart. A reloaded container keeps the id of its record while the counter of
    ids starts over, so a later container can get the id of a record that is still there. */
module SessionRestart {
  import opened Options
  import opened ParamList
  import opened Session
  import opened SessionBackup

  // ---- what a restart loads ----

  // e was loaded from r.
  predicate LoadedFrom(e: Event, r: Saved) {
    r.id == e.id && r.code == e.code && (!Single(e.code) ==> r.key == e.key)
  }

  ghost predicate HasSource(e: Event, records: seq<Saved>) {
    exists k :: 0 <= k < |records| && LoadedFrom(e, records[k])
  }

  ghost predicate AllLoaded(events: seq<Event>, records: seq<Saved>) {
    DistinctIds(events) && forall i :: 0 <= i < |events| ==> HasSource(events[i], records)
  }

  ghost predicate DistinctRecords(records: seq<Saved>) {
    forall i, j :: 0 <= i < j < |records| ==> records[i].id != records[j].id
  }

  lemma SourceKept(e: Event, records: seq<Saved>, r: Saved)
    requires HasSource(e, records)
    ensures HasSource(e, records + [r])
  {
    var k :| 0 <= k < |records| && LoadedFrom(e, records[k]);
    assert (records + [r])[k] == records[k];
  }

  lemma LoadRecordLoads(m: Machine, done: seq<Saved>, r: Saved)
    requires Structured(m) && AllLoaded(QueueEvents(m), done) && DistinctRecords(done + [r])
    ensures Structured(LoadRecord(m, r)) && AllLoaded(QueueEvents(LoadRecord(m, r)), done + [r])
  {
    var events := QueueEvents(m);
    forall i | 0 <= i < |events| ensures HasSource(events[i], done + [r]) && events[i].id != r.id {
      SourceKept(events[i], done, r);
      var k :| 0 <= k < |done| && LoadedFrom(events[i], done[k]);
      assert (done + [r])[k] == done[k] && (done + [r])[|done|] == r;
    }
    if RetryAfterReboot(r.code) {
      AddEventStructured(m, r.code, r.key);
      var _, i, added, e := Loading(m, r);
      assert LoadedFrom(e, (done + [r])[|done|]);
      hide LoadRecord, LoadedFrom, HasSource, DistinctRecords;
      Placed(events, added, i, e, done + [r]);
    }
  }

  lemma Placed(events: seq<Event>, added: seq<Event>, i: nat, e: Event, records: seq<Saved>)
    requires i < |added| && DistinctIds(events) && HasSource(e, records)
    requires forall k :: 0 <= k < |events| ==> HasSource(events[k], records) && events[k].id != e.id
    requires added == events || (i <= |events| && added == events[..i] + [added[i]] + events[i..])
    ensures AllLoaded(added[i := e], records)
  {
    hide HasSource;
    var t := added[i := e];
    if added != events {
      assert forall k :: 0 <= k < |t| && k != i ==> t[k] == events[if k < i then k else k - 1];
    }
  }

  // LoadAll leaves the backup alone, and counts the containers it makes.
  lemma LoadRecordCounts(m: Machine, r: Saved)
    requires Structured(m) && m.lastId == m.created < MAX_INT_ID
    ensures var l := LoadRecord(m, r);
            && l.tree == m.tree && l.saved == m.saved && l.send == m.send
            && l.lastId == l.created && m.created <= l.created <= m.created + 1
  {
    hide AddTo, AddNames, Structured;
  }

  lemma {:induction false} LoadAllLoads(m: Machine, done: seq<Saved>, records: seq<Saved>)
    requires Structured(m) && m.send.None? && m.lastId == m.created && m.created + |records| <= MAX_INT_ID
    requires AllLoaded(QueueEvents(m), done) && DistinctRecords(done + records)
    ensures var l := LoadAll(m, records);
            && l.tree == m.tree && l.saved == m.saved && l.send.None?
            && l.lastId == l.created <= m.created + |records|
            && Structured(l) && AllLoaded(QueueEvents(l), done + records)
    decreases |records|
  {
    assert HeadOk(m);
    hide Structured, AllLoaded, LoadRecord;
    if records == [] {
      assert done + records == done;
    } else {
      assert done + records == (done + [records[0]]) + records[1..];
      assert DistinctRecords(done + [records[0]]) by {
        assert forall k :: 0 <= k <= |done| ==> (done + [records[0]])[k] == (done + records)[k];
      }
      hide DistinctRecords;
      LoadRecordLoads(m, done, records[0]);
      LoadRecordCounts(m, records[0]);
      LoadAllLoads(LoadRecord(m, records[0]), done + [records[0]], records[1..]);
    }
  }

  // With distinct ids, there are no more records than ids.
  lemma {:induction false} FewRecords(tree: seq<Saved>, n: nat)
    requires RecordsOk(tree, n)
    ensures |tree| <= n
    decreases n
  {
    if tree != [] {
      assert 1 <= tree[0].id <= n;
      if k :| 0 <= k < |tree| && tree[k].id == n {
        RemoveAt(tree, k, n);
        var t := tree[..k] + tree[k + 1..];
        forall i | 0 <= i < |t| ensures t[i].id != n {
          assert t[i] in t;
        }
        FewRecords(t, n - 1);
      } else {
        FewRecords(tree, n - 1);
      }
    }
  }

  lemma RestartLoads(tree: seq<Saved>)
    requires RecordsOk(tree, MAX_INT_ID)
    ensures var m := Restart(tree);
            && m.tree == MarkAll(tree, true) && m.send.None? && m.lastId == m.created <= MAX_INT_ID
            && AllLoaded(QueueEvents(m), m.tree)
            && forall id :: id in m.saved <==> exists r :: r in tree && r.id == id
  {
    FewRecords(tree, MAX_INT_ID);
    var marked := MarkAll(tree, true);
    assert [] + marked == marked;
    LoadAllLoads(Unloaded(tree), [], marked);
  }

  // ---- restarts that are safe for whatever comes after ----

  // No record has an id that the counter is yet to reach.
  predicate IdsCounted(tree: seq<Saved>) {
    forall i :: 0 <= i < |tree| ==> tree[i].id <= Restart(tree).lastId
  }

  // A stop and a restart here bring every saved live container back.
  ghost predicate Safe(m: Machine) {
    forall e :: (e in QueueEvents(m) || e in SendEvents(m)) && MustSurvive(m, e) ==>
        Matched(QueueEvents(Restart(m.tree)), e)
  }

  lemma PersistedIsSafe(m: Machine)
    requires Persisted(m, false)
    ensures Safe(m)
  {
    forall e | (e in QueueEvents(m) || e in SendEvents(m)) && MustSurvive(m, e)
      ensures Matched(QueueEvents(Restart(m.tree)), e)
    {
      RestartRestores(m, e, false);
    }
  }

  lemma LoadedIsRecorded(e: Event, tree: seq<Saved>, lastId: nat)
    requires RecordsOk(tree, lastId) && HasSource(e, tree) && forall r :: r in tree ==> r.queued
    ensures Agrees(e, tree, true) && Recorded(e, tree, false) && 1 <= e.id <= lastId
  {
    var k :| 0 <= k < |tree| && LoadedFrom(e, tree[k]);
    assert tree[k] in tree;
    forall r | r in tree && r.id == e.id ensures r == tree[k] {
      var j :| 0 <= j < |tree| && tree[j] == r;
    }
  }

  lemma RestartPersisted(tree: seq<Saved>)
    requires RecordsOk(tree, MAX_INT_ID) && IdsCounted(tree)
    ensures Persisted(Restart(tree), false)
  {
    RestartLoads(tree);
    var m := Restart(tree);
    assert RecordsOk(m.tree, m.lastId) && forall r :: r in m.tree ==> r.queued;
    var events := QueueEvents(m);
    hide RecordsOk, HasSource, Agrees, Recorded, Restart, IdsCounted;
    forall i | 0 <= i < |events|
      ensures Agrees(events[i], m.tree, true) && Recorded(events[i], m.tree, false) && 1 <= events[i].id <= m.lastId
    {
      LoadedIsRecorded(events[i], m.tree, m.lastId);
    }
    forall id | id in m.saved ensures id <= m.lastId {
      SavedIsCounted(tree, id);
    }
    assert SendEvents(m) == [];
    hide Structured;
    assert Structured(m);
  }

  lemma SavedIsCounted(tree: seq<Saved>, id: nat)
    requires IdsCounted(tree) && exists r :: r in tree && r.id == id
    ensures id <= Restart(tree).lastId
  {
    var r :| r in tree && r.id == id;
    var k :| 0 <= k < |tree| && tree[k] == r;
  }

  // ---- restarts that are not ----

  lemma AddCounts(m: Machine, key: string)
    requires Structured(m)
    ensures var l := AddEvent(m, 14, key);
            && l.lastId == NextId(m.lastId) && l.created == m.created + 1 && l.tree == m.tree
            && Event(14, key, [], l.lastId) in QueueEvents(l)
  {
    AddEventShape(m, 14, key);
    var e, events := Event(14, key, [], NextId(m.lastId)), QueueEvents(m);
    assert events == Current(WithQueue(m)).events;
    assert AddTo(events, e)[Stop(events, 14, 0)] == e;
  }

  // n new containers advance the counter by n.
  lemma {:induction false} CountUp(m: Machine, first: seq<Op>, n: nat) returns (ops: seq<Op>)
    requires Structured(m) && RunFrom(m, first).lastId + n <= MAX_INT_ID
    ensures var f, l := RunFrom(m, first), RunFrom(m, ops);
      l.lastId == f.lastId + n && l.created == f.created + n && l.tree == f.tree
  {
    if n == 0 {
      ops := first;
    } else {
      var before := CountUp(m, first, n - 1);
      ops := before + [Add(14, "")];
      RunFromAppend(m, before, Add(14, ""));
      AddCounts(RunFrom(m, before), "");
    }
  }

  lemma RunFromAppend(m: Machine, ops: seq<Op>, op: Op)
    requires Structured(m)
    ensures RunFrom(m, ops + [op]) == Step(RunFrom(m, ops), op)
  {
    assert (ops + [op])[..|ops|] == ops;
  }

  // A key that no record has.
  function NewKey(tree: seq<Saved>): (key: string)
    ensures forall i :: 0 <= i < |tree| ==> tree[i].key != key
  {
    LongKey(tree)
  }

  function LongKey(tree: seq<Saved>): (key: string)
    ensures forall i :: 0 <= i < |tree| ==> |tree[i].key| < |key|
  {
    if tree == [] then "" else
      var rest := LongKey(tree[1..]);
      assert forall i :: 0 < i < |tree| ==> tree[i] == tree[1..][i - 1];
      rest + tree[0].key + "k"
  }

  ghost predicate SameKeys(a: seq<Saved>, b: seq<Saved>) {
    |a| == |b| && forall k :: 0 <= k < |a| ==> a[k].id == b[k].id && a[k].key == b[k].key
  }

  // A container whose id is on a record adds none of its own when it is saved.
  lemma CollidingRecord(tree: seq<Saved>, e: Event)
    requires RetryAfterReboot(e.code) && tree != [] && tree[0].queued
    requires exists k :: 0 <= k < |tree| && tree[k].id == e.id
    ensures SameKeys(SaveRecord(tree, e), tree)
  {
    assert FirstOf(tree, true, 0) == 0;
  }

  lemma CollidingSave(m: Machine, key: string)
    requires Structured(m)
    requires m.tree != [] && m.tree[0].queued && exists k :: 0 <= k < |m.tree| && m.tree[k].id == NextId(m.lastId)
    ensures var l, e := Step(m, AddAndSave(14, key, [], false)), Event(14, key, [], NextId(m.lastId));
            && l.created == m.created + 1 && SameKeys(l.tree, m.tree)
            && e in QueueEvents(l) && MustSurvive(l, e)
  {
    AddEventStructured(m, 14, key);
    AddEventShape(m, 14, key);
    var e, events := Event(14, key, [], NextId(m.lastId)), QueueEvents(m);
    assert events == Current(WithQueue(m)).events;
    var i := Stop(events, 14, 0);
    var added := AddEvent(m, 14, key);
    AddCounts(m, key);
    assert Current(added).events[i] == e;
    CollidingRecord(m.tree, e);
    hide AddEvent, SaveRecord, WithQueue;
    var l := AddSaved(m, 14, key, [], false);
    assert QueueEvents(l)[i] == e;
  }

  // What no record names is not restored.
  lemma NewKeyIsLost(m: Machine, e: Event)
    requires RecordsOk(m.tree, MAX_INT_ID) && e in QueueEvents(m) && MustSurvive(m, e) && !Single(e.code)
    requires forall k :: 0 <= k < |m.tree| ==> m.tree[k].key != e.key
    ensures !Safe(m)
  {
    RestartLoads(m.tree);
    var events, marked := QueueEvents(Restart(m.tree)), MarkAll(m.tree, true);
    hide Restart, RecordsOk, Structured;
    forall i | 0 <= i < |events| && !Single(events[i].code) ensures events[i].key != e.key {
      var k :| 0 <= k < |marked| && LoadedFrom(events[i], marked[k]);
    }
  }

  // So a run is not safe whose last step saves a container with the id of an old record.
  lemma CollisionLoses(m: Machine, before: seq<Op>, key: string)
    requires Structured(m)
    requires var n := RunFrom(m, before);
      && RecordsOk(n.tree, MAX_INT_ID) && n.tree != [] && n.tree[0].queued
      && (exists k :: 0 <= k < |n.tree| && n.tree[k].id == NextId(n.lastId))
      && forall k :: 0 <= k < |n.tree| ==> n.tree[k].key != key
    ensures var l := RunFrom(m, before + [AddAndSave(14, key, [], false)]);
      l.created == RunFrom(m, before).created + 1 && !Safe(l)
  {
    var n := RunFrom(m, before);
    assert Structured(n);
    RunFromAppend(m, before, AddAndSave(14, key, [], false));
    hide RunFrom, Structured, AddSaved, RecordsOk, Step, Safe;
    CollidingSave(n, key);
    var l := RunFrom(m, before + [AddAndSave(14, key, [], false)]);
    SameKeysOk(l.tree, n.tree);
    NewKeyIsLost(l, Event(14, key, [], NextId(n.lastId)));
  }

  lemma RestartLoses(tree: seq<Saved>) returns (ops: seq<Op>)
    requires RecordsOk(tree, MAX_INT_ID) && !IdsCounted(tree)
    ensures RunFrom(Restart(tree), ops).created <= MAX_INT_ID && !Safe(RunFrom(Restart(tree), ops))
  {
    var m := Restart(tree);
    var k := Uncounted(tree);
    assert Structured(m) && RunFrom(m, []) == m;
    var key := NewKey(m.tree);
    hide Restart, RunFrom, RecordsOk, Structured, Safe;
    var before := CountUp(m, [], tree[k].id - m.lastId - 1);
    assert RunFrom(m, before).tree[k].id == NextId(RunFrom(m, before).lastId);
    CollisionLoses(m, before, key);
    ops := before + [AddAndSave(14, key, [], false)];
  }

  lemma SameKeysOk(a: seq<Saved>, b: seq<Saved>)
    requires SameKeys(a, b) && RecordsOk(b, MAX_INT_ID)
    ensures RecordsOk(a, MAX_INT_ID)
  {
  }

  lemma Uncounted(tree: seq<Saved>) returns (k: nat)
    requires RecordsOk(tree, MAX_INT_ID) && !IdsCounted(tree)
    ensures var m := Restart(tree);
            && m.lastId == m.created && RecordsOk(m.tree, MAX_INT_ID)
            && |m.tree| == |tree| && m.tree[0].queued
            && k < |tree| && m.lastId < tree[k].id == m.tree[k].id <= MAX_INT_ID
  {
    RestartLoads(tree);
    k :| 0 <= k < |tree| && tree[k].id > Restart(tree).lastId;
  }

  // After a restart every continuation keeps what it saves, at every step boundary, exactly when
  // no record has an id that the counter is yet to reach.
  lemma RestartSafeIff(tree: seq<Saved>)
    requires RecordsOk(tree, MAX_INT_ID)
    ensures IdsCounted(tree)
       <==> forall ops :: RunFrom(Restart(tree), ops).created <= MAX_INT_ID ==> Safe(RunFrom(Restart(tree), ops))
  {
    if IdsCounted(tree) {
      RestartPersisted(tree);
      forall ops | RunFrom(Restart(tree), ops).created <= MAX_INT_ID ensures Safe(RunFrom(Restart(tree), ops)) {
        RunFromPersisted(Restart(tree), ops, false);
        PersistedIsSafe(RunFrom(Restart(tree), ops));
      }
    } else {
      var ops := RestartLoses(tree);
    }
  }

  // The backup of every run from an empty one is such a file.
  lemma RunRestartIff(ops: seq<Op>)
    requires Run(ops).created <= MAX_INT_ID
    ensures var m := Restart(Run(ops).tree);
            (IdsCounted(Run(ops).tree)
             <==> forall more :: RunFrom(m, more).created <= MAX_INT_ID ==> Safe(RunFrom(m, more)))
  {
    RunPersisted(ops);
    RestartSafeIff(Run(ops).tree);
  }

  // ---- runs without a restart ----

  // Once the counter has gone round, a new container can get the id of an old record.
  lemma WrappedLoses() returns (ops: seq<Op>)
    ensures Run(ops).created == MAX_INT_ID + 1 && !Safe(Run(ops))
  {
    OneSaved();
    hide RunFrom, Structured, Safe;
    var before := CountUp(START, [AddAndSave(14, "a", [], false)], MAX_INT_ID - 1);
    assert RunFrom(START, before).tree[0].id == NextId(RunFrom(START, before).lastId);
    CollisionLoses(START, before, "b");
    ops := before + [AddAndSave(14, "b", [], false)];
  }

  lemma OneSaved()
    ensures var m := RunFrom(START, [AddAndSave(14, "a", [], false)]);
      Structured(START) && m.tree == [Saved(true, 14, 1, "a", [])] && m.lastId == m.created == 1
  {
    RunFromAppend(START, [], AddAndSave(14, "a", [], false));
    assert [] + [AddAndSave(14, "a", [], false)] == [AddAndSave(14, "a", [], false)];
    assert RunFrom(START, []) == START;
    assert AddTo([], Event(14, "a", [], 1)) == [Event(14, "a", [], 1)];
    assert [Event(14, "a", [], 1)][0 := Event(14, "a", [], 1)] == [Event(14, "a", [], 1)];
  }

  // The runs that make at most n containers are all safe exactly when there are n ids.
  lemma RunSafeIff(n: nat)
    ensures n <= MAX_INT_ID <==> forall ops :: Run(ops).created <= n ==> Safe(Run(ops))
  {
    if n <= MAX_INT_ID {
      forall ops | Run(ops).created <= n ensures Safe(Run(ops)) {
        RunPersisted(ops);
        var m := Run(ops);
        LiveRestored(m, QueueEvents(m) + SendEvents(m), QueueEvents(Restart(m.tree)));
      }
    } else {
      var ops := WrappedLoses();
    }
  }

  // ---- a run whose restart is not safe ----

  // A save leaves a record of its own container exactly when its search finds nothing, or such
  // a record is there already.
  lemma SaveRecordsIff(tree: seq<Saved>, e: Event)
    requires RetryAfterReboot(e.code)
    ensures (exists r :: r in SaveRecord(tree, e) && r.id == e.id && r.code == e.code && r.key == e.key)
       <==> (FindSaved(tree, true, e.id).None?
             || exists r :: r in tree && r.id == e.id && r.code == e.code && r.key == e.key)
  {
    var t := SaveRecord(tree, e);
    match FindSaved(tree, true, e.id)
    case None =>
      assert Saved(true, e.code, e.id, e.key, Names(e.params)) in t;
    case Some(j) =>
      if r :| r in t && r.id == e.id && r.code == e.code && r.key == e.key {
        var k :| 0 <= k < |t| && t[k] == r;
        assert tree[k] in tree && tree[k].id == e.id && tree[k].code == e.code && tree[k].key == e.key;
      }
      if r :| r in tree && r.id == e.id && r.code == e.code && r.key == e.key {
        var k :| 0 <= k < |tree| && tree[k] == r;
        assert t[k] in t && t[k].id == e.id && t[k].code == e.code && t[k].key == e.key;
      }
  }

  const LEFT_OVER := Saved(true, 3, 2, "", [])

  lemma RunAppend(ops: seq<Op>, op: Op)
    ensures Run(ops + [op]) == Step(Run(ops), op)
  {
    assert (ops + [op])[..|ops|] == ops;
  }

  const SENDING := Session([Event(2, "", [], 1)], [INFORM_RPC], [])

  lemma FirstSave()
    ensures Step(START, AddAndSave(2, "", [], false))
         == Machine([SENDING], Some(0), None, 1, [Saved(true, 2, 1, "", [])], 0, false, 1, {1})
  {
    assert AddTo([], Event(2, "", [], 1)) == [Event(2, "", [], 1)];
    assert [Event(2, "", [], 1)][0 := Event(2, "", [], 1)] == [Event(2, "", [], 1)];
  }

  lemma SecondSave(m: Machine)
    requires m == Machine([], None, Some(SENDING), 1, [Saved(false, 2, 1, "", [])], 0, false, 1, {1})
    ensures Step(m, AddAndSave(3, "", [], false)).tree == [Saved(false, 2, 1, "", []), LEFT_OVER]
    ensures Step(m, AddAndSave(3, "", [], false)).send == Some(SENDING)
  {
    assert AddTo([], Event(3, "", [], 2)) == [Event(3, "", [], 2)];
    assert FindSaved(m.tree, true, 2) == None;
  }

  lemma FirstReported(m: Machine)
    requires HeadOk(m) && (m.head.None? ==> m.queue == [])
    requires m.send == Some(SENDING) && m.tree == [Saved(false, 2, 1, "", []), LEFT_OVER]
    ensures Step(m, Acknowledge).tree == [LEFT_OVER]
  {
    assert FindSaved(m.tree, false, 1) == Some(0);
    assert DeleteRecord(m.tree, 1, false) == [LEFT_OVER];
    assert SENDING.events[1..] == [];
  }

  // The run that reports one event and saves another while it does leaves one record, with id 2.
  lemma RunLeavesRecord()
    ensures Run([AddAndSave(2, "", [], false), StartSession, AddAndSave(3, "", [], false), Acknowledge]).tree
      == [LEFT_OVER]
  {
    hide AddSaved, DeleteRecords;
    RunAppend([], AddAndSave(2, "", [], false));
    FirstSave();
    var one := [AddAndSave(2, "", [], false)];
    assert [] + one == one;
    RunAppend(one, StartSession);
    var two := one + [StartSession];
    assert MarkAll([Saved(true, 2, 1, "", [])], false) == [Saved(false, 2, 1, "", [])];
    RunAppend(two, AddAndSave(3, "", [], false));
    SecondSave(Run(two));
    var three := two + [AddAndSave(3, "", [], false)];
    RunAppend(three, Acknowledge);
    FirstReported(Run(three));
    assert three + [Acknowledge]
      == [AddAndSave(2, "", [], false), StartSession, AddAndSave(3, "", [], false), Acknowledge];
  }

  lemma LoadOne(m: Machine, r: Saved)
    requires HeadOk(m)
    ensures LoadAll(m, [r]) == LoadRecord(m, r)
  {
    assert [r][1..] == [];
    assert LoadAll(LoadRecord(m, r), []) == LoadRecord(m, r);
  }

  lemma RestartedLeftOver()
    ensures Restart([LEFT_OVER])
         == Machine([Session([Event(3, "", [], 2)], [INFORM_RPC], [])], Some(0), None, 1, [LEFT_OVER], 0, false, 1, {2})
  {
    assert MarkAll([LEFT_OVER], true) == [LEFT_OVER];
    LoadOne(Unloaded([LEFT_OVER]), LEFT_OVER);
    assert AddTo([], Event(3, "", [], 1)) == [Event(3, "", [], 1)];
    assert [Event(3, "", [], 1)][0 := Event(3, "", [], 2)] == [Event(3, "", [], 2)];
  }

  // Restarted from there, the counter stands at 1 while the loaded container keeps id 2: the
  // next container gets id 2 as well, its save adds no record, and a second restart loses it.
  lemma SecondRunLoses(key: string)
    ensures var second := AddSaved(Restart([LEFT_OVER]), 14, key, [], false);
            && Event(14, key, [], 2) in QueueEvents(second) && MustSurvive(second, Event(14, key, [], 2))
            && QueueEvents(Restart(second.tree)) == [Event(3, "", [], 2)]
  {
    RestartedLeftOver();
    var x := Event(14, key, [], 2);
    assert AddTo([Event(3, "", [], 2)], x) == [Event(3, "", [], 2), x];
    assert FindSaved([LEFT_OVER], true, 2) == Some(0);
    var second := AddSaved(Restart([LEFT_OVER]), 14, key, [], false);
    assert QueueEvents(second)[1] == x;
    assert LEFT_OVER.params + Names([]) == LEFT_OVER.params;
    assert second.tree == [LEFT_OVER];
  }
}
