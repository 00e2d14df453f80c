/** What the persisted backup keeps of a run of the session machine, and what a restart restores. */
module SessionBackup {
  import opened Options
  import opened ParamList
  import opened Session

  // ---- the invariant that ties the backup to the live containers ----

  // The invariant comes in two strengths. In runs from an empty backup it is full: containers of
  // one code stand in the order of their ids, and a record names every parameter of its container.
  // After a restart it is not.

  ghost predicate Covers(names: seq<string>, params: seq<Param>) {
    forall i :: 0 <= i < |params| ==> params[i].name in names
  }

  ghost predicate RecordsOk(tree: seq<Saved>, lastId: nat) {
    && (forall i :: 0 <= i < |tree| ==> 1 <= tree[i].id <= lastId)
    && (forall i, j :: 0 <= i < j < |tree| ==> tree[i].id != tree[j].id)
  }

  ghost predicate IdsOk(events: seq<Event>, lastId: nat, full: bool) {
    && (forall i :: 0 <= i < |events| ==> 1 <= events[i].id <= lastId)
    && (forall i, j :: 0 <= i < j < |events| ==>
          events[i].id != events[j].id && (full && events[i].code == events[j].code ==> events[i].id < events[j].id))
  }

  // A record with the id of e has the given status and the code of e, and for MULTIPLE events its key.
  ghost predicate Agrees(e: Event, tree: seq<Saved>, queued: bool) {
    forall r :: r in tree && r.id == e.id ==>
      r.queued == queued && r.code == e.code && (!Single(e.code) ==> r.key == e.key)
  }

  ghost predicate Recorded(e: Event, tree: seq<Saved>, full: bool) {
    exists r :: r in tree && r.id == e.id && (full ==> Covers(r.params, e.params))
  }

  ghost predicate Owned(events: seq<Event>, tree: seq<Saved>, saved: set<nat>, queued: bool, full: bool) {
    forall i :: 0 <= i < |events| ==>
      && Agrees(events[i], tree, queued)
      && (events[i].id in saved && RetryAfterReboot(events[i].code) ==> Recorded(events[i], tree, full))
  }

  ghost predicate Apart(a: seq<Event>, b: seq<Event>) {
    forall i, j :: 0 <= i < |a| && 0 <= j < |b| ==> a[i].id != b[j].id
  }

  function QueueEvents(m: Machine): seq<Event> {
    if m.queue == [] then [] else m.queue[0].events
  }

  function SendEvents(m: Machine): seq<Event> {
    if m.send.None? then [] else m.send.value.events
  }

  // The state with 'out' as the containers of the session being sent.
  ghost predicate PersistedWith(m: Machine, out: seq<Event>, full: bool) {
    && Structured(m)
    && m.lastId == m.created
    && (forall id :: id in m.saved ==> id <= m.lastId)
    && RecordsOk(m.tree, m.lastId)
    && IdsOk(QueueEvents(m), m.lastId, full) && IdsOk(out, m.lastId, full)
    && Apart(QueueEvents(m), out)
    && Owned(QueueEvents(m), m.tree, m.saved, true, full)
    && Owned(out, m.tree, m.saved, false, full)
  }

  ghost predicate Persisted(m: Machine, full: bool) {
    Structured(m) && PersistedWith(m, SendEvents(m), full)
  }

  // ---- the edits of the backup ----

  // With the id on at most one record, the search finds it under the status it has.
  lemma FindExact(tree: seq<Saved>, lastId: nat, queued: bool, id: nat)
    requires RecordsOk(tree, lastId)
    requires forall r :: r in tree && r.id == id ==> r.queued == queued
    ensures FindSaved(tree, queued, id).None? ==> forall r :: r in tree ==> r.id != id
    ensures FindSaved(tree, queued, id).Some? ==> tree[FindSaved(tree, queued, id).value].queued == queued
  {
    if FindSaved(tree, queued, id).None? {
      forall r | r in tree ensures r.id != id {
        var k :| 0 <= k < |tree| && tree[k] == r;
      }
    }
  }

  lemma ReplaceAt(tree: seq<Saved>, j: nat, r: Saved, lastId: nat)
    requires RecordsOk(tree, lastId) && j < |tree| && r.id == tree[j].id
    ensures RecordsOk(tree[j := r], lastId)
    ensures forall x :: x in tree[j := r] <==> x == r || (x in tree && x.id != r.id)
  {
    var t := tree[j := r];
    forall x ensures x in t <==> x == r || (x in tree && x.id != r.id) {
      if x in t && x != r {
        var k :| 0 <= k < |t| && t[k] == x;
        assert k != j && tree[k] == x;
      }
      if x in tree && x.id != r.id {
        var k :| 0 <= k < |tree| && tree[k] == x;
        assert t[k] == x;
      }
      assert t[j] == r;
    }
  }

  lemma RemoveAt(tree: seq<Saved>, j: nat, lastId: nat)
    requires RecordsOk(tree, lastId) && j < |tree|
    ensures RecordsOk(tree[..j] + tree[j + 1..], lastId)
    ensures forall x :: x in tree[..j] + tree[j + 1..] <==> x in tree && x.id != tree[j].id
  {
    RemovedOk(tree, j, tree[..j] + tree[j + 1..], lastId);
    forall x ensures x in tree[..j] + tree[j + 1..] <==> x in tree && x.id != tree[j].id {
      hide RecordsOk;
      RemovedMember(tree, j, x, lastId);
    }
  }

  lemma RemovedOk(tree: seq<Saved>, j: nat, t: seq<Saved>, lastId: nat)
    requires RecordsOk(tree, lastId) && j < |tree| == |t| + 1
    requires forall k :: 0 <= k < |t| ==> t[k] == tree[if k < j then k else k + 1]
    ensures RecordsOk(t, lastId)
  {
  }

  lemma RemovedMember(tree: seq<Saved>, j: nat, x: Saved, lastId: nat)
    requires RecordsOk(tree, lastId) && j < |tree|
    ensures x in tree[..j] + tree[j + 1..] <==> x in tree && x.id != tree[j].id
  {
    assert tree == tree[..j] + [tree[j]] + tree[j + 1..];
    if x in tree[..j] {
      var k :| 0 <= k < j && tree[..j][k] == x;
      assert tree[k] == x;
    }
    if x in tree[j + 1..] {
      var k :| 0 <= k < |tree| - j - 1 && tree[j + 1..][k] == x;
      assert tree[j + 1 + k] == x;
    }
  }

  lemma SaveRecordMeans(tree: seq<Saved>, e: Event, lastId: nat, full: bool)
    requires RecordsOk(tree, lastId) && 1 <= e.id <= lastId && Agrees(e, tree, true)
    ensures RecordsOk(SaveRecord(tree, e), lastId)
    ensures forall r: Saved :: r.id != e.id ==> (r in SaveRecord(tree, e) <==> r in tree)
    ensures Agrees(e, SaveRecord(tree, e), true)
    ensures RetryAfterReboot(e.code) ==> Recorded(e, SaveRecord(tree, e), full)
  {
    if RetryAfterReboot(e.code) {
      FindExact(tree, lastId, true, e.id);
      match FindSaved(tree, true, e.id)
      case None =>
        var r := Saved(true, e.code, e.id, e.key, Names(e.params));
        assert r in tree + [r] && Covers(r.params, e.params);
      case Some(j) =>
        var r := tree[j].(params := tree[j].params + Names(e.params));
        assert tree[j] in tree;
        ReplaceAt(tree, j, r, lastId);
        CoversAppended(tree[j].params, e.params);
    }
  }

  lemma CoversAppended(names: seq<string>, params: seq<Param>)
    ensures Covers(names + Names(params), params)
  {
    forall i | 0 <= i < |params| ensures params[i].name in names + Names(params) {
      assert Names(params)[i] == params[i].name;
    }
  }

  lemma DeleteRecordMeans(tree: seq<Saved>, id: nat, queued: bool, lastId: nat)
    requires RecordsOk(tree, lastId)
    requires forall r :: r in tree && r.id == id ==> r.queued == queued
    ensures RecordsOk(DeleteRecord(tree, id, queued), lastId)
    ensures forall r :: r in DeleteRecord(tree, id, queued) <==> r in tree && r.id != id
  {
    hide RecordsOk;
    FindExact(tree, lastId, queued, id);
    match FindSaved(tree, queued, id)
    case None =>
      assert DeleteRecord(tree, id, queued) == tree;
    case Some(j) =>
      assert tree[j] in tree;
      RemoveAt(tree, j, lastId);
  }

  lemma {:induction false} DeleteRecordsMeans(tree: seq<Saved>, events: seq<Event>, queued: bool, lastId: nat)
    requires RecordsOk(tree, lastId)
    requires forall i :: 0 <= i < |events| ==> Agrees(events[i], tree, queued)
    ensures RecordsOk(DeleteRecords(tree, events, queued), lastId)
    ensures forall r :: r in DeleteRecords(tree, events, queued) <==>
              r in tree && forall i :: 0 <= i < |events| ==> events[i].id != r.id
    decreases |events|
  {
    if events != [] {
      DeleteRecordMeans(tree, events[0].id, queued, lastId);
      var t := DeleteRecord(tree, events[0].id, queued);
      forall i | 0 <= i < |events[1..]| ensures Agrees(events[1..][i], t, queued) {
        assert Agrees(events[i + 1], tree, queued);
      }
      DeleteRecordsMeans(t, events[1..], queued, lastId);
      forall r: Saved
        ensures (r.id != events[0].id && forall i :: 0 <= i < |events[1..]| ==> events[1..][i].id != r.id)
           <==> forall i :: 0 <= i < |events| ==> events[i].id != r.id
      {
        if forall i :: 0 <= i < |events| ==> events[i].id != r.id {
          forall i | 0 <= i < |events[1..]| ensures events[1..][i].id != r.id {
            assert events[1..][i] == events[i + 1];
          }
        }
        if r.id != events[0].id && forall i :: 0 <= i < |events[1..]| ==> events[1..][i].id != r.id {
          forall i | 0 <= i < |events| ensures events[i].id != r.id {
            if i > 0 { assert events[1..][i - 1] == events[i]; }
          }
        }
      }
    }
  }

  // Containers whose records an edit leaves alone stay owned.
  lemma OwnedElsewhere(events: seq<Event>, tree: seq<Saved>, tree': seq<Saved>, saved: set<nat>, saved': set<nat>,
      queued: bool, full: bool)
    requires Owned(events, tree, saved, queued, full)
    requires forall i :: 0 <= i < |events| ==> (events[i].id in saved' ==> events[i].id in saved)
    requires forall i, r: Saved :: 0 <= i < |events| && r.id == events[i].id ==> (r in tree' <==> r in tree)
    ensures Owned(events, tree', saved', queued, full)
  {
    forall i | 0 <= i < |events|
      ensures Agrees(events[i], tree', queued)
      ensures events[i].id in saved' && RetryAfterReboot(events[i].code) ==> Recorded(events[i], tree', full)
    {
      if events[i].id in saved' && RetryAfterReboot(events[i].code) {
        var r :| r in tree && r.id == events[i].id && (full ==> Covers(r.params, events[i].params));
        assert r in tree';
      }
    }
  }

  lemma OwnedMarked(events: seq<Event>, tree: seq<Saved>, saved: set<nat>, queued: bool, full: bool)
    requires Owned(events, tree, saved, !queued, full)
    ensures Owned(events, MarkAll(tree, queued), saved, queued, full)
  {
    var t := MarkAll(tree, queued);
    forall i | 0 <= i < |events|
      ensures Agrees(events[i], t, queued)
      ensures events[i].id in saved && RetryAfterReboot(events[i].code) ==> Recorded(events[i], t, full)
    {
      forall r | r in t && r.id == events[i].id
        ensures r.queued == queued && r.code == events[i].code && (!Single(r.code) ==> r.key == events[i].key)
      {
        var k :| 0 <= k < |t| && t[k] == r;
        assert tree[k] in tree;
      }
      if events[i].id in saved && RetryAfterReboot(events[i].code) {
        var r :| r in tree && r.id == events[i].id && (full ==> Covers(r.params, events[i].params));
        var k :| 0 <= k < |tree| && tree[k] == r;
        assert t[k] in t;
      }
    }
  }

  lemma {:induction false} OwnedWithoutNoRetry(events: seq<Event>, tree: seq<Saved>, saved: set<nat>, lastId: nat,
      full: bool)
    requires Owned(events, tree, saved, false, full) && IdsOk(events, lastId, full)
    ensures Owned(WithoutNoRetry(events), tree, saved, false, full) && IdsOk(WithoutNoRetry(events), lastId, full)
  {
    if events != [] {
      forall i | 0 <= i < |events[1..]|
        ensures Agrees(events[1..][i], tree, false)
        ensures events[1..][i].id in saved && RetryAfterReboot(events[1..][i].code) ==>
          Recorded(events[1..][i], tree, full)
      {
        assert events[1..][i] == events[i + 1];
      }
      OwnedWithoutNoRetry(events[1..], tree, saved, lastId, full);
      WithoutNoRetryMeans(events[1..]);
      WithoutFirst(events, WithoutNoRetry(events[1..]), lastId, full);
    }
  }

  lemma WithoutFirst(events: seq<Event>, rest: seq<Event>, lastId: nat, full: bool)
    requires events != [] && IdsOk(events, lastId, full) && IdsOk(rest, lastId, full)
    requires forall e :: e in rest ==> e in events[1..]
    ensures IdsOk([events[0]] + rest, lastId, full)
  {
    forall j | 0 <= j < |rest|
      ensures events[0].id != rest[j].id && (full && events[0].code == rest[j].code ==> events[0].id < rest[j].id)
    {
      assert rest[j] in events[1..];
      var k :| 0 <= k < |events[1..]| && events[1..][k] == rest[j];
      assert events[k + 1] == rest[j];
    }
  }

  // ---- every step keeps the invariant ----

  lemma InsertIds(events: seq<Event>, i: nat, e: Event, lastId: nat, full: bool)
    requires IdsOk(events, lastId, full) && i <= |events| && e.id == lastId + 1
    requires forall k :: i <= k < |events| ==> events[k].code > e.code
    ensures IdsOk(events[..i] + [e] + events[i..], lastId + 1, full)
  {
    var t := events[..i] + [e] + events[i..];
    assert forall k :: 0 <= k < |t| ==> t[k] == if k < i then events[k] else if k == i then e else events[k - 1];
  }

  lemma InsertOwned(events: seq<Event>, i: nat, e: Event, out: seq<Event>, tree: seq<Saved>, saved: set<nat>,
      full: bool)
    requires Owned(events, tree, saved, true, full) && Apart(events, out) && i <= |events|
    requires e.id !in saved && (forall r :: r in tree ==> r.id != e.id)
    requires forall j :: 0 <= j < |out| ==> out[j].id != e.id
    ensures Owned(events[..i] + [e] + events[i..], tree, saved, true, full)
    ensures Apart(events[..i] + [e] + events[i..], out)
  {
    var t := events[..i] + [e] + events[i..];
    assert forall k :: 0 <= k < |t| ==> t[k] == if k < i then events[k] else if k == i then e else events[k - 1];
  }

  // The state after cwmp_add_event_container, field by field.
  lemma AddEventFields(m: Machine, code: nat, key: string)
    requires Structured(m) && m.lastId == m.created && AddEvent(m, code, key).created <= MAX_INT_ID
    ensures var a, events, i := AddEvent(m, code, key), QueueEvents(m), Stop(QueueEvents(m), code, 0);
      && a.tree == m.tree && a.saved == m.saved && a.send == m.send && a.lastId == a.created
      && if Existing(events, code) then QueueEvents(a) == events && a.lastId == m.lastId
         else QueueEvents(a) == events[..i] + [Event(code, key, [], m.lastId + 1)] + events[i..]
              && a.lastId == m.lastId + 1
  {
    hide Stop, SortedEvents, InformAtHead, HasInform;
    assert Current(WithQueue(m)).events == QueueEvents(m);
  }

  // A new container: its id is on no record and no other container.
  lemma NewContainer(m: Machine, out: seq<Event>, t: seq<Event>, i: nat, e: Event, full: bool)
    requires PersistedWith(m, out, full) && e.id == m.lastId + 1
    requires !Existing(QueueEvents(m), e.code) && i == Stop(QueueEvents(m), e.code, 0)
    requires t == QueueEvents(m)[..i] + [e] + QueueEvents(m)[i..]
    ensures RecordsOk(m.tree, m.lastId + 1) && IdsOk(t, m.lastId + 1, full) && IdsOk(out, m.lastId + 1, full)
    ensures Apart(t, out) && Owned(t, m.tree, m.saved, true, full)
  {
    Fresh(m, out, QueueEvents(m), i, e, full);
    hide Structured, Owned, IdsOk, Apart, RecordsOk;
    InsertIds(QueueEvents(m), i, e, m.lastId, full);
    InsertOwned(QueueEvents(m), i, e, out, m.tree, m.saved, full);
  }

  lemma AddEventPersisted(m: Machine, out: seq<Event>, code: nat, key: string, full: bool)
    requires PersistedWith(m, out, full) && AddEvent(m, code, key).created <= MAX_INT_ID
    ensures PersistedWith(AddEvent(m, code, key), out, full)
  {
    AddEventStructured(m, code, key);
    AddEventFields(m, code, key);
    PersistedParts(m, out, full);
    var a, events := AddEvent(m, code, key), QueueEvents(m);
    hide Owned, IdsOk, Apart, AddEvent, RecordsOk, QueueEvents, Structured, PersistedWith;
    if !Existing(events, code) {
      NewContainer(m, out, QueueEvents(a), Stop(events, code, 0), Event(code, key, [], m.lastId + 1), full);
    }
    AddedPersisted(m, a, out, full);
  }

  lemma PersistedParts(m: Machine, out: seq<Event>, full: bool)
    requires PersistedWith(m, out, full)
    ensures RecordsOk(m.tree, m.lastId) && Owned(QueueEvents(m), m.tree, m.saved, true, full)
    ensures IdsOk(QueueEvents(m), m.lastId, full) && IdsOk(out, m.lastId, full) && Apart(QueueEvents(m), out)
  {
  }

  lemma AddedPersisted(m: Machine, a: Machine, out: seq<Event>, full: bool)
    requires PersistedWith(m, out, full) && Structured(a) && m.lastId <= a.lastId == a.created
    requires a.tree == m.tree && a.saved == m.saved && RecordsOk(m.tree, a.lastId)
    requires IdsOk(QueueEvents(a), a.lastId, full) && IdsOk(out, a.lastId, full) && Apart(QueueEvents(a), out)
    requires Owned(QueueEvents(a), m.tree, m.saved, true, full)
    ensures PersistedWith(a, out, full)
  {
    hide Owned, IdsOk, Apart, RecordsOk, QueueEvents, Structured;
  }

  lemma Fresh(m: Machine, out: seq<Event>, events: seq<Event>, i: nat, e: Event, full: bool)
    requires PersistedWith(m, out, full) && e.id == m.lastId + 1
    requires SortedEvents(events) && i <= |events| && (i < |events| ==> events[i].code > e.code)
    ensures forall r :: r in m.tree ==> r.id != e.id
    ensures forall j :: 0 <= j < |out| ==> out[j].id != e.id
    ensures RecordsOk(m.tree, m.lastId + 1) && IdsOk(out, m.lastId + 1, full)
    ensures forall k :: i <= k < |events| ==> events[k].code > e.code
  {
    forall r | r in m.tree ensures r.id != e.id {
      var k :| 0 <= k < |m.tree| && m.tree[k] == r;
    }
  }

  // Saving the container at position i, with its parameters extended.
  lemma SaveOwned(events: seq<Event>, i: nat, e: Event, tree: seq<Saved>, t: seq<Saved>, saved: set<nat>, lastId: nat,
      full: bool)
    requires IdsOk(events, lastId, full) && i < |events| && e == events[i].(params := e.params)
    requires Owned(events, tree, saved, true, full)
    requires forall r: Saved :: r.id != e.id ==> (r in t <==> r in tree)
    requires Agrees(e, t, true) && (RetryAfterReboot(e.code) ==> Recorded(e, t, full))
    ensures Owned(events[i := e], t, saved + {e.id}, true, full)
  {
    forall k | 0 <= k < |events| && k != i
      ensures Agrees(events[k], t, true)
      ensures events[k].id in saved + {e.id} && RetryAfterReboot(events[k].code) ==> Recorded(events[k], t, full)
    {
      assert events[k].id != e.id;
      OwnedElsewhere([events[k]], tree, t, saved, saved + {e.id}, true, full);
      assert [events[k]][0] == events[k];
    }
  }

  lemma SaveIds(events: seq<Event>, i: nat, e: Event, out: seq<Event>, lastId: nat, full: bool)
    requires IdsOk(events, lastId, full) && Apart(events, out) && i < |events| && e == events[i].(params := e.params)
    ensures IdsOk(events[i := e], lastId, full) && Apart(events[i := e], out)
    ensures forall j :: 0 <= j < |out| ==> out[j].id != e.id
  {
    assert forall k :: 0 <= k < |events| ==>
        events[i := e][k].id == events[k].id && events[i := e][k].code == events[k].code;
  }

  // Saving the container at position i, with its parameters extended.
  lemma SavePersisted(m: Machine, out: seq<Event>, i: nat, e: Event, full: bool)
    requires PersistedWith(m, out, full) && m.queue != [] && i < |QueueEvents(m)|
    requires e == QueueEvents(m)[i].(params := e.params)
    ensures PersistedWith(m.(queue := [m.queue[0].(events := m.queue[0].events[i := e])],
                             tree := SaveRecord(m.tree, e), saved := m.saved + {e.id}), out, full)
  {
    var events, t, saved := QueueEvents(m), SaveRecord(m.tree, e), m.saved + {e.id};
    assert Agrees(e, m.tree, true) by { assert Agrees(events[i], m.tree, true); }
    assert 1 <= e.id <= m.lastId;
    assert PointsIntoQueue(m) && |m.queue| == 1;
    RewriteStructured(m, i, e.params, t, saved);
    SaveIds(events, i, e, out, m.lastId, full);
    hide Owned, IdsOk, Apart, Agrees, Recorded, RecordsOk, Structured, SaveRecord;
    SaveRecordMeans(m.tree, e, m.lastId, full);
    OwnedElsewhere(out, m.tree, t, m.saved, saved, false, full);
    SaveOwned(events, i, e, m.tree, t, m.saved, m.lastId, full);
  }

  lemma AddSavedPersisted(m: Machine, out: seq<Event>, code: nat, key: string, params: seq<Param>, spliced: bool,
      full: bool)
    requires PersistedWith(m, out, full) && AddSaved(m, code, key, params, spliced).created <= MAX_INT_ID
    ensures PersistedWith(AddSaved(m, code, key, params, spliced), out, full)
  {
    hide PersistedWith;
    AddEventPersisted(m, out, code, key, full);
    var added := AddEvent(m, code, key);
    var i := Stop(Current(WithQueue(m)).events, code, 0);
    var s := Current(added);
    var e := s.events[i].(params := Extended(s.events[i].params, params, spliced));
    OneSession(added, out, full);
    SavePersisted(added, out, i, e, full);
    assert AddSaved(m, code, key, params, spliced) ==
           added.(queue := [s.(events := s.events[i := e])], tree := SaveRecord(added.tree, e),
             saved := added.saved + {e.id});
  }

  lemma OneSession(m: Machine, out: seq<Event>, full: bool)
    requires PersistedWith(m, out, full) && PointsIntoQueue(m)
    ensures |m.queue| == 1 && m.head == Some(0) && QueueEvents(m) == Current(m).events
  {
  }

  // The failed session's events re-added one by one, while its records stay under "send".
  lemma {:induction false} MergeEventsPersisted(m: Machine, out: seq<Event>, events: seq<Event>, full: bool)
    requires PersistedWith(m, out, full) && MergeEvents(m, events).created <= MAX_INT_ID
    ensures PersistedWith(MergeEvents(m, events), out, full)
    decreases |events|
  {
    hide PersistedWith;
    if events != [] {
      var next := AddSaved(m, events[0].code, events[0].key, events[0].params, true);
      MergeCreates(next, events[1..]);
      AddSavedPersisted(m, out, events[0].code, events[0].key, events[0].params, true, full);
      MergeEventsPersisted(next, out, events[1..], full);
    }
  }

  lemma {:induction false} MergeCreates(m: Machine, events: seq<Event>)
    requires HeadOk(m)
    ensures MergeEvents(m, events).created >= m.created
    decreases |events|
  {
    if events != [] {
      MergeCreates(AddSaved(m, events[0].code, events[0].key, events[0].params, true), events[1..]);
    }
  }

  // Deleting the records of 'out' leaves those of the queued containers alone.
  lemma DeleteOutPersisted(m: Machine, out: seq<Event>, full: bool)
    requires PersistedWith(m, out, full)
    ensures PersistedWith(m.(tree := DeleteRecords(m.tree, out, false)), [], full)
  {
    var t := DeleteRecords(m.tree, out, false);
    DeleteRecordsMeans(m.tree, out, false, m.lastId);
    OwnedElsewhere(QueueEvents(m), m.tree, t, m.saved, m.saved, true, full);
  }

  lemma DeleteQueuedPersisted(m: Machine, out: seq<Event>, full: bool)
    requires PersistedWith(m, out, full) && m.queue != []
    ensures PersistedWith(m.(queue := [m.queue[0].(events := [])],
                             tree := DeleteRecords(m.tree, QueueEvents(m), true)), out, full)
  {
    var t := DeleteRecords(m.tree, QueueEvents(m), true);
    DeleteRecordsMeans(m.tree, QueueEvents(m), true, m.lastId);
    OwnedElsewhere(out, m.tree, t, m.saved, m.saved, false, full);
  }

  lemma DestroyedPersisted(m: Machine, s: Session, full: bool)
    requires PersistedWith(m, s.events, full)
    ensures PersistedWith(m.(tree := Destroyed(m.tree, s)), [], full)
  {
    hide PersistedWith;
    if HasInform(s.acs) {
      DeleteOutPersisted(m, s.events, full);
    } else {
      ForgetOut(m, s.events, full);
      assert m.(tree := Destroyed(m.tree, s)) == m;
    }
  }

  lemma ForgetOut(m: Machine, out: seq<Event>, full: bool)
    requires PersistedWith(m, out, full)
    ensures PersistedWith(m, [], full)
  {
  }

  lemma MarkAllOk(tree: seq<Saved>, queued: bool, lastId: nat)
    requires RecordsOk(tree, lastId)
    ensures RecordsOk(MarkAll(tree, queued), lastId)
  {
  }

  lemma StartPersisted(m: Machine, full: bool)
    requires Persisted(m, full) && m.send.None? && m.queue != []
    ensures Persisted(MoveToSend(m), full)
  {
    StepStructured(m, StartSession);
    OwnedMarked(QueueEvents(m), m.tree, m.saved, false, full);
    MarkAllOk(m.tree, false, m.lastId);
  }

  lemma RequeuePersisted(m: Machine, s: Session, full: bool)
    requires PersistedWith(m, s.events, full) && m.queue == [] && Structured(MoveToQueue(m, s))
    ensures PersistedWith(MoveToQueue(m, s), [], full)
  {
    OwnedMarked(s.events, m.tree, m.saved, true, full);
    MarkAllOk(m.tree, true, m.lastId);
  }

  lemma MoreRpcs(m: Machine, out: seq<Event>, acs: seq<Rpc>, full: bool)
    requires PersistedWith(m, out, full) && PointsIntoQueue(m)
    requires Structured(SetCurrent(m, Current(m).(acs := acs)))
    ensures PersistedWith(SetCurrent(m, Current(m).(acs := acs)), out, full)
  {
    hide Structured, RecordsOk, IdsOk, Owned, Apart;
    OneSession(m, out, full);
    assert QueueEvents(SetCurrent(m, Current(m).(acs := acs))) == QueueEvents(m);
  }

  lemma PersistedIsStructured(m: Machine, out: seq<Event>, full: bool)
    requires PersistedWith(m, out, full)
    ensures Structured(m)
  {
  }

  lemma StructuredTree(m: Machine, tree: seq<Saved>)
    requires Structured(m.(tree := tree))
    ensures Structured(m)
  {
  }

  lemma MergedShape(m: Machine, s: Session)
    requires PointsIntoQueue(m) && m.queue != []
    ensures var q := MergeEvents(m.(retries := m.retries + 1, send := None), s.events);
      var c := Current(q);
      var moved := SetCurrent(q, c.(acs := c.acs + Moved(c.acs, s.acs)));
      MoveToQueue(m, s) == moved.(tree := Destroyed(moved.tree, s.(acs := LeftBehind(c.acs, s.acs))))
  {
    hide MergeEvents, Destroyed, Moved, LeftBehind;
  }

  lemma MergePersisted(m: Machine, s: Session, full: bool)
    requires PersistedWith(m, s.events, full) && m.queue != [] && Structured(MoveToQueue(m, s))
    requires MoveToQueue(m, s).created <= MAX_INT_ID
    ensures PersistedWith(MoveToQueue(m, s), [], full)
  {
    var n := m.(retries := m.retries + 1, send := None);
    PersistedIsStructured(m, s.events, full);
    assert Structured(n) && PointsIntoQueue(n);
    MergedShape(m, s);
    hide PersistedWith, Structured, Destroyed, MergeEvents, Moved, LeftBehind, MoveToQueue, HasInform;
    SameParts(m, n, s.events, full);
    var q := MergeEvents(n, s.events);
    MergeEventsPersisted(n, s.events, s.events, full);
    var c := Current(q);
    var moved := SetCurrent(q, c.(acs := c.acs + Moved(c.acs, s.acs)));
    var left := s.(acs := LeftBehind(c.acs, s.acs));
    StructuredTree(moved, Destroyed(moved.tree, left));
    MoreRpcs(q, s.events, c.acs + Moved(c.acs, s.acs), full);
    DestroyedPersisted(moved, left, full);
  }

  lemma NoRetryPersisted(m: Machine, events: seq<Event>, cr: bool, full: bool)
    requires PersistedWith(m, events, full)
    ensures PersistedWith(m.(crEvent := cr), WithoutNoRetry(events), full)
  {
    OwnedWithoutNoRetry(events, m.tree, m.saved, m.lastId, full);
    WithoutNoRetryMeans(events);
    forall j | 0 <= j < |WithoutNoRetry(events)|
      ensures exists k :: 0 <= k < |events| && events[k] == WithoutNoRetry(events)[j]
    {
      assert WithoutNoRetry(events)[j] in events;
    }
  }

  // The session is gone from 'send'.
  lemma SentNothing(m: Machine, retries: nat, full: bool)
    requires PersistedWith(m, [], full)
    ensures Persisted(m.(send := None, retries := retries), full)
  {
  }

  lemma MovePersisted(m: Machine, s: Session, full: bool)
    requires PersistedWith(m, s.events, full) && Structured(MoveToQueue(m, s))
    requires MoveToQueue(m, s).created <= MAX_INT_ID
    ensures Persisted(MoveToQueue(m, s), full)
  {
    MoveClearsSend(m, s);
    hide PersistedWith, Structured, MoveToQueue;
    if m.queue == [] {
      RequeuePersisted(m, s, full);
    } else {
      MergePersisted(m, s, full);
    }
  }

  lemma FailPersisted(m: Machine, s: Session, full: bool)
    requires Persisted(m, full) && m.send == Some(s) && FailSession(m, s).created <= MAX_INT_ID
    ensures Persisted(FailSession(m, s), full)
  {
    var n, f := m.(crEvent := m.crEvent || HasConnectionRequest(s.events)), s.(events := WithoutNoRetry(s.events));
    NoRetryPersisted(m, s.events, n.crEvent, full);
    FailParts(m, s, n, f);
    hide Persisted, PersistedWith, MoveToQueue, Destroyed, Structured, WithoutNoRetry, HasConnectionRequest;
    if f.events != [] || !n.crEvent {
      MovePersisted(n, f, full);
    } else {
      DestroyedPersisted(n, f, full);
      SentNothing(n.(tree := Destroyed(n.tree, f)), 0, full);
    }
  }

  lemma FailParts(m: Machine, s: Session, n: Machine, f: Session)
    requires Structured(m) && m.send == Some(s)
    requires n == m.(crEvent := m.crEvent || HasConnectionRequest(s.events))
    requires f == s.(events := WithoutNoRetry(s.events))
    ensures Structured(n) && (f.events != [] || !n.crEvent ==> Structured(MoveToQueue(n, f)))
  {
    StepStructured(m, Fail);
    hide MoveToQueue, Destroyed, SortedEvents, InformAtHead, HasInform, WithoutNoRetry, HasConnectionRequest;
  }

  lemma MoveClearsSend(m: Machine, s: Session)
    requires HeadOk(m) && (m.head.None? ==> m.queue == [])
    ensures MoveToQueue(m, s).send.None?
  {
    hide MergeEvents, Destroyed, Moved, LeftBehind, InformFirst, MarkAll;
    if m.queue != [] {
      MergeKeepsSend(m.(retries := m.retries + 1, send := None), s.events);
    }
  }

  // The steps that touch neither containers nor records.
  lemma RpcPersisted(m: Machine, op: Op, full: bool)
    requires Persisted(m, full) && (op.AddRpc? || op.Receive?)
    ensures Persisted(Step(m, op), full)
  {
    StepStructured(m, op);
    PersistedQueue(m, full);
    hide PersistedWith, Structured;
    var m', out := Step(m, op), SendEvents(m);
    assert SendEvents(m') == out;
    if op.AddRpc? && m.head.Some? && !op.rpc.kind.Inform? {
      MoreRpcs(m, out, Current(m).acs + [op.rpc], full);
    } else {
      SameParts(m, m', out, full);
    }
  }

  lemma ClearPersisted(m: Machine, full: bool)
    requires Persisted(m, full)
    ensures Persisted(Step(m, ClearQueue), full)
  {
    PersistedQueue(m, full);
    if m.head.Some? {
      DeleteQueuedPersisted(m, SendEvents(m), full);
      hide PersistedWith, Structured;
      var c := m.(queue := [m.queue[0].(events := [])], tree := DeleteRecords(m.tree, QueueEvents(m), true));
      assert Step(m, ClearQueue) == c;
      PersistedIsStructured(c, SendEvents(m), full);
      assert SendEvents(c) == SendEvents(m);
    }
  }

  lemma PersistedQueue(m: Machine, full: bool)
    requires Persisted(m, full)
    ensures HeadOk(m) && (m.head.None? ==> m.queue == [])
    ensures m.head.Some? ==> |m.queue| == 1 && m.head == Some(0)
  {
    hide PersistedWith, SortedEvents, InformAtHead;
  }

  // What is persisted does not depend on the rest of the state.
  lemma SameParts(m: Machine, m': Machine, out: seq<Event>, full: bool)
    requires PersistedWith(m, out, full) && Structured(m')
    requires m'.queue == m.queue && m'.lastId == m.lastId && m'.created == m.created
    requires m'.saved == m.saved && m'.tree == m.tree
    ensures PersistedWith(m', out, full)
  {
  }

  lemma AcknowledgePersisted(m: Machine, full: bool)
    requires Persisted(m, full)
    ensures Persisted(Step(m, Acknowledge), full)
  {
    StepStructured(m, Acknowledge);
    hide PersistedWith, Structured;
    var m', out := Step(m, Acknowledge), SendEvents(m);
    if m.send.Some? && m.send.value.acs != [] {
      if m.send.value.acs[0].kind.Inform? {
        DeleteOutPersisted(m, out, full);
        SameParts(m.(tree := DeleteRecords(m.tree, out, false)), m', [], full);
      } else {
        SameParts(m, m', out, full);
      }
    }
  }

  lemma FinishPersisted(m: Machine, full: bool)
    requires Persisted(m, full)
    ensures Persisted(Step(m, Finish), full)
  {
    if m.send.Some? && m.send.value.acs == [] {
      hide PersistedWith, Structured, Destroyed;
      DestroyedPersisted(m, m.send.value, full);
      SentNothing(m.(tree := Destroyed(m.tree, m.send.value)), 0, full);
    }
  }

  lemma AddKeepsSend(m: Machine, code: nat, key: string, params: seq<Param>, spliced: bool)
    requires HeadOk(m)
    ensures SendEvents(AddEvent(m, code, key)) == SendEvents(m)
    ensures SendEvents(AddSaved(m, code, key, params, spliced)) == SendEvents(m)
  {
  }

  lemma StepPersisted(m: Machine, op: Op, full: bool)
    requires Persisted(m, full) && Step(m, op).created <= MAX_INT_ID
    ensures Persisted(Step(m, op), full)
  {
    StepStructured(m, op);
    hide PersistedWith, Structured, AddEvent, AddSaved, FailSession, MoveToSend;
    match op
    case Add(code, key) =>
      AddEventPersisted(m, SendEvents(m), code, key, full);
      AddKeepsSend(m, code, key, [], false);
    case AddAndSave(code, key, params, spliced) =>
      AddSavedPersisted(m, SendEvents(m), code, key, params, spliced, full);
      AddKeepsSend(m, code, key, params, spliced);
    case ClearQueue => ClearPersisted(m, full);
    case StartSession => if m.send.None? && m.queue != [] { StartPersisted(m, full); }
    case Acknowledge => AcknowledgePersisted(m, full);
    case Fail => if m.send.Some? { FailPersisted(m, m.send.value, full); }
    case Finish => FinishPersisted(m, full);
    case _ => RpcPersisted(m, op, full);
  }

  lemma MoveCreates(m: Machine, s: Session)
    requires HeadOk(m) && (m.head.None? ==> m.queue == [])
    ensures MoveToQueue(m, s).created >= m.created
  {
    hide MergeEvents, Destroyed, Moved, LeftBehind;
    MergeCreates(m.(retries := m.retries + 1, send := None), s.events);
  }

  lemma StepCreates(m: Machine, op: Op)
    requires HeadOk(m) && (m.head.None? ==> m.queue == [])
    ensures Step(m, op).created >= m.created
  {
    hide MoveToQueue, Destroyed, DeleteRecords, SaveRecord, WithoutNoRetry, AddTo;
    if op.Fail? && m.send.Some? {
      var s := m.send.value;
      MoveCreates(m.(crEvent := m.crEvent || HasConnectionRequest(s.events)), s.(events := WithoutNoRetry(s.events)));
    }
  }

  // Every run that makes no more containers than there are ids.
  lemma {:induction false} RunFromPersisted(m: Machine, ops: seq<Op>, full: bool)
    requires Persisted(m, full) && RunFrom(m, ops).created <= MAX_INT_ID
    ensures Persisted(RunFrom(m, ops), full)
  {
    assert Structured(m);
    hide Persisted;
    if ops != [] {
      var before := RunFrom(m, ops[..|ops| - 1]);
      StepCreates(before, ops[|ops| - 1]);
      RunFromPersisted(m, ops[..|ops| - 1], full);
      StepPersisted(before, ops[|ops| - 1], full);
    }
  }

  lemma RunPersisted(ops: seq<Op>)
    requires Run(ops).created <= MAX_INT_ID
    ensures Persisted(Run(ops), true)
  {
    StartIsPersisted();
    RunFromPersisted(START, ops, true);
  }

  lemma StartIsPersisted()
    ensures Persisted(START, true)
  {
  }

  // ---- restart: bkp_session_check_file and load_queue_event ----

  function LoadRecord(m: Machine, r: Saved): (m': Machine)
    requires HeadOk(m)
    ensures HeadOk(m')
  {
    if !RetryAfterReboot(r.code) then m else
      var i := Stop(Current(WithQueue(m)).events, r.code, 0);
      var added := AddEvent(m, r.code, r.key);
      var s := Current(added);
      var e := s.events[i].(id := r.id, params := AddNames(s.events[i].params, r.params));
      SetCurrent(added, s.(events := s.events[i := e]))
  }

  function LoadAll(m: Machine, records: seq<Saved>): (m': Machine)
    requires HeadOk(m)
    ensures HeadOk(m')
    decreases |records|
  {
    if records == [] then m else LoadAll(LoadRecord(m, records[0]), records[1..])
  }

  // A new process: everything is empty but the backup, whose "send" records are queued again.
  function Restart(tree: seq<Saved>): (m: Machine)
    ensures Structured(m)
  {
    LoadAllMeans(Unloaded(tree), MarkAll(tree, true));
    LoadAll(Unloaded(tree), MarkAll(tree, true))
  }

  function Unloaded(tree: seq<Saved>): Machine {
    START.(tree := MarkAll(tree, true), saved := set r | r in tree :: r.id)
  }

  // x stands for an event of the given code, key and id, and has the parameter names.
  ghost predicate StandsFor(x: Event, code: nat, key: string, id: nat, names: seq<string>) {
    && x.code == code
    && (code >= 12 ==> x.key == key && x.id == id)
    && forall n :: n in names ==> HasName(x.params, n)
  }

  ghost predicate Restored(events: seq<Event>, r: Saved) {
    exists i :: 0 <= i < |events| && StandsFor(events[i], r.code, r.key, r.id, r.params)
  }

  lemma {:induction false} AddNamesMeans(params: seq<Param>, names: seq<string>)
    ensures forall x :: x in params ==> x in AddNames(params, names)
    ensures forall n :: n in names ==> HasName(AddNames(params, names), n)
    decreases |names|
  {
    if names != [] {
      var next := Insert(params, Param(names[0], "", ""));
      InsertKeeps(params, Param(names[0], "", ""));
      AddNamesMeans(next, names[1..]);
      forall n | n in names ensures HasName(AddNames(params, names), n) {
        if n == names[0] {
          NamesKept(next, AddNames(params, names), n);
        } else {
          assert n in names[1..];
        }
      }
    }
  }

  lemma NamesKept(a: seq<Param>, b: seq<Param>, n: string)
    requires HasName(a, n) && forall x :: x in a ==> x in b
    ensures HasName(b, n)
  {
    var i :| 0 <= i < |a| && a[i].name == n;
    assert a[i] in b;
    var j :| 0 <= j < |b| && b[j] == a[i];
  }

  // Rewriting the container at position i after inserting one there, or after finding it there.
  lemma RestoredAfter(events: seq<Event>, added: seq<Event>, i: nat, e: Event, x: Saved)
    requires Restored(events, x) && i < |added|
    requires e == added[i].(id := e.id, params := e.params)
    requires forall p :: p in added[i].params ==> p in e.params
    requires (added == events && Single(e.code)) || (i <= |events| && added == events[..i] + [added[i]] + events[i..])
    ensures Restored(added[i := e], x)
  {
    var k :| 0 <= k < |events| && StandsFor(events[k], x.code, x.key, x.id, x.params);
    if added == events && Single(e.code) {
      if k == i {
        forall n | n in x.params ensures HasName(e.params, n) {
          NamesKept(added[i].params, e.params, n);
        }
      }
      assert StandsFor(added[i := e][k], x.code, x.key, x.id, x.params);
    } else {
      assert added[i := e][if k < i then k else k + 1] == events[k];
    }
  }

  // Loading one record restores it and keeps what was restored before.
  lemma LoadRecordMeans(m: Machine, r: Saved)
    requires Structured(m)
    ensures Structured(LoadRecord(m, r))
    ensures RetryAfterReboot(r.code) ==> Restored(QueueEvents(LoadRecord(m, r)), r)
    ensures forall x :: Restored(QueueEvents(m), x) ==> Restored(QueueEvents(LoadRecord(m, r)), x)
  {
    if RetryAfterReboot(r.code) {
      AddEventStructured(m, r.code, r.key);
      var events, i, added, e := Loading(m, r);
      assert added[i := e][i] == e;
      AddNamesMeans(added[i].params, r.params);
      assert StandsFor(e, r.code, r.key, r.id, r.params);
      forall x | Restored(events, x) ensures Restored(added[i := e], x) {
        RestoredAfter(events, added, i, e, x);
      }
    }
  }

  lemma AddEventShape(m: Machine, code: nat, key: string)
    requires Structured(m)
    ensures var events := AddTo(QueueEvents(m), Event(code, key, [], NextId(m.lastId)));
            AddEvent(m, code, key).queue == [Current(WithQueue(m)).(events := events)]
    ensures AddEvent(m, code, key).head == Some(0) && AddEvent(m, code, key).send == m.send
  {
    assert Current(WithQueue(m)).events == QueueEvents(m);
  }

  lemma Loading(m: Machine, r: Saved) returns (events: seq<Event>, i: nat, added: seq<Event>, e: Event)
    requires Structured(m) && RetryAfterReboot(r.code) && Structured(AddEvent(m, r.code, r.key))
    ensures events == QueueEvents(m) && i < |added| && QueueEvents(LoadRecord(m, r)) == added[i := e]
    ensures e == added[i].(id := r.id, params := AddNames(added[i].params, r.params)) && e.code == r.code
    ensures !Single(r.code) ==> e.key == r.key
    ensures (added == events && Single(e.code)) || (i <= |events| && added == events[..i] + [added[i]] + events[i..])
    ensures Structured(LoadRecord(m, r))
  {
    AddEventShape(m, r.code, r.key);
    events := QueueEvents(m);
    assert events == Current(WithQueue(m)).events;
    i := Stop(events, r.code, 0);
    hide AddEvent, AddNames, WithQueue;
    added := QueueEvents(AddEvent(m, r.code, r.key));
    e := added[i].(id := r.id, params := AddNames(added[i].params, r.params));
    var l := LoadRecord(m, r);
    assert l.queue == [Current(AddEvent(m, r.code, r.key)).(events := added[i := e])];
  }

  lemma {:induction false} LoadAllMeans(m: Machine, records: seq<Saved>)
    requires Structured(m)
    ensures Structured(LoadAll(m, records))
    ensures forall r :: r in records && RetryAfterReboot(r.code) ==> Restored(QueueEvents(LoadAll(m, records)), r)
    ensures forall r :: Restored(QueueEvents(m), r) ==> Restored(QueueEvents(LoadAll(m, records)), r)
    decreases |records|
  {
    assert HeadOk(m);
    hide Structured, Restored, LoadRecord;
    if records != [] {
      LoadRecordMeans(m, records[0]);
      LoadAllMeans(LoadRecord(m, records[0]), records[1..]);
      assert forall r :: r in records ==> r == records[0] || r in records[1..];
    }
  }

  // The containers a restart must not lose: all that were saved but boot, value change, connection
  // request and diagnostics complete, which do not outlive the process.
  predicate MustSurvive(m: Machine, e: Event) {
    e.id in m.saved && e.code != 1 && e.code != 4 && e.code != 6 && e.code != 8
  }

  // A stop at any step boundary and a restart restore every saved container that is still
  // queued or being sent: SINGLE codes as codes, MULTIPLE ones with key and id.
  lemma RestartRestores(m: Machine, e: Event, full: bool)
    requires Persisted(m, full)
    requires (e in QueueEvents(m) || e in SendEvents(m)) && MustSurvive(m, e)
    ensures exists i :: 0 <= i < |QueueEvents(Restart(m.tree))|
              && StandsFor(QueueEvents(Restart(m.tree))[i], e.code, e.key, e.id, NamesIf(full, e))
  {
    var r := RecordFor(m, e, full);
    hide Persisted, PersistedWith, LoadAll, Restored;
    RestoredFrom(m.tree, r);
    hide Restart;
    var events := QueueEvents(Restart(m.tree));
    var i := RestoredAt(events, r);
    if full {
      forall n | n in Names(e.params) ensures HasName(events[i].params, n) {
        var j :| 0 <= j < |e.params| && Names(e.params)[j] == n;
        assert e.params[j].name in r.params;
      }
    }
    assert StandsFor(events[i], e.code, e.key, e.id, NamesIf(full, e));
  }

  function NamesIf(full: bool, e: Event): seq<string> {
    if full then Names(e.params) else []
  }

  // Every record of the file that is to be reloaded is.
  lemma RestoredFrom(tree: seq<Saved>, r: Saved)
    requires r in tree && RetryAfterReboot(r.code)
    ensures Restored(QueueEvents(Restart(tree)), r)
  {
    var k :| 0 <= k < |tree| && tree[k] == r;
    var marked := MarkAll(tree, true);
    assert marked[k] in marked;
    LoadAllMeans(Unloaded(tree), marked);
    SameRestored(QueueEvents(Restart(tree)), marked[k], r);
  }

  lemma SameRestored(events: seq<Event>, r: Saved, r': Saved)
    requires Restored(events, r) && r == r'.(queued := r.queued)
    ensures Restored(events, r')
  {
    var i :| 0 <= i < |events| && StandsFor(events[i], r.code, r.key, r.id, r.params);
    assert StandsFor(events[i], r'.code, r'.key, r'.id, r'.params);
  }

  lemma RestoredAt(events: seq<Event>, r: Saved) returns (i: nat)
    requires Restored(events, r)
    ensures i < |events| && StandsFor(events[i], r.code, r.key, r.id, r.params)
  {
    i :| 0 <= i < |events| && StandsFor(events[i], r.code, r.key, r.id, r.params);
  }

  lemma RecordFor(m: Machine, e: Event, full: bool) returns (r: Saved)
    requires Persisted(m, full)
    requires (e in QueueEvents(m) || e in SendEvents(m)) && MustSurvive(m, e)
    ensures r in m.tree && r.id == e.id && r.code == e.code && (!Single(e.code) ==> r.key == e.key)
    ensures full ==> Covers(r.params, e.params)
  {
    assert Recorded(e, m.tree, full) && (Agrees(e, m.tree, true) || Agrees(e, m.tree, false));
    r :| r in m.tree && r.id == e.id && (full ==> Covers(r.params, e.params));
  }

  // ---- the whole-run statement, with multiplicities ----

  function Pairs(events: seq<Event>): (p: seq<(nat, string)>)
    ensures |p| == |events|
    ensures forall i :: 0 <= i < |events| ==> p[i] == (events[i].code, events[i].key)
  {
    seq(|events|, i requires 0 <= i < |events| => (events[i].code, events[i].key))
  }

  // The MULTIPLE containers among 'events' that a restart must not lose.
  function Multiples(m: Machine, events: seq<Event>): (r: seq<Event>)
    ensures forall e :: e in r ==> e in events && MustSurvive(m, e) && e.code >= 12
  {
    if events == [] then []
    else if MustSurvive(m, events[0]) && events[0].code >= 12 then [events[0]] + Multiples(m, events[1..])
    else Multiples(m, events[1..])
  }

  ghost predicate DistinctIds(events: seq<Event>) {
    forall i, j :: 0 <= i < j < |events| ==> events[i].id != events[j].id
  }

  lemma {:induction false} MultiplesDistinct(m: Machine, events: seq<Event>)
    requires DistinctIds(events)
    ensures DistinctIds(Multiples(m, events))
  {
    if events != [] {
      MultiplesDistinct(m, events[1..]);
      var rest := Multiples(m, events[1..]);
      forall j | 0 <= j < |rest| ensures events[0].id != rest[j].id {
        assert rest[j] in events[1..];
        var k :| 0 <= k < |events[1..]| && events[1..][k] == rest[j];
        assert events[k + 1] == rest[j];
      }
    }
  }

  ghost predicate Matched(ys: seq<Event>, x: Event) {
    exists i :: 0 <= i < |ys| && StandsFor(ys[i], x.code, x.key, x.id, [])
  }

  // One event of another id is still matched when ys[j] is taken away.
  lemma StillMatched(ys: seq<Event>, j: nat, x: Event, z: Event)
    requires j < |ys| && StandsFor(ys[j], x.code, x.key, x.id, []) && !Single(x.code) && !Single(z.code)
    requires Matched(ys, z) && x.id != z.id
    ensures Matched(ys[..j] + ys[j + 1..], z)
  {
    var i :| 0 <= i < |ys| && StandsFor(ys[i], z.code, z.key, z.id, []);
    assert (ys[..j] + ys[j + 1..])[if i < j then i else i - 1] == ys[i];
  }

  ghost predicate AllMatched(xs: seq<Event>, ys: seq<Event>) {
    forall i :: 0 <= i < |xs| ==> Matched(ys, xs[i]) && !Single(xs[i].code)
  }

  lemma RestMatched(xs: seq<Event>, ys: seq<Event>, j: nat)
    requires xs != [] && DistinctIds(xs) && AllMatched(xs, ys)
    requires j < |ys| && StandsFor(ys[j], xs[0].code, xs[0].key, xs[0].id, [])
    ensures AllMatched(xs[1..], ys[..j] + ys[j + 1..]) && DistinctIds(xs[1..])
  {
    hide Matched, StandsFor;
    forall k | 0 <= k < |xs[1..]|
      ensures Matched(ys[..j] + ys[j + 1..], xs[1..][k]) && !Single(xs[1..][k].code)
    {
      assert xs[1..][k] == xs[k + 1];
      StillMatched(ys, j, xs[0], xs[k + 1]);
    }
  }

  lemma PairsShrink(xs: seq<Event>, ys: seq<Event>, j: nat)
    requires xs != [] && j < |ys| && (ys[j].code, ys[j].key) == (xs[0].code, xs[0].key)
    requires multiset(Pairs(xs[1..])) <= multiset(Pairs(ys[..j] + ys[j + 1..]))
    ensures multiset(Pairs(xs)) <= multiset(Pairs(ys))
  {
    hide Pairs;
    PairsFirst(xs);
    PairsRemove(ys, j);
    OneMoreEach(multiset(Pairs(xs[1..])), multiset(Pairs(ys[..j] + ys[j + 1..])), (xs[0].code, xs[0].key));
  }

  lemma PairsFirst(xs: seq<Event>)
    requires xs != []
    ensures multiset(Pairs(xs)) == multiset(Pairs(xs[1..])) + multiset{(xs[0].code, xs[0].key)}
  {
    hide Pairs;
    PairsRemove(xs, 0);
    assert xs[..0] + xs[1..] == xs[1..];
  }

  lemma OneMoreEach(a: multiset<(nat, string)>, b: multiset<(nat, string)>, p: (nat, string))
    requires a <= b
    ensures a + multiset{p} <= b + multiset{p}
  {
  }

  // Matching by ids that are distinct preserves multiplicity.
  lemma {:induction false} IdsInject(xs: seq<Event>, ys: seq<Event>)
    requires DistinctIds(xs) && AllMatched(xs, ys)
    ensures multiset(Pairs(xs)) <= multiset(Pairs(ys))
  {
    if xs != [] {
      assert Matched(ys, xs[0]) && !Single(xs[0].code);
      hide DistinctIds, AllMatched, Matched, StandsFor, Pairs;
      var j := MatchOf(xs, ys);
      RestMatched(xs, ys, j);
      IdsInject(xs[1..], ys[..j] + ys[j + 1..]);
      PairsShrink(xs, ys, j);
    }
  }

  lemma MatchOf(xs: seq<Event>, ys: seq<Event>) returns (j: nat)
    requires xs != [] && Matched(ys, xs[0]) && !Single(xs[0].code)
    ensures j < |ys| && StandsFor(ys[j], xs[0].code, xs[0].key, xs[0].id, [])
    ensures (ys[j].code, ys[j].key) == (xs[0].code, xs[0].key)
  {
    j :| 0 <= j < |ys| && StandsFor(ys[j], xs[0].code, xs[0].key, xs[0].id, []);
  }

  lemma PairsRemove(ys: seq<Event>, j: nat)
    requires j < |ys|
    ensures multiset(Pairs(ys)) == multiset(Pairs(ys[..j] + ys[j + 1..])) + multiset{(ys[j].code, ys[j].key)}
  {
    assert Pairs(ys) == Pairs(ys)[..j] + [(ys[j].code, ys[j].key)] + Pairs(ys)[j + 1..];
    assert Pairs(ys[..j] + ys[j + 1..]) == Pairs(ys)[..j] + Pairs(ys)[j + 1..];
  }

  // Every saved live container is restored.
  lemma LiveRestored(m: Machine, live: seq<Event>, restored: seq<Event>)
    requires Persisted(m, true) && live == QueueEvents(m) + SendEvents(m) && restored == QueueEvents(Restart(m.tree))
    ensures DistinctIds(live)
    ensures forall e :: e in live && MustSurvive(m, e) ==> Matched(restored, e)
  {
    assert DistinctIds(live);
    hide Persisted, QueueEvents, SendEvents, Restart, DistinctIds;
    forall e | e in live && MustSurvive(m, e) ensures Matched(restored, e) {
      RestartRestores(m, e, true);
      var i :| 0 <= i < |restored| && StandsFor(restored[i], e.code, e.key, e.id, Names(e.params));
      assert StandsFor(restored[i], e.code, e.key, e.id, []);
    }
  }

  // In every run from an empty backup, stopping at any step boundary and restarting restores the
  // saved events that are still queued or being sent: SINGLE codes as a set, MULTIPLE
  // (code, key) pairs as a multiset. None is lost; SessionExact.dfy shows that no other comes back.
  lemma RunRestores(ops: seq<Op>)
    requires Run(ops).created <= MAX_INT_ID
    ensures var m := Run(ops);
            var live, restored := QueueEvents(m) + SendEvents(m), QueueEvents(Restart(m.tree));
            && (forall e :: e in live && MustSurvive(m, e) ==>
              exists i :: 0 <= i < |restored| && restored[i].code == e.code)
            && multiset(Pairs(Multiples(m, live))) <= multiset(Pairs(restored))
  {
    RunPersisted(ops);
    var m := Run(ops);
    hide Persisted, QueueEvents, SendEvents, Restart, DistinctIds, Matched, Pairs, Run;
    var live, restored := QueueEvents(m) + SendEvents(m), QueueEvents(Restart(m.tree));
    LiveRestored(m, live, restored);
    forall e | e in live && MustSurvive(m, e) ensures exists i :: 0 <= i < |restored| && restored[i].code == e.code {
      MatchedCode(restored, e);
    }
    var many := Multiples(m, live);
    MultiplesDistinct(m, live);
    forall i | 0 <= i < |many| ensures Matched(restored, many[i]) && !Single(many[i].code) {
      assert many[i] in many;
    }
    IdsInject(many, restored);
  }

  lemma MatchedCode(ys: seq<Event>, x: Event)
    requires Matched(ys, x)
    ensures exists i :: 0 <= i < |ys| && ys[i].code == x.code
  {
  }
}
