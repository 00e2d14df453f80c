/** cwmp.c and event.c in the source's own form: an object whose lists are edited in place, each
    method proved to be the step of the machine in Session.dfy, with the backup as the tree of
    records of Backup.dfy. */
module SessionState {
  import opened Options
  import opened ParamList
  import opened Session
  import B = Backup
  import SB = SessionBackup

  // ---- event records in the backup tree ----

  function RecordOf(s: Saved): B.Record {
    B.EventRecord(s.queued, s.code, s.id, s.key, s.params)
  }

  function Records(tree: seq<Saved>): (r: seq<B.Record>)
    ensures |r| == |tree|
    ensures forall i :: 0 <= i < |r| ==> r[i] == RecordOf(tree[i])
  {
    seq(|tree|, i requires 0 <= i < |tree| => RecordOf(tree[i]))
  }

  // The keyword search for an id accepts exactly the records of that id.
  lemma AcceptsId(s: Saved, id: nat)
    ensures B.Accepts(RecordOf(s).children, B.IdKey(id)) <==> s.id == id
  {
    B.EventAcceptsIff(s.queued, s.code, s.id, s.key, s.params, id);
  }

  lemma {:induction false} SameFirst(tree: seq<Saved>, queued: bool, i: nat)
    requires i <= |tree|
    ensures B.FirstNamed(Records(tree), B.StatusName(queued), i) == FirstOf(tree, queued, i)
    decreases |tree| - i
  {
    if i < |tree| && tree[i].queued != queued {
      SameFirst(tree, queued, i + 1);
    }
  }

  lemma {:induction false} SameAccepted(tree: seq<Saved>, id: nat, i: nat)
    requires i <= |tree|
    ensures B.AcceptedFrom(Records(tree), B.IdKey(id), i) == WithId(tree, id, i)
    decreases |tree| - i
  {
    if i < |tree| {
      AcceptsId(tree[i], id);
      SameAccepted(tree, id, i + 1);
    }
  }

  // bkp_session_node_found on event records is the search of the machine.
  lemma SameFound(tree: seq<Saved>, queued: bool, id: nat)
    ensures B.Found(Records(tree), B.StatusName(queued), B.IdKey(id)) == FindSaved(tree, queued, id)
  {
    SameFirst(tree, queued, 0);
    SameAccepted(tree, id, FirstOf(tree, queued, 0));
  }

  // ---- edits of the records, seen through Records ----

  lemma RecordsAfterInsert(tree: seq<Saved>, s: Saved)
    requires s.queued && s.params == []
    ensures B.Insert(Records(tree), RecordOf(s), B.IdKey(s.id))
         == Records(if FindSaved(tree, true, s.id).None? then tree + [s] else tree)
  {
    SameFound(tree, true, s.id);
  }

  lemma RecordsAfterDelete(tree: seq<Saved>, id: nat, queued: bool)
    ensures B.Delete(Records(tree), B.StatusName(queued), B.IdKey(id)) == Records(DeleteRecord(tree, id, queued))
  {
    SameFound(tree, queued, id);
  }

  function WithParameter(s: Saved, name: string): Saved {
    s.(params := s.params + [name])
  }

  function ParameterChild(name: string): B.Child {
    B.Child("parameter", Some(B.Str(name)))
  }

  lemma RecordWithParameter(s: Saved, name: string)
    ensures RecordOf(WithParameter(s, name)) == RecordOf(s).(children := RecordOf(s).children + [ParameterChild(name)])
  {
    assert B.ParameterChildren(s.params + [name]) == B.ParameterChildren(s.params) + [ParameterChild(name)];
  }

  lemma RecordsAfterAppend(tree: seq<Saved>, b: nat, name: string)
    requires b < |tree|
    ensures Records(tree[b := WithParameter(tree[b], name)])
         == Records(tree)[b := Records(tree)[b].(children := Records(tree)[b].children + [ParameterChild(name)])]
  {
    RecordWithParameter(tree[b], name);
  }

  lemma RecordsAfterRename(tree: seq<Saved>, renamed: seq<B.Record>, queued: bool)
    requires |renamed| == |tree|
    requires forall i :: 0 <= i < |renamed| ==>
               renamed[i] ==
                 if Records(tree)[i].name == B.StatusName(!queued)
                 then Records(tree)[i].(name := B.StatusName(queued)) else Records(tree)[i]
    ensures renamed == Records(MarkAll(tree, queued))
  {
  }

  lemma NamesStep(names: seq<string>, params: seq<Param>, k: nat)
    requires k < |params|
    ensures names + Names(params[..k + 1]) == (names + Names(params[..k])) + [params[k].name]
  {
  }

  // AddEvent on a state that has a queued session, field by field.
  lemma AddEventFields(m: Machine, code: nat, key: string)
    requires PointsIntoQueue(m)
    ensures var s := Current(m);
      var i := Stop(s.events, code, 0);
      var id := NextId(m.lastId);
      AddEvent(m, code, key) ==
        if Existing(s.events, code) then m else
          m.(queue := m.queue[m.head.value := s.(events := s.events[..i] + [Event(code, key, [], id)] + s.events[i..])],
             lastId := id, created := m.created + 1)
    ensures Existing(Current(m).events, code) ==> Stop(Current(m).events, code, 0) < |Current(m).events|
  {
  }

  lemma HasRequestStep(events: seq<Event>, k: nat)
    requires k < |events|
    ensures HasConnectionRequest(events[..k + 1])
      <==> HasConnectionRequest(events[..k]) || events[k].code == CONNECTION_REQUEST
  {
    if HasConnectionRequest(events[..k]) {
      var i :| 0 <= i < k && events[..k][i].code == CONNECTION_REQUEST;
      assert events[..k + 1][i].code == CONNECTION_REQUEST;
    }
    assert events[..k + 1][k] == events[k];
  }

  lemma NoRpcs(acs: seq<Rpc>)
    ensures !HasInform(acs[..0])
  {
  }

  lemma HasInformStep(acs: seq<Rpc>, k: nat)
    requires k < |acs|
    ensures HasInform(acs[..k + 1]) <==> HasInform(acs[..k]) || acs[k].kind.Inform?
  {
    if HasInform(acs[..k]) {
      var i :| 0 <= i < k && acs[..k][i].kind.Inform?;
      assert acs[..k + 1][i].kind.Inform?;
    }
    assert acs[..k + 1][k] == acs[k];
  }

  // ---- struct cwmp ----

  class Cwmp {
    var queue: seq<Session>        // head_session_queue
    var head: Option<nat>          // head_event_container, as a position in the queue
    var send: Option<Session>      // session_send
    var id: nat                    // the static counter of cwmp_add_event_container
    var retries: nat               // retry_count_session
    var crEvent: bool              // cwmp_cr_event
    const backup: B.BackupTree     // bkp_tree
    ghost var records: seq<Saved>
    ghost var created: nat
    ghost var saved: set<nat>

    ghost predicate Valid()
      reads this, backup
    {
      Linked() && Structured(State())
    }

    ghost predicate Linked()
      reads this`records, backup
    {
      backup.tree == Records(records)
    }

    ghost function State(): Machine
      reads this
    {
      Machine(queue, head, send, id, records, retries, crEvent, created, saved)
    }

    // A process that starts with an empty backup.
    constructor (backup: B.BackupTree)
      requires backup.tree == []
      ensures State() == START && this.backup == backup
      ensures Valid()
    {
      this.backup := backup;
      queue, head, send, id, retries, crEvent := [], None, None, 0, 0, false;
      records, created, saved := [], 0, {};
    }

    // The loop of cwmp_add_event_container over the sorted list.
    static method Scan(events: seq<Event>, code: nat) returns (i: nat, existing: bool)
      ensures i == Stop(events, code, 0) && existing == Existing(events, code)
    {
      i, existing := 0, false;
      while i < |events|
        invariant i <= |events| && Stop(events, code, 0) == Stop(events, code, i)
      {
        if events[i].code == code && Single(code) {
          existing := true;
          return;
        }
        if events[i].code > code {
          return;
        }
        i := i + 1;
      }
    }

    // cwmp_add_queue_session, when no session is queued.
    method EnsureQueued()
      requires Valid()
      modifies this`queue, this`head
      ensures State() == WithQueue(old(State()))
      ensures Valid()
    {
      if head.None? {
        queue := queue + [NEW_SESSION];
        head := Some(|queue| - 1);
      }
    }

    // cwmp_add_event_container; position is where the returned container stands.
    method AddEventContainer(code: nat, key: string) returns (position: nat)
      requires Valid()
      modifies this`queue, this`head, this`id, this`created
      ensures State() == AddEvent(old(State()), code, key)
      ensures Valid()
      ensures position == Stop(Current(WithQueue(old(State()))).events, code, 0)
      ensures PointsIntoQueue(State()) && position < |Current(State()).events|
    {
      EnsureQueued();
      position := AddToQueued(code, key);
    }

    // ... its search and insertion in the queued session.
    method AddToQueued(code: nat, key: string) returns (position: nat)
      requires Valid() && head.Some?
      modifies this`queue, this`id, this`created
      ensures State() == AddEvent(old(State()), code, key)
      ensures Valid()
      ensures position == Stop(Current(old(State())).events, code, 0)
      ensures PointsIntoQueue(State()) && position < |Current(State()).events|
    {
      AddEventStructured(State(), code, key);
      AddEventFields(State(), code, key);
      hide Structured, AddEvent, Stop, Existing, Linked;
      var s := queue[head.value];
      var existing;
      position, existing := Scan(s.events, code);
      if !existing {
        if id >= MAX_INT_ID {
          id := 0;
        }
        id := id + 1;
        var e := Event(code, key, [], id);
        queue := queue[head.value := s.(events := s.events[..position] + [e] + s.events[position..])];
        created := created + 1;
      }
    }

    // cwmp_save_event_container, for the container at a position of the current list.
    method SaveEventContainer(position: nat)
      requires Valid() && head.Some? && position < |queue[head.value].events|
      modifies this`records, this`saved, backup
      ensures Valid()
      ensures var e := queue[head.value].events[position];
              records == SaveRecord(old(records), e) && saved == old(saved) + {e.id}
    {
      var e := queue[head.value].events[position];
      saved := saved + {e.id};
      if RetryAfterReboot(e.code) {
        var s := Saved(true, e.code, e.id, e.key, []);
        RecordsAfterInsert(records, s);
        SameFound(records, true, e.id);
        ghost var before, found := records, FindSaved(records, true, e.id);
        var b := backup.InsertRecord(RecordOf(s), B.IdKey(e.id));
        records := if found.None? then records + [s] else records;
        AppendParameters(b, e.params);
        assert [] + Names(e.params) == Names(e.params);
        assert records == SaveRecord(before, e);
      }
    }

    // bkp_session_insert_parameter for each parameter of an event.
    method AppendParameters(b: nat, params: seq<Param>)
      requires Valid() && b < |records|
      modifies this`records, backup
      ensures Valid()
      ensures records == old(records)[b := old(records)[b].(params := old(records)[b].params + Names(params))]
    {
      ghost var base := records;
      assert base[b].params + Names([]) == base[b].params;
      var k := 0;
      while k < |params|
        invariant k <= |params| && backup.tree == Records(records)
        invariant records == base[b := base[b].(params := base[b].params + Names(params[..k]))]
        modifies this`records, backup
      {
        RecordsAfterAppend(records, b, params[k].name);
        NamesStep(base[b].params, params, k);
        backup.AppendChild(b, ParameterChild(params[k].name));
        records := records[b := WithParameter(records[b], params[k].name)];
        k := k + 1;
      }
      assert params[..k] == params;
    }

    // Adding an event, giving it parameters and saving it, as its callers do: they splice a list
    // in, or insert names.
    method AddSaveEvent(code: nat, key: string, params: seq<Param>, spliced: bool)
      requires Valid()
      modifies this, backup
      ensures State() == AddSaved(old(State()), code, key, params, spliced)
      ensures Valid()
    {
      hide SortedEvents, InformAtHead, HasInform, Records, SaveRecord;
      var i := AddEventContainer(code, key);
      var s := queue[head.value];
      var all := params + s.events[i].params;
      if !spliced {
        all := LoadParameters(s.events[i].params, Names(params));
      }
      queue := queue[head.value := s.(events := s.events[i := s.events[i].(params := all)])];
      AddSavedStructured(old(State()), code, key, params, spliced);
      SaveEventContainer(i);
    }

    // event_remove_all_event_container, for the events of one session.
    method RemoveAll(events: seq<Event>, queued: bool)
      requires Valid()
      modifies this`records, backup
      ensures Valid() && records == DeleteRecords(old(records), events, queued)
    {
      var rest := events;
      while rest != []
        invariant backup.tree == Records(records)
        invariant DeleteRecords(records, rest, queued) == DeleteRecords(old(records), events, queued)
        modifies this`records, backup
      {
        RecordsAfterDelete(records, rest[0].id, queued);
        backup.DeleteRecord(B.StatusName(queued), B.IdKey(rest[0].id));
        records := DeleteRecord(records, rest[0].id, queued);
        rest := rest[1..];
      }
    }

    // cwmp_move_session_to_session_send, for the first session of the queue.
    method MoveSessionToSend() returns (ok: bool)
      requires Valid() && queue != []
      modifies this, backup
      ensures ok == old(send.None?)
      ensures State() == if ok then MoveToSend(old(State())) else old(State())
      ensures Valid()
    {
      if send.Some? {
        return false;
      }
      send := Some(queue[0]);
      queue := queue[1..];
      head := None;
      backup.RenameAll("queue_event", "send_event");
      RecordsAfterRename(records, backup.tree, false);
      records := MarkAll(records, false);
      StepStructured(old(State()), StartSession);
      return true;
    }

    // event_remove_noretry_event_container
    method RemoveNoRetry(events: seq<Event>) returns (kept: seq<Event>)
      modifies this`crEvent
      ensures kept == WithoutNoRetry(events)
      ensures crEvent == (old(crEvent) || HasConnectionRequest(events))
    {
      kept := [];
      var k := 0;
      while k < |events|
        invariant k <= |events| && kept + WithoutNoRetry(events[k..]) == WithoutNoRetry(events)
        invariant crEvent == (old(crEvent) || HasConnectionRequest(events[..k]))
      {
        var e := events[k];
        assert events[k..][0] == e && events[k..][1..] == events[k + 1..];
        HasRequestStep(events, k);
        if !NoRetry(e.code) {
          kept := kept + [e];
        }
        if e.code == CONNECTION_REQUEST {
          crEvent := true;
        }
        k := k + 1;
      }
      assert events[..k] == events;
    }

    // cwmp_session_destructor: the clean-up of an Inform removes the session's events.
    method Destroy(s: Session)
      requires Valid()
      modifies this`records, backup
      ensures Linked() && records == Destroyed(old(records), s)
    {
      hide Structured, HasInform, Records;
      ghost var before := records;
      var events, i := s.events, 0;
      NoRpcs(s.acs);
      while i < |s.acs|
        invariant i <= |s.acs| && Linked() && Structured(State())
        invariant !HasInform(s.acs[..i]) ==> events == s.events && records == before
        invariant HasInform(s.acs[..i]) ==> events == [] && records == DeleteRecords(before, s.events, false)
        modifies this`records, backup
      {
        HasInformStep(s.acs, i);
        if s.acs[i].kind.Inform? {
          RemoveAll(events, false);
          events := [];
        }
        i := i + 1;
      }
      assert s.acs[..i] == s.acs;
    }

    // The loop of cwmp_move_session_to_session_queue over the RPCs of the failed session.
    static method MoveRpcs(queued: seq<Rpc>, acs: seq<Rpc>) returns (q: seq<Rpc>, left: seq<Rpc>)
      ensures q == queued + Moved(queued, acs) && left == LeftBehind(queued, acs)
    {
      q, left := queued, [];
      var k := 0;
      while k < |acs|
        invariant k <= |acs|
        invariant q + Moved(q, acs[k..]) == queued + Moved(queued, acs)
        invariant left + LeftBehind(q, acs[k..]) == LeftBehind(queued, acs)
      {
        var r := acs[k];
        assert acs[k..][0] == r && acs[k..][1..] == acs[k + 1..];
        if Duplicate(q, r) {
          left := left + [r];
        } else {
          q := q + [r];
        }
        k := k + 1;
      }
    }

    // cwmp_move_session_to_session_queue
    method MoveSessionToQueue(s: Session)
      requires Valid() && SortedEvents(s.events) && (InformAtHead(s.acs) || !HasInform(s.acs))
      modifies this, backup
      ensures State() == MoveToQueue(old(State()), s)
      ensures Valid()
    {
      MoveToQueueStructured(State(), s);
      hide Structured, MoveToQueue;
      if queue == [] {
        Requeue(s);
      } else {
        MergeQueued(s);
      }
    }

    // ... when nothing has been queued in the meantime,
    method Requeue(s: Session)
      requires Valid() && queue == []
      modifies this, backup
      ensures State() == MoveToQueue(old(State()), s)
      ensures Linked()
    {
      retries := retries + 1;
      send := None;
      var acs := s.acs;
      if acs != [] {
        if !acs[0].kind.Inform? {
          acs := [INFORM_RPC] + acs;
        }
      } else {
        acs := [INFORM_RPC] + acs;
      }
      queue := [Session(s.events, acs, [])];
      head := Some(0);
      backup.RenameAll("send_event", "queue_event");
      RecordsAfterRename(records, backup.tree, true);
      records := MarkAll(records, true);
    }

    // ... and when a session has: first the two assignments,
    method MergeQueued(s: Session)
      requires Valid() && queue != []
      modifies this, backup
      ensures State() == MoveToQueue(old(State()), s)
      ensures Linked()
    {
      ghost var m := State();
      hide Merged, Requeued, SortedEvents, InformAtHead, HasInform, Records;
      retries := retries + 1;
      send := None;
      ghost var n := State();
      assert Structured(n) && n == m.(retries := m.retries + 1, send := None);
      hide Structured;
      Merge(s);
    }

    // ... then the events, the RPCs and the destructor.
    method Merge(s: Session)
      requires Valid() && queue != []
      modifies this, backup
      ensures State() == Merged(old(State()), s)
      ensures Linked()
    {
      ghost var before := State();
      MergeEventsStructured(before, s.events);
      var rest := s.events;
      while rest != []
        invariant Valid() && queue != []
        invariant MergeEvents(State(), rest) == MergeEvents(before, s.events)
      {
        AddSaveEvent(rest[0].code, rest[0].key, rest[0].params, true);
        rest := rest[1..];
      }
      var c := queue[head.value];
      var acs, left := MoveRpcs(c.acs, s.acs);
      ghost var merged := State();
      assert merged == MergeEvents(before, s.events);
      Destroy(s.(acs := left));
      queue := queue[head.value := c.(acs := acs)];
    }

    // The end of one turn of the RPC loop of cwmp_schedule_rpc: the head RPC was answered, its
    // extra_clean runs and it is taken off the list.
    method AcknowledgeRpc()
      requires Valid() && send.Some? && send.value.acs != []
      modifies this`send, this`records, backup
      ensures State() == Step(old(State()), Acknowledge)
      ensures Valid()
    {
      StepStructured(State(), Acknowledge);
      var s := send.value;
      if s.acs[0].kind.Inform? {
        RemoveAll(s.events, false);
        s := s.(events := []);
      }
      send := Some(s.(acs := s.acs[1..]));
    }

    // The "retry" exit of cwmp_schedule_rpc and what cwmp_schedule_session makes of it.
    method RetrySession()
      requires Valid() && send.Some?
      modifies this, backup
      ensures State() == Step(old(State()), Fail)
      ensures Valid()
    {
      ghost var m := State();
      StepStructured(m, Fail);
      WithoutNoRetryMeans(send.value.events);
      var s := send.value;
      assert SortedEvents(WithoutNoRetry(s.events)) && (InformAtHead(s.acs) || !HasInform(s.acs));
      var kept := RemoveNoRetry(s.events);
      assert Structured(State()) && State() == m.(crEvent := m.crEvent || HasConnectionRequest(s.events));
      hide Structured, MoveToQueue, Destroyed, WithoutNoRetry, HasConnectionRequest, SortedEvents, InformAtHead,
        HasInform;
      Reschedule(s.(events := kept));
      assert State() == FailSession(m, m.send.value);
    }

    // The failed session is queued again, or dropped when only connection requests were reported.
    method Reschedule(s: Session)
      requires Valid() && SortedEvents(s.events) && (InformAtHead(s.acs) || !HasInform(s.acs))
      modifies this, backup
      ensures State() == if s.events != [] || !old(crEvent) then MoveToQueue(old(State()), s)
                         else old(State()).(send := None, retries := 0, tree := Destroyed(old(records), s))
      ensures Linked()
    {
      if s.events != [] || !crEvent {
        MoveSessionToQueue(s);
      } else {
        Destroy(s);
        send := None;
        retries := 0;
      }
    }

    // The "success" exit: nothing is left to send.
    method FinishSession()
      requires Valid() && send.Some? && send.value.acs == []
      modifies this, backup
      ensures State() == Step(old(State()), Finish)
      ensures Valid()
    {
      Destroy(send.value);
      send := None;
      retries := 0;
    }

    // add_dm_parameter_tolist for the names given, or for the "parameter" children of a record.
    static method LoadParameters(params: seq<Param>, names: seq<string>) returns (r: seq<Param>)
      ensures r == AddNames(params, names)
    {
      r := params;
      var k := 0;
      while k < |names|
        invariant k <= |names| && AddNames(r, names[k..]) == AddNames(params, names)
      {
        assert names[k..][1..] == names[k + 1..];
        r := AddInPlace(r, Param(names[k], "", ""));
        k := k + 1;
      }
    }

    // load_queue_event, for one "queue_event" record of the file.
    method LoadQueueEvent(r: Saved)
      requires Valid()
      modifies this`queue, this`head, this`id, this`created
      ensures State() == SB.LoadRecord(old(State()), r)
      ensures Valid()
    {
      SB.LoadRecordMeans(State(), r);
      if RetryAfterReboot(r.code) {
        var i := AddEventContainer(r.code, r.key);
        var s := queue[head.value];
        var params := LoadParameters(s.events[i].params, r.params);
        queue := queue[head.value := s.(events := s.events[i := s.events[i].(id := r.id, params := params)])];
      }
    }
  }
}
