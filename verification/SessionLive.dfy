/** What no step of the session machine loses: the events that are queued or being sent, their
    parameters, and the RPCs, apart from what was reported, cleared or given up. */
module SessionLive {
  import opened Options
  import opened ParamList
  import opened Session
  import opened SessionMerge
  import opened SessionBackup

  function Live(m: Machine): seq<Event> {
    QueueEvents(m) + SendEvents(m)
  }

  // ---- counting events, MULTIPLE from code 12 on ----

  function Times(events: seq<Event>, code: nat, key: string): nat {
    if events == [] then 0
    else (if events[0].code == code && events[0].key == key then 1 else 0) + Times(events[1..], code, key)
  }

  function ParamTimes(events: seq<Event>, code: nat, p: Param): nat {
    if events == [] then 0
    else (if events[0].code == code then multiset(events[0].params)[p] else 0) + ParamTimes(events[1..], code, p)
  }

  lemma {:induction false} KeyedCounts(events: seq<Event>, code: nat, key: string)
    requires code >= 12
    ensures Keyed(events)[(code, key)] == Times(events, code, key)
  {
    if events != [] {
      KeyedCounts(events[1..], code, key);
    }
  }

  lemma {:induction false} TaggedCounts(code: nat, params: seq<Param>, other: nat, p: Param)
    ensures Tagged(code, params)[(other, p)] == if other == code then multiset(params)[p] else 0
  {
    if params != [] {
      TaggedCounts(code, params[1..], other, p);
      assert params == [params[0]] + params[1..];
    }
  }

  lemma {:induction false} AttachedCounts(events: seq<Event>, code: nat, p: Param)
    ensures Attached(events)[(code, p)] == ParamTimes(events, code, p)
  {
    if events != [] {
      TaggedCounts(events[0].code, events[0].params, code, p);
      AttachedCounts(events[1..], code, p);
    }
  }

  // b has the events of this code that a has: the code itself, from 12 on each event as often, and
  // the parameter as often. (Times and parameters are for any key and any p.)
  predicate Covers(a: seq<Event>, b: seq<Event>, code: nat, key: string, p: Param) {
    && (HasCode(a, code) ==> HasCode(b, code))
    && (code >= 12 ==> Times(a, code, key) <= Times(b, code, key))
    && ParamTimes(a, code, p) <= ParamTimes(b, code, p)
  }

  lemma {:induction false} TimesConcat(a: seq<Event>, b: seq<Event>, code: nat, key: string, p: Param)
    ensures Times(a + b, code, key) == Times(a, code, key) + Times(b, code, key)
    ensures ParamTimes(a + b, code, p) == ParamTimes(a, code, p) + ParamTimes(b, code, p)
  {
    if a == [] {
      assert a + b == b;
    } else {
      assert (a + b)[1..] == a[1..] + b;
      TimesConcat(a[1..], b, code, key, p);
    }
  }

  lemma HasCodeConcat(a: seq<Event>, b: seq<Event>, code: nat)
    ensures HasCode(a + b, code) <==> HasCode(a, code) || HasCode(b, code)
  {
    if k :| 0 <= k < |a| && a[k].code == code {
      assert (a + b)[k].code == code;
    }
    if k :| 0 <= k < |b| && b[k].code == code {
      assert (a + b)[|a| + k].code == code;
    }
  }

  lemma CoversConcat(a: seq<Event>, b: seq<Event>, c: seq<Event>, d: seq<Event>, code: nat, key: string, p: Param)
    requires Covers(a, c, code, key, p) && Covers(b, d, code, key, p)
    ensures Covers(a + b, c + d, code, key, p)
  {
    hide HasCode, Times, ParamTimes;
    HasCodeConcat(a, b, code);
    HasCodeConcat(c, d, code);
    TimesConcat(a, b, code, key, p);
    TimesConcat(c, d, code, key, p);
  }

  // Both parts in one.
  lemma CoversSum(a: seq<Event>, b: seq<Event>, c: seq<Event>, code: nat, key: string, p: Param)
    requires HasCode(a, code) || HasCode(b, code) ==> HasCode(c, code)
    requires code >= 12 ==> Times(a, code, key) + Times(b, code, key) <= Times(c, code, key)
    requires ParamTimes(a, code, p) + ParamTimes(b, code, p) <= ParamTimes(c, code, p)
    ensures Covers(a + b, c, code, key, p)
  {
    hide HasCode, Times, ParamTimes;
    HasCodeConcat(a, b, code);
    TimesConcat(a, b, code, key, p);
  }

  // ---- one more event ----

  lemma AbsorbPlain(events: seq<Event>, e: Event)
    requires e.params == []
    ensures Absorb(events, e) == AddTo(events, e)
  {
    var added, i := AddTo(events, e), Stop(events, e.code, 0);
    assert e.(params := []) == e;
    assert [] + added[i].params == added[i].params;
  }

  // What a list of events has after a new one: the old events, and the new one unless its code is
  // SINGLE and there already.
  lemma AddToCounts(events: seq<Event>, e: Event, code: nat, key: string, p: Param)
    requires e.params == []
    ensures var r := AddTo(events, e);
      && (HasCode(r, code) <==> HasCode(events, code) || code == e.code)
      && (code >= 12 ==> Times(r, code, key) == Times(events, code, key) + Times([e], code, key))
      && ParamTimes(r, code, p) == ParamTimes(events, code, p)
  {
    hide HasCode, Times, ParamTimes, AddTo, Absorb, Keyed, Attached;
    AbsorbPlain(events, e);
    AbsorbCodes(events, e, code);
    AbsorbMeasures(events, e);
    if code >= 12 {
      KeyedCounts(AddTo(events, e), code, key);
      KeyedCounts(events, code, key);
      KeyedCounts([e], code, key);
    }
    AttachedCounts(AddTo(events, e), code, p);
    AttachedCounts(events, code, p);
    AttachedCounts([e], code, p);
    OneParamTimes(e, code, p);
  }

  lemma OneParamTimes(e: Event, code: nat, p: Param)
    ensures ParamTimes([e], code, p) == if e.code == code then multiset(e.params)[p] else 0
  {
    assert [e][1..] == [];
    assert ParamTimes([e][1..], code, p) == 0;
  }

  // More parameters for one container.
  lemma RewriteCovers(events: seq<Event>, i: nat, params: seq<Param>, code: nat, key: string, p: Param)
    requires i < |events| && multiset(events[i].params)[p] <= multiset(params)[p]
    ensures Covers(events, events[i := events[i].(params := params)], code, key, p)
  {
    var x := events[i].(params := params);
    var r := events[i := x];
    assert events == events[..i] + [events[i]] + events[i + 1..] && r == events[..i] + [x] + events[i + 1..];
    assert HasCode(events, code) ==> HasCode(r, code) by {
      if k :| 0 <= k < |events| && events[k].code == code {
        assert r[k].code == code;
      }
    }
    TimesConcat(events[..i] + [events[i]], events[i + 1..], code, key, p);
    TimesConcat(events[..i], [events[i]], code, key, p);
    TimesConcat(events[..i] + [x], events[i + 1..], code, key, p);
    TimesConcat(events[..i], [x], code, key, p);
    OneParamTimes(events[i], code, p);
    OneParamTimes(x, code, p);
    OneTimes(events[i], x, code, key);
  }

  lemma OneTimes(e: Event, x: Event, code: nat, key: string)
    requires x == e.(params := x.params)
    ensures Times([e], code, key) == Times([x], code, key)
  {
    assert [e][1..] == [] && [x][1..] == [];
    assert Times([e][1..], code, key) == Times([x][1..], code, key);
  }

  lemma {:induction false} InsertGrows(list: seq<Param>, q: Param, p: Param)
    ensures multiset(list)[p] <= multiset(Insert(list, q))[p]
  {
    if list != [] && list[0].name != q.name && !Less(q.name, list[0].name) {
      InsertGrows(list[1..], q, p);
      assert list == [list[0]] + list[1..];
    }
  }

  lemma {:induction false} AddNamesGrows(list: seq<Param>, names: seq<string>, p: Param)
    ensures multiset(list)[p] <= multiset(AddNames(list, names))[p]
    decreases |names|
  {
    if names != [] {
      InsertGrows(list, Param(names[0], "", ""), p);
      AddNamesGrows(Insert(list, Param(names[0], "", "")), names[1..], p);
    }
  }

  lemma ExtendedGrows(own: seq<Param>, more: seq<Param>, spliced: bool, p: Param)
    ensures multiset(own)[p] <= multiset(Extended(own, more, spliced))[p]
  {
    AddNamesGrows(own, Names(more), p);
  }

  lemma AddEventCovers(m: Machine, code: nat, eventKey: string, c: nat, key: string, p: Param)
    requires Structured(m)
    ensures var a := AddEvent(m, code, eventKey);
      && Covers(QueueEvents(m), QueueEvents(a), c, key, p) && a.send == m.send
      && HasCode(QueueEvents(a), code)
      && (code >= 12 ==> Times(QueueEvents(a), code, eventKey) == Times(QueueEvents(m), code, eventKey) + 1)
  {
    AddEventShape(m, code, eventKey);
    var e := Event(code, eventKey, [], NextId(m.lastId));
    assert [e][1..] == [] && Times([e][1..], code, eventKey) == 0;
    hide HasCode, ParamTimes, AddTo, AddEvent;
    AddToCounts(QueueEvents(m), e, c, key, p);
    AddToCounts(QueueEvents(m), e, code, eventKey, p);
  }

  // AddAndSave on the events: AddEvent, and then more parameters for the container.
  lemma AddSavedCovers(m: Machine, code: nat, eventKey: string, params: seq<Param>, spliced: bool, c: nat, key: string,
      p: Param)
    requires Structured(m)
    ensures var a := AddSaved(m, code, eventKey, params, spliced);
      && Covers(QueueEvents(m), QueueEvents(a), c, key, p) && a.send == m.send
      && HasCode(QueueEvents(a), code)
      && (code >= 12 ==> Times(QueueEvents(a), code, eventKey) > Times(QueueEvents(m), code, eventKey))
  {
    AddEventCovers(m, code, eventKey, c, key, p);
    AddEventCovers(m, code, eventKey, code, eventKey, p);
    AddEventStructured(m, code, eventKey);
    var i := Stop(Current(WithQueue(m)).events, code, 0);
    var added := AddEvent(m, code, eventKey);
    var s := Current(added);
    assert s == added.queue[0] && |added.queue| == 1 && i < |s.events| && QueueEvents(added) == s.events;
    hide Structured, AddEvent, Stop, SaveRecord, Extended, HasCode, Times, ParamTimes, WithQueue;
    var more := Extended(s.events[i].params, params, spliced);
    ExtendedGrows(s.events[i].params, params, spliced, p);
    RewriteCovers(s.events, i, more, c, key, p);
    RewriteCovers(s.events, i, more, code, eventKey, p);
    assert QueueEvents(AddSaved(m, code, eventKey, params, spliced)) == s.events[i := s.events[i].(params := more)];
  }

  // Each name given to AddAndSave is on the container afterwards.
  lemma ExtendedHas(own: seq<Param>, more: seq<Param>, spliced: bool, name: string)
    requires HasName(more, name)
    ensures HasName(Extended(own, more, spliced), name)
  {
    var i :| 0 <= i < |more| && more[i].name == name;
    if spliced {
      assert (more + own)[i] == more[i];
    } else {
      AddNamesMeans(own, Names(more));
      assert Names(more)[i] == name;
    }
  }

  lemma SavedHas(m: Machine, code: nat, eventKey: string, params: seq<Param>, spliced: bool, name: string)
    requires Structured(m) && HasName(params, name)
    ensures exists j :: 0 <= j < |QueueEvents(AddSaved(m, code, eventKey, params, spliced))|
              && QueueEvents(AddSaved(m, code, eventKey, params, spliced))[j].code == code
              && HasName(QueueEvents(AddSaved(m, code, eventKey, params, spliced))[j].params, name)
  {
    AddEventStructured(m, code, eventKey);
    AddEventShape(m, code, eventKey);
    var i := Stop(Current(WithQueue(m)).events, code, 0);
    var added := AddEvent(m, code, eventKey);
    var s := Current(added);
    assert s == added.queue[0] && |added.queue| == 1 && i < |s.events| && s.events[i].code == code;
    hide Structured, AddEvent, Stop, SaveRecord, Extended, HasName, WithQueue;
    var more := Extended(s.events[i].params, params, spliced);
    ExtendedHas(s.events[i].params, params, spliced, name);
    var after := QueueEvents(AddSaved(m, code, eventKey, params, spliced));
    assert after == s.events[i := s.events[i].(params := more)];
    assert after[i].code == code && HasName(after[i].params, name);
  }

  // ---- a failed session ----

  lemma {:induction false} KeptCovers(events: seq<Event>, code: nat, key: string, p: Param)
    requires code != 6
    ensures Covers(events, WithoutNoRetry(events), code, key, p)
  {
    if events != [] {
      KeptCovers(events[1..], code, key, p);
      HasCodeFirst(events, code);
      var rest := WithoutNoRetry(events[1..]);
      if events[0].code != 6 {
        HasCodeFirst([events[0]] + rest, code);
        assert ([events[0]] + rest)[1..] == rest;
      }
    }
  }

  lemma CoversTransitive(a: seq<Event>, b: seq<Event>, c: seq<Event>, code: nat, key: string, p: Param)
    requires Covers(a, b, code, key, p) && Covers(b, c, code, key, p)
    ensures Covers(a, c, code, key, p)
  {
  }

  lemma MoveCovers(m: Machine, s: Session, code: nat, key: string, p: Param)
    requires Structured(m) && (InformAtHead(s.acs) || !HasInform(s.acs))
    ensures var r := MoveToQueue(m, s);
      r.send == None && Covers(QueueEvents(m) + s.events, QueueEvents(r), code, key, p)
  {
    if m.queue == [] {
      RequeueConserves(m, s);
      assert [] + s.events == s.events;
    } else {
      MergeConserves(m, s);
      var q, r := m.queue[0].events, MoveToQueue(m, s).queue[0].events;
      hide HasCode, Times, ParamTimes, Keyed, Attached, MoveToQueue, Structured;
      if code >= 12 {
        KeyedCounts(q, code, key);
        KeyedCounts(s.events, code, key);
        KeyedCounts(r, code, key);
      }
      AttachedCounts(q, code, p);
      AttachedCounts(s.events, code, p);
      AttachedCounts(r, code, p);
      CoversSum(q, s.events, r, code, key, p);
    }
  }

  // Only connection requests were left to report, and there was one.
  predicate GivenUp(m: Machine, s: Session) {
    (forall e :: e in s.events ==> e.code == 6) && (m.crEvent || s.events != [])
  }

  // A failed session is given up exactly when it has nothing but connection requests to report; a
  // connection request is noted. Any other is queued again and counts as a retry.
  lemma FailMeans(m: Machine, s: Session)
    requires Structured(m) && m.send == Some(s)
    ensures var r := FailSession(m, s);
      && r.send == None && r.crEvent == (m.crEvent || exists e :: e in s.events && e.code == 6)
      && (GivenUp(m, s) ==> r.queue == m.queue && r.retries == 0)
      && (!GivenUp(m, s) ==> r.queue != [] && r.retries == m.retries + 1)
  {
    WithoutNoRetryMeans(s.events);
    var cr, f := m.crEvent || HasConnectionRequest(s.events), s.(events := WithoutNoRetry(s.events));
    RequestIsEvent(s.events);
    NothingKept(s.events);
    assert InformAtHead(s.acs) || !HasInform(s.acs);
    hide WithoutNoRetry, HasConnectionRequest, MoveToQueue, Destroyed;
    if f.events != [] || !cr {
      MovedShape(m.(crEvent := cr), f);
    }
  }

  lemma RequestIsEvent(events: seq<Event>)
    ensures HasConnectionRequest(events) <==> exists e :: e in events && e.code == 6
  {
    if i :| 0 <= i < |events| && events[i].code == 6 {
      assert events[i] in events;
    }
  }

  lemma NothingKept(events: seq<Event>)
    ensures WithoutNoRetry(events) == [] <==> forall e :: e in events ==> e.code == 6
  {
    WithoutNoRetryMeans(events);
    if WithoutNoRetry(events) != [] {
      assert WithoutNoRetry(events)[0] in WithoutNoRetry(events);
    }
  }

  lemma MovedShape(m: Machine, s: Session)
    requires Structured(m) && (InformAtHead(s.acs) || !HasInform(s.acs))
    ensures var r := MoveToQueue(m, s);
      r.send == None && r.queue != [] && r.retries == m.retries + 1 && r.crEvent == m.crEvent
  {
    hide MergeEvents, Destroyed, Moved, LeftBehind, SortedEvents, HasCode, Keyed, Attached, Others, Count, HasKind;
    if m.queue == [] {
      RequeueConserves(m, s);
    } else {
      MergeConserves(m, s);
      MovedNote(m, s);
    }
  }

  lemma MovedNote(m: Machine, s: Session)
    requires PointsIntoQueue(m) && m.queue != []
    ensures MoveToQueue(m, s).crEvent == m.crEvent
  {
    MergedShape(m, s);
    MergeKeepsNote(m.(retries := m.retries + 1, send := None), s.events);
    hide MergeEvents, Destroyed, Moved, LeftBehind, MoveToQueue;
  }

  lemma {:induction false} MergeKeepsNote(m: Machine, events: seq<Event>)
    requires HeadOk(m)
    ensures MergeEvents(m, events).crEvent == m.crEvent
    decreases |events|
  {
    if events != [] {
      MergeKeepsNote(AddSaved(m, events[0].code, events[0].key, events[0].params, true), events[1..]);
    }
  }

  lemma FailCovers(m: Machine, s: Session, code: nat, key: string, p: Param)
    requires Structured(m) && m.send == Some(s) && code != 6
    ensures Covers(Live(m), Live(FailSession(m, s)), code, key, p)
  {
    var n, f := m.(crEvent := m.crEvent || HasConnectionRequest(s.events)), s.(events := WithoutNoRetry(s.events));
    KeptCovers(s.events, code, key, p);
    SameCovers(QueueEvents(m), code, key, p);
    CoversConcat(QueueEvents(m), s.events, QueueEvents(m), f.events, code, key, p);
    assert InformAtHead(s.acs) || !HasInform(s.acs);
    assert Structured(n);
    hide Structured, HasCode, Times, ParamTimes, WithoutNoRetry, HasConnectionRequest, MoveToQueue, Destroyed, Covers;
    if f.events != [] || !n.crEvent {
      MoveCovers(n, f, code, key, p);
      var r := MoveToQueue(n, f);
      assert Live(r) == QueueEvents(r) + [] == QueueEvents(r);
      CoversTransitive(Live(m), QueueEvents(m) + f.events, QueueEvents(r), code, key, p);
    } else {
      assert QueueEvents(m) + f.events == QueueEvents(m) + [];
    }
  }

  lemma SameCovers(events: seq<Event>, code: nat, key: string, p: Param)
    ensures Covers(events, events, code, key, p)
  {
  }

  // ---- every step ----

  // The steps that may take events out: a queue that is cleared, an Inform that is answered, and
  // for connection requests a session that failed.
  predicate Takes(m: Machine, op: Op, code: nat) {
    || op.ClearQueue?
    || (op.Acknowledge? && m.send.Some? && m.send.value.acs != [] && m.send.value.acs[0].kind.Inform?)
    || (op.Fail? && code == 6)
  }

  // No other step loses an event, nor one of its parameters.
  lemma StepKeepsEvents(m: Machine, op: Op, code: nat, key: string, p: Param)
    requires Structured(m) && !Takes(m, op, code)
    ensures Covers(Live(m), Live(Step(m, op)), code, key, p)
  {
    SameCovers(SendEvents(m), code, key, p);
    SameCovers(Live(m), code, key, p);
    var m' := Step(m, op);
    match op
    case Add(c, k) => AddLiveCovers(m, c, k, code, key, p);
    case AddAndSave(c, k, params, spliced) => AddSavedLiveCovers(m, c, k, params, spliced, code, key, p);
    case Fail => if m.send.Some? { FailCovers(m, m.send.value, code, key, p); }
    case StartSession =>
      if m.send.None? && m.queue != [] {
        assert Live(m) == QueueEvents(m) + [] == [] + QueueEvents(m) == Live(m');
      }
    case Finish =>
    case ClearQueue =>
    case AddRpc(_) => assert Live(m') == Live(m);
    case Receive(_) => assert Live(m') == Live(m);
    case Acknowledge => assert Live(m') == Live(m);
  }

  lemma AddLiveCovers(m: Machine, c: nat, k: string, code: nat, key: string, p: Param)
    requires Structured(m)
    ensures Covers(Live(m), Live(AddEvent(m, c, k)), code, key, p)
  {
    assert HeadOk(m);
    hide Covers, Structured, AddEvent;
    SameCovers(SendEvents(m), code, key, p);
    AddEventCovers(m, c, k, code, key, p);
    CoversConcat(QueueEvents(m), SendEvents(m), QueueEvents(AddEvent(m, c, k)), SendEvents(m), code, key, p);
  }

  lemma AddSavedLiveCovers(m: Machine, c: nat, k: string, params: seq<Param>, spliced: bool, code: nat, key: string,
      p: Param)
    requires Structured(m)
    ensures Covers(Live(m), Live(AddSaved(m, c, k, params, spliced)), code, key, p)
  {
    assert HeadOk(m);
    hide Covers, Structured, AddSaved;
    SameCovers(SendEvents(m), code, key, p);
    AddSavedCovers(m, c, k, params, spliced, code, key, p);
    CoversConcat(QueueEvents(m), SendEvents(m), QueueEvents(AddSaved(m, c, k, params, spliced)), SendEvents(m), code,
      key, p);
  }

  // Over whole runs: what is live stays live until a step that may take it.
  lemma {:induction false} RunKeepsEvents(m: Machine, ops: seq<Op>, code: nat, key: string, p: Param)
    requires Structured(m) && forall i :: 0 <= i < |ops| ==> !Takes(RunFrom(m, ops[..i]), ops[i], code)
    ensures Covers(Live(m), Live(RunFrom(m, ops)), code, key, p)
  {
    hide Covers, Takes, Step;
    if ops == [] {
      SameCovers(Live(m), code, key, p);
    } else {
      var n, init := |ops| - 1, ops[..|ops| - 1];
      assert forall i :: 0 <= i < n ==> init[..i] == ops[..i] && init[i] == ops[i];
      RunKeepsEvents(m, init, code, key, p);
      StepKeepsEvents(RunFrom(m, init), ops[n], code, key, p);
      CoversTransitive(Live(m), Live(RunFrom(m, init)), Live(RunFrom(m, ops)), code, key, p);
    }
  }

  // ---- the RPCs ----

  function QueueAcs(m: Machine): seq<Rpc> {
    if m.queue == [] then [] else m.queue[0].acs
  }

  function SendAcs(m: Machine): seq<Rpc> {
    if m.send.None? then [] else m.send.value.acs
  }

  // The RPCs still to be done, but for Inform and GetRPCMethods, which come with the sessions.
  function Work(m: Machine): multiset<Rpc> {
    multiset(Others(QueueAcs(m))) + multiset(Others(SendAcs(m)))
  }

  lemma {:induction false} OthersConcat(a: seq<Rpc>, b: seq<Rpc>)
    ensures Others(a + b) == Others(a) + Others(b)
  {
    if a == [] {
      assert a + b == b;
    } else {
      assert (a + b)[1..] == a[1..] + b;
      OthersConcat(a[1..], b);
    }
  }

  lemma OthersOne(r: Rpc)
    ensures Others([r]) == if r.kind.Inform? || r.kind.GetRpcMethods? then [] else [r]
  {
    assert [r][1..] == [];
    assert Others([r][1..]) == [];
  }

  lemma MovedWork(m: Machine, s: Session)
    requires Structured(m) && (InformAtHead(s.acs) || !HasInform(s.acs))
    ensures var r := MoveToQueue(m, s);
      multiset(Others(QueueAcs(r))) == multiset(Others(QueueAcs(m))) + multiset(Others(s.acs))
  {
    if m.queue == [] {
      RequeueConserves(m, s);
    } else {
      MergeConserves(m, s);
      var q, r := m.queue[0].acs, MoveToQueue(m, s).queue[0].acs;
      hide Others, MoveToQueue, Structured;
      assert r == q + r[|q|..];
      OthersConcat(q, r[|q|..]);
    }
  }

  // A failed session, seen without the details of its move.
  lemma FailShape(m: Machine, s: Session)
    requires Structured(m) && m.send == Some(s)
    ensures var n, f := m.(crEvent := m.crEvent || HasConnectionRequest(s.events)),
      s.(events := WithoutNoRetry(s.events));
      && Structured(n) && (InformAtHead(f.acs) || !HasInform(f.acs))
      && (GivenUp(m, s) ==> FailSession(m, s).send == None && QueueAcs(FailSession(m, s)) == QueueAcs(m))
      && (!GivenUp(m, s) ==> FailSession(m, s) == MoveToQueue(n, f))
  {
    RequestIsEvent(s.events);
    NothingKept(s.events);
    assert s.events != [] ==> s.events[0] in s.events;
    hide SortedEvents, HasConnectionRequest, WithoutNoRetry, MoveToQueue, Destroyed;
  }

  lemma FailWork(m: Machine, s: Session)
    requires Structured(m) && m.send == Some(s)
    ensures Work(FailSession(m, s)) == if GivenUp(m, s) then multiset(Others(QueueAcs(m))) else Work(m)
  {
    FailShape(m, s);
    NoOthers();
    if !GivenUp(m, s) {
      var n, f := m.(crEvent := m.crEvent || HasConnectionRequest(s.events)), s.(events := WithoutNoRetry(s.events));
      MovedWork(n, f);
      MovedShape(n, f);
      hide Structured, Others, WithoutNoRetry, HasConnectionRequest, MoveToQueue, FailSession, GivenUp;
    } else {
      hide Structured, Others, FailSession, GivenUp;
    }
  }

  lemma NoOthers()
    ensures Others([]) == []
  {
  }

  lemma AddRpcWork(m: Machine, r: Rpc)
    requires Structured(m)
    ensures Work(Step(m, AddRpc(r))) == Work(m) + (if m.head.Some? then multiset(Others([r])) else multiset{})
  {
    OthersOne(r);
    hide Others, SortedEvents;
    OthersConcat(QueueAcs(m), [r]);
  }

  lemma AnswerWork(m: Machine)
    requires Structured(m) && SendAcs(m) != []
    ensures Work(Step(m, Acknowledge)) == Work(m) - multiset(Others([SendAcs(m)[0]]))
  {
    AnswerAcs(m);
    hide Others, Structured, Step, QueueAcs, SendAcs;
    OthersConcat([SendAcs(m)[0]], SendAcs(m)[1..]);
  }

  lemma AnswerAcs(m: Machine)
    requires Structured(m) && SendAcs(m) != []
    ensures QueueAcs(Step(m, Acknowledge)) == QueueAcs(m) && SendAcs(Step(m, Acknowledge)) == SendAcs(m)[1..]
    ensures SendAcs(m) == [SendAcs(m)[0]] + SendAcs(m)[1..]
  {
    hide DeleteRecords, SortedEvents, InformAtHead, HasInform;
  }

  lemma OtherWork(m: Machine, op: Op)
    requires Structured(m) && (op.ClearQueue? || op.StartSession? || op.Receive? || op.Finish?)
    ensures Work(Step(m, op)) == Work(m)
  {
    NoOthers();
    hide Others, SortedEvents, InformAtHead, HasInform, DeleteRecords, Destroyed, MarkAll;
  }

  // Each step leaves the work as it was, but for an RPC that is added, the answered one, and those
  // of a session that is given up.
  lemma StepKeepsWork(m: Machine, op: Op)
    requires Structured(m)
    ensures Work(Step(m, op)) ==
      match op
      case AddRpc(r) => Work(m) + (if m.head.Some? then multiset(Others([r])) else multiset{})
      case Acknowledge => if SendAcs(m) == [] then Work(m) else Work(m) - multiset(Others([SendAcs(m)[0]]))
      case Fail => if m.send.Some? && GivenUp(m, m.send.value) then multiset(Others(QueueAcs(m))) else Work(m)
      case _ => Work(m)
  {
    hide Others, GivenUp, Work, Structured, AddEvent, AddSaved, FailSession, AcknowledgeHead;
    match op
    case Add(c, k) => AddKeepsAcs(m, c, k, [], false);
    case AddAndSave(c, k, params, spliced) => AddKeepsAcs(m, c, k, params, spliced);
    case AddRpc(r) => AddRpcWork(m, r);
    case Acknowledge => if SendAcs(m) != [] { AnswerWork(m); }
    case Fail => if m.send.Some? { FailWork(m, m.send.value); }
    case _ => OtherWork(m, op);
  }

  lemma AddKeepsAcs(m: Machine, code: nat, key: string, params: seq<Param>, spliced: bool)
    requires Structured(m)
    ensures Work(AddEvent(m, code, key)) == Work(m) && Work(AddSaved(m, code, key, params, spliced)) == Work(m)
  {
    NoOthers();
    OthersOne(INFORM_RPC);
    hide Others, AddTo, SaveRecord, Extended;
  }

  // What is sent, answered and finished.
  lemma SessionMoves(m: Machine)
    requires Structured(m)
    ensures m.send == None && m.queue != [] ==>
              Step(m, StartSession).send == Some(m.queue[0]) && Step(m, StartSession).queue == []
    ensures SendAcs(m) != [] ==>
              var r := Step(m, Acknowledge);
              && SendAcs(r) == SendAcs(m)[1..] && r.queue == m.queue
              && SendEvents(r) == if SendAcs(m)[0].kind.Inform? then [] else SendEvents(m)
    ensures m.send.Some? && SendAcs(m) == [] ==>
              var r := Step(m, Finish); r.send == None && r.retries == 0 && r.queue == m.queue && Live(r) == Live(m)
    ensures forall r: Rpc :: m.head.Some? && !r.kind.Inform? ==>
              QueueAcs(Step(m, AddRpc(r))) == QueueAcs(m) + [r] && SendAcs(Step(m, AddRpc(r))) == SendAcs(m)
    ensures forall request :: m.send.Some? ==>
              Step(m, Receive(request)).send == Some(m.send.value.(cpe := m.send.value.cpe + [request]))
    ensures var r := Step(m, ClearQueue);
              QueueEvents(r) == [] && SendEvents(r) == SendEvents(m) && QueueAcs(r) == QueueAcs(m)
  {
    hide DeleteRecords, Destroyed, MarkAll, SortedEvents;
  }

  // ---- what the backup never holds ----

  // Boot, value change, connection request and diagnostics complete are not retried after a reboot.
  predicate RetriedCodes(tree: seq<Saved>) {
    forall i :: 0 <= i < |tree| ==>
      tree[i].code != 1 && tree[i].code != 4 && tree[i].code != 6 && tree[i].code != 8
  }

  lemma SaveRetried(tree: seq<Saved>, e: Event)
    requires RetriedCodes(tree)
    ensures RetriedCodes(SaveRecord(tree, e))
  {
  }

  lemma {:induction false} DeleteRetried(tree: seq<Saved>, events: seq<Event>, queued: bool)
    requires RetriedCodes(tree)
    ensures RetriedCodes(DeleteRecords(tree, events, queued))
    decreases |events|
  {
    if events != [] {
      DeleteRetried(DeleteRecord(tree, events[0].id, queued), events[1..], queued);
    }
  }

  lemma AddSavedRetried(m: Machine, code: nat, key: string, params: seq<Param>, spliced: bool)
    requires HeadOk(m) && RetriedCodes(m.tree)
    ensures RetriedCodes(AddSaved(m, code, key, params, spliced).tree)
  {
    var i := Stop(Current(WithQueue(m)).events, code, 0);
    var added := AddEvent(m, code, key);
    assert added.tree == m.tree;
    var s := Current(added);
    hide SaveRecord, RetriedCodes, Extended, AddEvent, Stop;
    SaveRetried(added.tree, s.events[i].(params := Extended(s.events[i].params, params, spliced)));
  }

  lemma {:induction false} MergeRetried(m: Machine, events: seq<Event>)
    requires HeadOk(m) && RetriedCodes(m.tree)
    ensures RetriedCodes(MergeEvents(m, events).tree)
    decreases |events|
  {
    hide RetriedCodes, AddSaved;
    if events != [] {
      AddSavedRetried(m, events[0].code, events[0].key, events[0].params, true);
      MergeRetried(AddSaved(m, events[0].code, events[0].key, events[0].params, true), events[1..]);
    }
  }

  lemma DestroyedRetried(tree: seq<Saved>, s: Session)
    requires RetriedCodes(tree)
    ensures RetriedCodes(Destroyed(tree, s))
  {
    DeleteRetried(tree, s.events, false);
  }

  lemma MoveRetried(m: Machine, s: Session)
    requires Structured(m) && RetriedCodes(m.tree)
    ensures RetriedCodes(MoveToQueue(m, s).tree)
  {
    var n := m.(retries := m.retries + 1, send := None);
    MergeRetried(n, s.events);
    if m.queue != [] {
      MergedShape(m, s);
      var c := Current(MergeEvents(n, s.events));
      DestroyedRetried(MergeEvents(n, s.events).tree, s.(acs := LeftBehind(c.acs, s.acs)));
    }
    hide MergeEvents, Destroyed, Moved, LeftBehind, SortedEvents, InformAtHead, HasInform, InformFirst;
  }

  lemma StepRetried(m: Machine, op: Op)
    requires Structured(m) && RetriedCodes(m.tree)
    ensures RetriedCodes(Step(m, op).tree)
  {
    if m.send.Some? {
      var s := m.send.value;
      DeleteRetried(m.tree, s.events, false);
      DestroyedRetried(m.tree, s);
      DestroyedRetried(m.tree, s.(events := WithoutNoRetry(s.events)));
      MoveRetried(m.(crEvent := m.crEvent || HasConnectionRequest(s.events)), s.(events := WithoutNoRetry(s.events)));
    }
    DeleteRetried(m.tree, QueueEvents(m), true);
    MarkRetried(m.tree);
    hide RetriedCodes, MoveToQueue, Destroyed, DeleteRecords, WithoutNoRetry, HasConnectionRequest, AddSaved, MarkAll,
      SortedEvents, InformAtHead, HasInform;
    match op
    case AddAndSave(code, key, params, spliced) => AddSavedRetried(m, code, key, params, spliced);
    case _ =>
  }

  lemma MarkRetried(tree: seq<Saved>)
    requires RetriedCodes(tree)
    ensures RetriedCodes(MarkAll(tree, false)) && RetriedCodes(MarkAll(tree, true))
  {
  }

  // In every reachable state; and such a record in a file would not be loaded.
  lemma {:induction false} RunRetried(ops: seq<Op>)
    ensures RetriedCodes(Run(ops).tree)
  {
    if ops != [] {
      var init := ops[..|ops| - 1];
      RunRetried(init);
      hide RetriedCodes, Step;
      StepRetried(Run(init), ops[|ops| - 1]);
    }
  }

  lemma LoadSkips(m: Machine, r: Saved)
    requires HeadOk(m) && (r.code == 1 || r.code == 4 || r.code == 6 || r.code == 8)
    ensures LoadRecord(m, r) == m
  {
  }
}
