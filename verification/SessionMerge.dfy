/** What cwmp_move_session_to_session_queue conserves when a failed session meets a queued one. */
module SessionMerge {
  import opened Options
  import opened ParamList
  import opened Session

  predicate HasCode(events: seq<Event>, code: nat) {
    exists i :: 0 <= i < |events| && events[i].code == code
  }

  // The (code, command key) pairs of the MULTIPLE events.
  function Keyed(events: seq<Event>): multiset<(nat, string)> {
    if events == [] then multiset{}
    else (if Single(events[0].code) then multiset{} else multiset{(events[0].code, events[0].key)}) + Keyed(events[1..])
  }

  function Tagged(code: nat, params: seq<Param>): multiset<(nat, Param)> {
    if params == [] then multiset{} else multiset{(code, params[0])} + Tagged(code, params[1..])
  }

  // The attached parameters, each with the code of its event.
  function Attached(events: seq<Event>): multiset<(nat, Param)> {
    if events == [] then multiset{} else Tagged(events[0].code, events[0].params) + Attached(events[1..])
  }

  lemma {:induction false} KeyedConcat(a: seq<Event>, b: seq<Event>)
    ensures Keyed(a + b) == Keyed(a) + Keyed(b)
    ensures Attached(a + b) == Attached(a) + Attached(b)
  {
    if a == [] {
      assert a + b == b;
    } else {
      assert (a + b)[0] == a[0] && (a + b)[1..] == a[1..] + b;
      KeyedConcat(a[1..], b);
    }
  }

  lemma {:induction false} TaggedConcat(code: nat, a: seq<Param>, b: seq<Param>)
    ensures Tagged(code, a + b) == Tagged(code, a) + Tagged(code, b)
  {
    if a == [] {
      assert a + b == b;
    } else {
      assert (a + b)[0] == a[0] && (a + b)[1..] == a[1..] + b;
      TaggedConcat(code, a[1..], b);
    }
  }

  lemma KeyedOne(e: Event)
    ensures Keyed([e]) == if Single(e.code) then multiset{} else multiset{(e.code, e.key)}
    ensures Attached([e]) == Tagged(e.code, e.params)
  {
    assert [e][1..] == [];
  }

  // One event of the failed session added to the queued list, its parameters in front.
  function Absorb(events: seq<Event>, e: Event): seq<Event> {
    var added := AddTo(events, e.(params := []));
    var i := Stop(events, e.code, 0);
    added[i := added[i].(params := e.params + added[i].params)]
  }

  lemma Pieces(a: seq<Event>, x: Event, b: seq<Event>)
    ensures Keyed(a + [x] + b) == Keyed(a) + Keyed([x]) + Keyed(b)
    ensures Attached(a + [x] + b) == Attached(a) + Attached([x]) + Attached(b)
  {
    KeyedConcat(a + [x], b);
    KeyedConcat(a, [x]);
  }

  lemma Shuffle<T>(a: multiset<T>, b: multiset<T>, c: multiset<T>, e: multiset<T>)
    ensures a + (e + b) + c == (a + b + c) + e
    ensures a + e + c == (a + c) + e
  {
  }

  lemma AbsorbExisting(events: seq<Event>, e: Event)
    requires Existing(events, e.code)
    ensures Keyed(Absorb(events, e)) == Keyed(events) + Keyed([e])
    ensures Attached(Absorb(events, e)) == Attached(events) + Attached([e])
  {
    hide Keyed, Attached, Tagged;
    var i := Stop(events, e.code, 0);
    var old', b, a := events[i], events[..i], events[i + 1..];
    var x := old'.(params := e.params + old'.params);
    assert events == b + [old'] + a;
    assert Absorb(events, e) == b + [x] + a;
    Pieces(b, old', a);
    Pieces(b, x, a);
    KeyedOne(e);
    KeyedOne(x);
    KeyedOne(old');
    TaggedConcat(e.code, e.params, old'.params);
    Shuffle(Attached(b), Attached([old']), Attached(a), Attached([e]));
  }

  lemma AbsorbNewShape(events: seq<Event>, e: Event)
    requires !Existing(events, e.code)
    ensures Absorb(events, e) == events[..Stop(events, e.code, 0)] + [e] + events[Stop(events, e.code, 0)..]
  {
    assert e.params + [] == e.params;
  }

  lemma AbsorbNew(events: seq<Event>, e: Event)
    requires !Existing(events, e.code)
    ensures Keyed(Absorb(events, e)) == Keyed(events) + Keyed([e])
    ensures Attached(Absorb(events, e)) == Attached(events) + Attached([e])
  {
    AbsorbNewShape(events, e);
    hide Keyed, Attached, Tagged, Absorb;
    var i := Stop(events, e.code, 0);
    assert events == events[..i] + events[i..];
    KeyedConcat(events[..i], events[i..]);
    Pieces(events[..i], e, events[i..]);
    Shuffle(Keyed(events[..i]), multiset{}, Keyed(events[i..]), Keyed([e]));
    Shuffle(Attached(events[..i]), multiset{}, Attached(events[i..]), Attached([e]));
  }

  lemma AbsorbMeasures(events: seq<Event>, e: Event)
    ensures Keyed(Absorb(events, e)) == Keyed(events) + Keyed([e])
    ensures Attached(Absorb(events, e)) == Attached(events) + Attached([e])
  {
    if Existing(events, e.code) {
      AbsorbExisting(events, e);
    } else {
      AbsorbNew(events, e);
    }
  }

  lemma AbsorbCodes(events: seq<Event>, e: Event, code: nat)
    ensures HasCode(Absorb(events, e), code) <==> HasCode(events, code) || code == e.code
  {
    var i := Stop(events, e.code, 0);
    var r := Absorb(events, e);
    assert r[i].code == e.code;
    if Existing(events, e.code) {
      assert forall k :: 0 <= k < |r| ==> r[k].code == events[k].code;
    } else {
      assert forall k :: 0 <= k < |r| ==>
          r[k].code == if k < i then events[k].code else if k == i then e.code else events[k - 1].code;
      if k :| 0 <= k < |events| && events[k].code == code {
        assert r[if k < i then k else k + 1].code == code;
      }
    }
  }

  function AbsorbAll(events: seq<Event>, added: seq<Event>, lastId: nat): seq<Event>
    decreases |added|
  {
    if added == [] then events
    else
      var e := added[0].(id := NextId(lastId));
      AbsorbAll(Absorb(events, e), added[1..], if Existing(events, e.code) then lastId else NextId(lastId))
  }

  // The step of the machine is Absorb on its event list.
  lemma AddSavedAbsorbs(m: Machine, e: Event)
    requires Structured(m) && m.queue != []
    ensures var r := AddSaved(m, e.code, e.key, e.params, true);
            && Structured(r) && r.queue != []
            && Current(r).events == Absorb(Current(m).events, e.(id := NextId(m.lastId)))
            && r.lastId == (if Existing(Current(m).events, e.code) then m.lastId else NextId(m.lastId))
  {
    AddSavedStructured(m, e.code, e.key, e.params, true);
  }

  lemma {:induction false} MergeAbsorbs(m: Machine, events: seq<Event>)
    requires Structured(m) && m.queue != []
    ensures var r := MergeEvents(m, events);
            && Structured(r) && r.queue != [] && Current(r).acs == Current(m).acs
            && Current(r).events == AbsorbAll(Current(m).events, events, m.lastId)
    decreases |events|
  {
    MergeEventsStructured(m, events);
    hide Structured, AddSaved, Absorb;
    if events != [] {
      var e := events[0];
      AddSavedAbsorbs(m, e);
      MergeAbsorbs(AddSaved(m, e.code, e.key, e.params, true), events[1..]);
    }
  }

  lemma {:induction false} AbsorbAllCodes(events: seq<Event>, added: seq<Event>, lastId: nat, code: nat)
    ensures HasCode(AbsorbAll(events, added, lastId), code) <==> HasCode(events, code) || HasCode(added, code)
    decreases |added|
  {
    hide HasCode, Absorb, Existing;
    if added != [] {
      var e := added[0].(id := NextId(lastId));
      AbsorbCodes(events, e, code);
      HasCodeFirst(added, code);
      AbsorbAllCodes(Absorb(events, e), added[1..], if Existing(events, e.code) then lastId else NextId(lastId), code);
    } else {
      NoCode(added, code);
    }
  }

  lemma NoCode(events: seq<Event>, code: nat)
    requires events == []
    ensures !HasCode(events, code)
  {
  }

  lemma {:induction false} AbsorbAllMeasures(events: seq<Event>, added: seq<Event>, lastId: nat)
    ensures Keyed(AbsorbAll(events, added, lastId)) == Keyed(events) + Keyed(added)
    ensures Attached(AbsorbAll(events, added, lastId)) == Attached(events) + Attached(added)
    decreases |added|
  {
    hide Absorb, Existing, Tagged;
    if added != [] {
      var e := added[0].(id := NextId(lastId));
      AbsorbMeasures(events, e);
      KeyedOne(e);
      AbsorbAllMeasures(Absorb(events, e), added[1..], if Existing(events, e.code) then lastId else NextId(lastId));
    }
  }

  lemma HasCodeFirst(events: seq<Event>, code: nat)
    requires events != []
    ensures HasCode(events, code) <==> events[0].code == code || HasCode(events[1..], code)
  {
    if k :| 0 <= k < |events| && events[k].code == code {
      assert k > 0 ==> events[1..][k - 1].code == code;
    }
    if k :| 0 <= k < |events[1..]| && events[1..][k].code == code {
      assert events[k + 1].code == code;
    }
  }

  // ---- the RPCs ----

  predicate OncePerSession(r: Rpc) { r.kind.Inform? || r.kind.GetRpcMethods? }

  predicate HasKind(acs: seq<Rpc>, kind: Kind) {
    exists i :: 0 <= i < |acs| && acs[i].kind == kind
  }

  // The RPCs that are not kept to one per session, in order.
  function Others(acs: seq<Rpc>): seq<Rpc> {
    if acs == [] then []
    else if OncePerSession(acs[0]) then Others(acs[1..])
    else [acs[0]] + Others(acs[1..])
  }

  lemma {:induction false} MovedOthers(queued: seq<Rpc>, acs: seq<Rpc>)
    ensures Others(Moved(queued, acs)) == Others(acs)
    ensures multiset(Moved(queued, acs)) + multiset(LeftBehind(queued, acs)) == multiset(acs)
    ensures forall r :: r in LeftBehind(queued, acs) ==> OncePerSession(r)
    decreases |acs|
  {
    if acs != [] {
      assert acs == [acs[0]] + acs[1..];
      if Duplicate(queued, acs[0]) {
        MovedOthers(queued, acs[1..]);
      } else {
        var rest := Moved(queued + [acs[0]], acs[1..]);
        MovedOthers(queued + [acs[0]], acs[1..]);
        assert Moved(queued, acs)[0] == acs[0] && Moved(queued, acs)[1..] == rest;
      }
    }
  }

  lemma HasKindAppend(queued: seq<Rpc>, r: Rpc, kind: Kind)
    ensures HasKind(queued + [r], kind) <==> HasKind(queued, kind) || r.kind == kind
  {
    if i :| 0 <= i < |queued| && queued[i].kind == kind {
      assert (queued + [r])[i].kind == kind;
    }
    assert (queued + [r])[|queued|] == r;
    if i :| 0 <= i < |queued + [r]| && (queued + [r])[i].kind == kind {
      assert i < |queued| ==> queued[i].kind == kind;
    }
  }

  function Count(acs: seq<Rpc>, kind: Kind): nat {
    if acs == [] then 0 else (if acs[0].kind == kind then 1 else 0) + Count(acs[1..], kind)
  }

  // Of Inform and of GetRPCMethods, one is moved exactly when the queued session has none.
  lemma {:induction false} MovedOnce(queued: seq<Rpc>, acs: seq<Rpc>, kind: Kind)
    requires kind.Inform? || kind.GetRpcMethods?
    ensures Count(Moved(queued, acs), kind) == if !HasKind(queued, kind) && HasKind(acs, kind) then 1 else 0
    decreases |acs|
  {
    if acs != [] {
      HasKindFirst(acs, kind);
      if Duplicate(queued, acs[0]) {
        MovedOnce(queued, acs[1..], kind);
      } else {
        MovedOnce(queued + [acs[0]], acs[1..], kind);
        HasKindAppend(queued, acs[0], kind);
        assert Moved(queued, acs)[1..] == Moved(queued + [acs[0]], acs[1..]);
      }
    }
  }

  lemma HasKindFirst(acs: seq<Rpc>, kind: Kind)
    requires acs != []
    ensures HasKind(acs, kind) <==> acs[0].kind == kind || HasKind(acs[1..], kind)
  {
    if k :| 0 <= k < |acs| && acs[k].kind == kind {
      assert k > 0 ==> acs[1..][k - 1].kind == kind;
    }
    if k :| 0 <= k < |acs[1..]| && acs[1..][k].kind == kind {
      assert acs[k + 1].kind == kind;
    }
  }

  // ---- the merge ----

  // SINGLE codes become the union, MULTIPLE (code, key) pairs and attached parameters the
  // multiset sum; the queued RPCs stay in front, and of the others every one that is not a
  // duplicate Inform or GetRPCMethods follows exactly once, in order.
  lemma MergeConserves(m: Machine, s: Session)
    requires Structured(m) && m.queue != []
    ensures var r := MoveToQueue(m, s);
            && r.head == Some(0) && |r.queue| == 1 && r.send == None && r.retries == m.retries + 1
            && (forall code :: HasCode(r.queue[0].events, code)
                 <==> HasCode(m.queue[0].events, code) || HasCode(s.events, code))
            && Keyed(r.queue[0].events) == Keyed(m.queue[0].events) + Keyed(s.events)
            && Attached(r.queue[0].events) == Attached(m.queue[0].events) + Attached(s.events)
            && m.queue[0].acs <= r.queue[0].acs
            && Others(r.queue[0].acs[|m.queue[0].acs|..]) == Others(s.acs)
            && Count(r.queue[0].acs[|m.queue[0].acs|..], GetRpcMethods)
                 == (if !HasKind(m.queue[0].acs, GetRpcMethods) && HasKind(s.acs, GetRpcMethods) then 1 else 0)
            && Count(r.queue[0].acs[|m.queue[0].acs|..], Inform) == 0
  {
    var q := m.queue[0];
    var n := m.(retries := m.retries + 1, send := None);
    MergeShape(m, s, q);
    assert q.acs[0].kind == Inform;
    assert HasKind(q.acs, Inform);
    hide MoveToQueue, MergeEvents, Moved, LeftBehind, Keyed, Attached, HasCode, Others, Count, HasKind, AbsorbAll;
    MergeAbsorbs(n, s.events);
    AbsorbAllMeasures(q.events, s.events, n.lastId);
    forall code ensures HasCode(AbsorbAll(q.events, s.events, n.lastId), code)
        <==> HasCode(q.events, code) || HasCode(s.events, code) {
      AbsorbAllCodes(q.events, s.events, n.lastId, code);
    }
    MovedOthers(q.acs, s.acs);
    MovedOnce(q.acs, s.acs, GetRpcMethods);
    MovedOnce(q.acs, s.acs, Inform);
    assert (q.acs + Moved(q.acs, s.acs))[|q.acs|..] == Moved(q.acs, s.acs);
  }

  lemma MergeShape(m: Machine, s: Session, q: Session)
    requires Structured(m) && m.queue == [q]
    ensures var n := m.(retries := m.retries + 1, send := None);
            var r := MoveToQueue(m, s);
            && r.head == Some(0) && |r.queue| == 1 && r.send == None && r.retries == m.retries + 1
            && r.queue[0].events == Current(MergeEvents(n, s.events)).events
            && r.queue[0].acs == q.acs + Moved(q.acs, s.acs)
  {
    var n := m.(retries := m.retries + 1, send := None);
    MergeEventsStructured(n, s.events);
    MergeKeepsSend(n, s.events);
  }

  // With nothing queued the failed session itself comes back: its events as they are, its RPCs
  // with exactly one Inform, at the head, and without the requests of the server.
  lemma RequeueConserves(m: Machine, s: Session)
    requires m.queue == [] && m.head == None && (InformAtHead(s.acs) || !HasInform(s.acs))
    ensures var r := MoveToQueue(m, s);
            && r.head == Some(0) && |r.queue| == 1 && r.send == None && r.retries == m.retries + 1
            && r.queue[0].events == s.events && r.queue[0].cpe == []
            && InformAtHead(r.queue[0].acs) && Others(r.queue[0].acs) == Others(s.acs)
            && forall kind: Kind :: !kind.Inform? ==> Count(r.queue[0].acs, kind) == Count(s.acs, kind)
  {
    if !(s.acs != [] && s.acs[0].kind.Inform?) {
      var acs := [INFORM_RPC] + s.acs;
      assert !HasInform(s.acs);
      assert acs[1..] == s.acs;
    }
  }
}
