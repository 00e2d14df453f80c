/** Whole runs of the transfer queues against the clock and the requests: what is queued was asked
    for, and no transfer starts before the delay that was asked for has passed. */
module TransferRuns {
  import opened Options
  import opened Backup
  import opened Transfers

  // ---- which requests are accepted ----

  predicate FileTypeOk(kind: Kind, fileType: string) {
    if kind == Downloads then
      fileType == "1 Firmware Upgrade Image" || fileType == "2 Web Content" || fileType == "3 Vendor Configuration File"
    else "3 Vendor Configuration File" <= fileType || "4 Vendor Log File" <= fileType
  }

  predicate UrlOk(kind: Kind, url: string) {
    && url != "" && '@' !in url
    && ("http://" <= url || "ftp://" <= url || (kind == Downloads && "https://" <= url))
  }

  // A request is accepted exactly with an allowed file type and URL, while fewer than ten requests
  // wait for a time.
  lemma AcceptedIff(s: Queues, r: Request)
    ensures Check(r.kind, r.fileType, r.url, s.count) == NoFault <==>
      FileTypeOk(r.kind, r.fileType) && r.url.Some? && UrlOk(r.kind, r.url.value) && s.count < 10
  {
  }

  // The fault tells what is wrong, and the first three are looked for in this order.
  lemma RefusedFor(kind: Kind, fileType: string, url: Option<string>, count: int)
    ensures var fault := Check(kind, fileType, url, count);
      && (!FileTypeOk(kind, fileType) ==> fault == if kind == Downloads then InvalidArguments else RequestDenied)
      && (FileTypeOk(kind, fileType) ==>
            && (count >= 10 ==> fault == ResourcesExceeded)
            && (count < 10 && (url.None? || url == Some("")) ==> fault == RequestDenied)
            && (count < 10 && url.Some? && '@' in url.value ==> fault == InvalidArguments)
            && (fault == UnsupportedProtocol ==> url.Some? && !UrlOk(kind, url.value) && '@' !in url.value))
  {
  }

  // t is what request r, accepted at this time, asks for.
  predicate AskedBy(t: Transfer, kind: Kind, r: Request, now: int) {
    && r.kind == kind && FileTypeOk(kind, r.fileType)
    && r.url.Some? && UrlOk(kind, r.url.value) && t.url == Some(Str(r.url.value))
    && t.commandKey == r.transfer.commandKey && t.fileType == r.transfer.fileType
    && t.username == r.transfer.username && t.password == r.transfer.password
    && t.fileSize == (if kind == Downloads then r.transfer.fileSize else 0)
    && t.scheduledTime == (if r.delay == 0 then 0 else now + r.delay)
  }

  // t is put behind all that are earlier and in front of all that are later; of those at the same
  // time it comes first, or last.
  ghost predicate PlacedIn(q: seq<Transfer>, after: seq<Transfer>, t: Transfer, first: bool) {
    exists p :: 0 <= p <= |q| && after == q[..p] + [t] + q[p..]
      && (forall i :: 0 <= i < p ==>
            q[i].scheduledTime < t.scheduledTime || (!first && q[i].scheduledTime == t.scheduledTime))
      && (p < |q| ==> q[p].scheduledTime > t.scheduledTime || (first && q[p].scheduledTime == t.scheduledTime))
  }

  // A reload puts a transfer behind those at the same time.
  lemma LoadPlaces(s: Queues, r: Record)
    requires r.name == "download" || r.name == "upload"
    ensures var kind := if r.name == "download" then Downloads else Uploads;
      PlacedIn(QueueOf(s, kind), QueueOf(Load(s, r), kind), ReadTransfer(r), false)
  {
    hide ReadTransfer;
    var kind, t := if r.name == "download" then Downloads else Uploads, ReadTransfer(r);
    var q := QueueOf(s, kind);
    var p := Place(q, t.scheduledTime + 1);
    assert QueueOf(Load(s, r), kind) == q[..p] + [t] + q[p..];
  }

  // An accepted request queues one transfer as asked for, leaves the others alone and is saved.
  lemma HandleAdds(s: Queues, r: Request, now: int)
    requires Check(r.kind, r.fileType, r.url, s.count) == NoFault
    ensures var a := Handle(s, r, now);
      && AskedBy(Scheduled(r, now), r.kind, r, now)
      && multiset(QueueOf(a, r.kind)) == multiset(QueueOf(s, r.kind)) + multiset{Scheduled(r, now)}
      && (forall other: Kind :: other != r.kind ==> QueueOf(a, other) == QueueOf(s, other))
      && a.file == a.tree
  {
    var q := QueueOf(s, r.kind);
    AcceptedIff(s, r);
    hide Insert, RecordOf, KeysOf, Check, AllSized;
    InsertMembers(q, Place(q, Scheduled(r, now).scheduledTime), Scheduled(r, now));
  }

  lemma HandlePlaces(s: Queues, r: Request, now: int)
    requires Check(r.kind, r.fileType, r.url, s.count) == NoFault
    ensures PlacedIn(QueueOf(s, r.kind), QueueOf(Handle(s, r, now), r.kind), Scheduled(r, now), true)
  {
    hide Insert, RecordOf, KeysOf, Check, Scheduled;
    var q, t := QueueOf(s, r.kind), Scheduled(r, now);
    var p := Place(q, t.scheduledTime);
    assert QueueOf(Handle(s, r, now), r.kind) == q[..p] + [t] + q[p..];
  }

  // ---- every queued transfer was asked for ----

  ghost predicate Asked(ops: seq<Op>, kind: Kind, t: Transfer) {
    exists i :: 0 <= i < |ops| && ops[i].Receive? && AskedBy(t, kind, ops[i].request, ops[i].now)
  }

  ghost predicate AllAsked(ops: seq<Op>, q: seq<Transfer>, kind: Kind) {
    forall t :: t in q ==> Asked(ops, kind, t)
  }

  ghost predicate TreeAsked(ops: seq<Op>, tree: seq<Record>) {
    AllAsked(ops, StoredOf(tree, Downloads), Downloads) && AllAsked(ops, StoredOf(tree, Uploads), Uploads)
  }

  ghost predicate StateAsked(ops: seq<Op>, s: Queues) {
    && AllAsked(ops, s.downloads, Downloads) && AllAsked(ops, s.uploads, Uploads)
    && TreeAsked(ops, s.tree) && TreeAsked(ops, s.file)
  }

  lemma AskedLater(ops: seq<Op>, op: Op, kind: Kind, t: Transfer)
    requires Asked(ops, kind, t)
    ensures Asked(ops + [op], kind, t)
  {
    hide AskedBy;
    var i :| 0 <= i < |ops| && ops[i].Receive? && AskedBy(t, kind, ops[i].request, ops[i].now);
    assert (ops + [op])[i] == ops[i];
  }

  lemma StateAskedLater(ops: seq<Op>, op: Op, s: Queues)
    requires StateAsked(ops, s)
    ensures StateAsked(ops + [op], s)
  {
    hide Asked, StoredOf;
    forall kind: Kind, t: Transfer | Asked(ops, kind, t) ensures Asked(ops + [op], kind, t) {
      AskedLater(ops, op, kind, t);
    }
  }

  lemma DeleteOneAsked(ops: seq<Op>, tree: seq<Record>, name: string, keys: seq<Key>, kind: Kind)
    requires AllAsked(ops, StoredOf(tree, kind), kind)
    ensures AllAsked(ops, StoredOf(Delete(tree, name, keys), kind), kind)
  {
    hide Asked, StoredOf, Found, OneStored;
    var found := Found(tree, name, keys);
    if found.Some? {
      assert Delete(tree, name, keys) == Transfers.Without(tree, found.value);
      StoredWithout(tree, found.value, kind);
      forall t | t in StoredOf(Delete(tree, name, keys), kind) ensures t in StoredOf(tree, kind) {
        assert t in multiset(StoredOf(Delete(tree, name, keys), kind));
        assert t in multiset(StoredOf(tree, kind));
      }
    }
  }

  lemma DeleteAsked(ops: seq<Op>, tree: seq<Record>, name: string, keys: seq<Key>)
    requires TreeAsked(ops, tree)
    ensures TreeAsked(ops, Delete(tree, name, keys))
  {
    DeleteOneAsked(ops, tree, name, keys, Downloads);
    DeleteOneAsked(ops, tree, name, keys, Uploads);
    hide Asked, StoredOf, Delete;
  }

  lemma FewerAsked(ops: seq<Op>, q: seq<Transfer>, kind: Kind, i: nat)
    requires AllAsked(ops, q, kind) && i < |q|
    ensures AllAsked(ops, q[..i] + q[i + 1..], kind)
  {
    hide Asked;
  }

  lemma RemoveAsked(ops: seq<Op>, s: Queues, kind: Kind, i: nat)
    requires StateAsked(ops, s) && i < |QueueOf(s, kind)|
    ensures StateAsked(ops, RemoveAt(s, kind, i)) && StateAsked(ops, SavedRemoveAt(s, kind, i))
  {
    hide AllAsked, TreeAsked, Delete, KeysOf;
    DeleteAsked(ops, s.tree, NameOf(kind), KeysOf(EntryOf(kind, QueueOf(s, kind)[i])));
    FewerAsked(ops, QueueOf(s, kind), kind, i);
  }

  lemma {:induction false} CancelAsked(ops: seq<Op>, s: Queues, kind: Kind, key: string, i: nat)
    requires StateAsked(ops, s)
    ensures StateAsked(ops, CancelFrom(s, kind, key, i))
    decreases |QueueOf(s, kind)| - i
  {
    hide StateAsked, RemoveAt;
    if i < |QueueOf(s, kind)| {
      if HasKey(QueueOf(s, kind)[i], key) {
        RemoveAsked(ops, s, kind, i);
        ShorterByOne(s, kind, i);
        CancelAsked(ops, SavedRemoveAt(s, kind, i), kind, key, i);
      } else {
        CancelAsked(ops, s, kind, key, i + 1);
      }
    }
  }

  lemma {:induction false} DropAsked(ops: seq<Op>, s: Queues, kind: Kind)
    requires StateAsked(ops, s)
    ensures StateAsked(ops, RemoveAll(s, kind))
    decreases |QueueOf(s, kind)|
  {
    hide StateAsked, RemoveAt;
    if QueueOf(s, kind) != [] {
      RemoveAsked(ops, s, kind, 0);
      ShorterByOne(s, kind, 0);
      DropAsked(ops, RemoveAt(s, kind, 0), kind);
    }
  }

  lemma InsertOneAsked(ops: seq<Op>, tree: seq<Record>, kind: Kind, t: Transfer, other: Kind)
    requires AllAsked(ops, StoredOf(tree, other), other) && Asked(ops, kind, t) && Sized(kind, t)
    ensures var e := EntryOf(kind, t);
      AllAsked(ops, StoredOf(Insert(tree, RecordOf(e), KeysOf(e)), other), other)
  {
    hide Asked, StoredOf, Found, KeysOf, RecordOf, Insert;
    InsertStored(tree, kind, t, other);
  }

  lemma InsertAsked(ops: seq<Op>, tree: seq<Record>, kind: Kind, t: Transfer)
    requires TreeAsked(ops, tree) && Asked(ops, kind, t) && Sized(kind, t)
    ensures var e := EntryOf(kind, t); TreeAsked(ops, Insert(tree, RecordOf(e), KeysOf(e)))
  {
    InsertOneAsked(ops, tree, kind, t, Downloads);
    InsertOneAsked(ops, tree, kind, t, Uploads);
    hide Asked, AllAsked, StoredOf, KeysOf, RecordOf, Insert;
  }

  lemma MoreAsked(ops: seq<Op>, q: seq<Transfer>, kind: Kind, p: nat, t: Transfer)
    requires AllAsked(ops, q, kind) && Asked(ops, kind, t) && p <= |q|
    ensures AllAsked(ops, InsertAt(q, p, t), kind)
  {
    hide Asked;
  }

  lemma AcceptAsked(ops: seq<Op>, s: Queues, r: Request, now: int)
    requires StateAsked(ops, s) && Check(r.kind, r.fileType, r.url, s.count) == NoFault
    ensures StateAsked(ops + [Receive(r, now)], Handle(s, r, now))
  {
    var more, t := ops + [Receive(r, now)], Scheduled(r, now);
    HandleAdds(s, r, now);
    StateAskedLater(ops, Receive(r, now), s);
    assert more[|ops|] == Receive(r, now);
    assert Asked(more, r.kind, t) && Sized(r.kind, t);
    hide Asked, AllAsked, TreeAsked, KeysOf, RecordOf, Check, Insert, Scheduled, Place, InsertAt;
    var q := QueueOf(s, r.kind);
    InsertAsked(more, s.tree, r.kind, t);
    MoreAsked(more, q, r.kind, Place(q, t.scheduledTime), t);
  }

  // The loaders queue what the records hold.
  lemma {:induction false} LoadedAsked(ops: seq<Op>, s: Queues, records: seq<Record>)
    requires s.downloads == [] && s.uploads == [] && TreeAsked(ops, records)
    ensures var l := LoadAll(s, records);
      && AllAsked(ops, l.downloads, Downloads) && AllAsked(ops, l.uploads, Uploads)
      && l.tree == s.tree && l.file == s.file
  {
    if records == [] {
    } else {
      var init, r := records[..|records| - 1], records[|records| - 1];
      StoredParts(ops, init, r) by { assert init + [r] == records; }
      hide Asked, AllAsked, TreeAsked, Load;
      LoadedAsked(ops, s, init);
      LoadOneAsked(ops, LoadAll(s, init), r);
    }
  }

  lemma StoredParts(ops: seq<Op>, init: seq<Record>, r: Record)
    requires TreeAsked(ops, init + [r])
    ensures TreeAsked(ops, init) && TreeAsked(ops, [r])
  {
    StoredAppend(init, [r], Downloads);
    StoredAppend(init, [r], Uploads);
    hide Asked, StoredOf;
  }

  lemma LoadOneAsked(ops: seq<Op>, s: Queues, r: Record)
    requires AllAsked(ops, s.downloads, Downloads) && AllAsked(ops, s.uploads, Uploads) && TreeAsked(ops, [r])
    ensures var l := Load(s, r);
      && AllAsked(ops, l.downloads, Downloads) && AllAsked(ops, l.uploads, Uploads)
      && l.tree == s.tree && l.file == s.file
  {
    if r.name == "download" || r.name == "upload" {
      var kind, t := if r.name == "download" then Downloads else Uploads, ReadTransfer(r);
      StoredOne(r, kind);
      assert t in StoredOf([r], kind);
      assert Asked(ops, kind, t);
      hide Asked, AllAsked, TreeAsked, ReadTransfer, Place, InsertAt;
      var q := QueueOf(s, kind);
      MoreAsked(ops, q, kind, Place(q, t.scheduledTime + 1), t);
    }
  }

  lemma StepAsked(ops: seq<Op>, s: Queues, op: Op)
    requires StateAsked(ops, s)
    ensures StateAsked(ops + [op], Step(s, op))
  {
    StateAskedLater(ops, op, s);
    hide AllAsked, TreeAsked, RemoveAt, CancelFrom, RemoveAll, Accept, LoadAll;
    match op {
      case Receive(r, now) =>
        if Check(r.kind, r.fileType, r.url, s.count) == NoFault { AcceptAsked(ops, s, r, now); }
      case Turn(kind, now) => if QueueOf(s, kind) != [] { RemoveAsked(ops + [op], s, kind, 0); }
      case CancelKey(key) =>
        CancelAsked(ops + [op], s, Downloads, key, 0);
        CancelAsked(ops + [op], CancelFrom(s, Downloads, key, 0), Uploads, key, 0);
      case DropAll(kind) => DropAsked(ops + [op], s, kind);
      case Save =>
      case Reboot => LoadedAsked(ops + [op], Queues([], [], 0, s.file, s.file), s.file);
    }
  }

  // In every run, restarts included, each queued transfer is what some accepted request of the run
  // asked for.
  lemma {:induction false} RunAsked(ops: seq<Op>)
    ensures StateAsked(ops, Run(ops))
  {
    hide Step;
    if ops == [] {
      EmptyAsked();
    } else {
      var init := ops[..|ops| - 1];
      assert init + [ops[|ops| - 1]] == ops;
      hide StateAsked;
      RunAsked(init);
      StepAsked(init, Run(init), ops[|ops| - 1]);
    }
  }

  lemma EmptyAsked()
    ensures StateAsked([], EMPTY)
  {
    assert StoredOf([], Downloads) == StoredOf([], Uploads) == [];
  }

  // t was asked for by a request whose delay has passed. (A time that comes out as 0 stands for none.)
  ghost predicate AskedAndDue(ops: seq<Op>, kind: Kind, t: Transfer, now: int) {
    exists i :: 0 <= i < |ops| && ops[i].Receive? && AskedBy(t, kind, ops[i].request, ops[i].now)
      && (ops[i].request.delay == 0 || ops[i].now + ops[i].request.delay == 0
          || now >= ops[i].now + ops[i].request.delay)
  }

  lemma DueWhenLate(ops: seq<Op>, kind: Kind, t: Transfer, now: int)
    requires Asked(ops, kind, t) && (t.scheduledTime == 0 || t.scheduledTime <= now)
    ensures AskedAndDue(ops, kind, t, now)
  {
    var i :| 0 <= i < |ops| && ops[i].Receive? && AskedBy(t, kind, ops[i].request, ops[i].now);
  }

  // In every run a transfer that a turn takes was asked for by a request whose delay has passed.
  lemma NeverEarly(ops: seq<Op>, kind: Kind, now: int)
    requires QueueOf(Run(ops + [Turn(kind, now)]), kind) != QueueOf(Run(ops), kind)
    ensures QueueOf(Run(ops), kind) != [] && AskedAndDue(ops, kind, QueueOf(Run(ops), kind)[0], now)
  {
    RunAsked(ops);
    LastStep(ops, Turn(kind, now));
    hide Launch, Run, Asked, AskedAndDue, TreeAsked;
    TurnWaitsIff(Run(ops), kind, now);
    var t := QueueOf(Run(ops), kind)[0];
    assert AllAsked(ops, QueueOf(Run(ops), kind), kind);
    DueWhenLate(ops, kind, t, now);
  }

  lemma LastStep(ops: seq<Op>, op: Op)
    ensures Run(ops + [op]) == Step(Run(ops), op)
  {
    assert (ops + [op])[..|ops|] == ops;
  }

  // And a turn does take the head once its delay has passed.
  lemma TakenWhenDue(ops: seq<Op>, kind: Kind, r: Request, at: int, now: int)
    requires QueueOf(Run(ops), kind) != [] && AskedBy(QueueOf(Run(ops), kind)[0], kind, r, at)
    requires r.delay == 0 || now >= at + r.delay
    ensures QueueOf(Run(ops + [Turn(kind, now)]), kind) == QueueOf(Run(ops), kind)[1..]
  {
    LastStep(ops, Turn(kind, now));
    hide Run, Launch;
    TurnWaitsIff(Run(ops), kind, now);
    TurnTakes(Run(ops), kind, now);
  }
}
