/** xml.c and backupSession.c: the two queues of scheduled downloads and uploads, the one counter
    that limits them, and their records in the backup. */
module Transfers {
  import opened Options
  import opened Backup

  const MAX_DOWNLOAD_QUEUE := 10
  const TIME_OF_GRACE := 3600

  datatype Kind = Downloads | Uploads

  datatype Fault = NoFault | RequestDenied | InvalidArguments | ResourcesExceeded | UnsupportedProtocol

  // The queues, count_download_queue, bkp_tree and the tree that the backup file holds.
  datatype Queues = Queues(downloads: seq<Transfer>, uploads: seq<Transfer>, count: int,
                           tree: seq<Record>, file: seq<Record>)

  const EMPTY := Queues([], [], 0, [], [])

  function EntryOf(kind: Kind, t: Transfer): Entry {
    if kind == Downloads then Download(t) else Upload(t)
  }

  function NameOf(kind: Kind): string {
    if kind == Downloads then "download" else "upload"
  }

  function QueueOf(s: Queues, kind: Kind): seq<Transfer> {
    if kind == Downloads then s.downloads else s.uploads
  }

  function WithQueue(s: Queues, kind: Kind, q: seq<Transfer>): Queues {
    if kind == Downloads then s.(downloads := q) else s.(uploads := q)
  }

  // ---- the steps ----

  // The first position whose entry is scheduled at 'limit' or later.
  function Place(q: seq<Transfer>, limit: int): (p: nat)
    ensures p <= |q| && (p < |q| ==> q[p].scheduledTime >= limit)
    ensures forall i :: 0 <= i < p ==> q[i].scheduledTime < limit
  {
    if q == [] || q[0].scheduledTime >= limit then 0 else 1 + Place(q[1..], limit)
  }

  function InsertAt(q: seq<Transfer>, p: nat, t: Transfer): seq<Transfer>
    requires p <= |q|
  {
    q[..p] + [t] + q[p..]
  }

  predicate StartsWith(s: string, prefix: string) {
    prefix <= s
  }

  // The tests of the two handlers, in their order; fileType is the whole text of FileType.
  function Check(kind: Kind, fileType: string, url: Option<string>, count: int): Fault {
    if kind == Downloads
       && fileType !in {"1 Firmware Upgrade Image", "2 Web Content", "3 Vendor Configuration File"} then
      InvalidArguments
    else if kind == Uploads && !StartsWith(fileType, "3 Vendor Configuration File")
      && !StartsWith(fileType, "4 Vendor Log File") then
      RequestDenied
    else if count >= MAX_DOWNLOAD_QUEUE then ResourcesExceeded
    else if url.None? || url.value == "" then RequestDenied
    else if '@' in url.value then InvalidArguments
    else if !StartsWith(url.value, "http://") && !StartsWith(url.value, "ftp://")
      && !(kind == Downloads && StartsWith(url.value, "https://")) then UnsupportedProtocol
    else NoFault
  }

  datatype Request = Request(kind: Kind, fileType: string, url: Option<string>, transfer: Transfer, delay: int)

  // The transfer as it is queued: without a delay its time stays 0; an upload has no file size.
  function Scheduled(r: Request, now: int): Transfer {
    var t := r.transfer.(url := if r.url.Some? then Some(Str(r.url.value)) else None,
                         scheduledTime := if r.delay != 0 then now + r.delay else 0);
    if r.kind == Downloads then t else t.(fileSize := 0)
  }

  function Accept(s: Queues, r: Request, now: int): Queues {
    var t := Scheduled(r, now);
    var q := QueueOf(s, r.kind);
    var e := EntryOf(r.kind, t);
    var tree := Insert(s.tree, RecordOf(e), KeysOf(e));
    WithQueue(s, r.kind, InsertAt(q, Place(q, t.scheduledTime), t)).(
      count := s.count + (if r.delay != 0 then 1 else 0), tree := tree, file := tree)
  }

  function Handle(s: Queues, r: Request, now: int): Queues {
    if Check(r.kind, r.fileType, r.url, s.count) == NoFault then Accept(s, r, now) else s
  }

  // One request leaves its queue: its record is deleted and the counter follows.
  function RemoveAt(s: Queues, kind: Kind, i: nat): Queues
    requires i < |QueueOf(s, kind)|
  {
    var q := QueueOf(s, kind);
    var e := EntryOf(kind, q[i]);
    WithQueue(s, kind, q[..i] + q[i + 1..]).(
      count := s.count - (if q[i].scheduledTime != 0 then 1 else 0),
      tree := Delete(s.tree, NameOf(kind), KeysOf(e)))
  }

  predicate Due(t: Transfer, now: int) {
    t.scheduledTime == 0 || now - t.scheduledTime >= 0
  }

  // One turn of a transfer thread: only the head is looked at. A launch saves the backup, a
  // transfer given up after the time of grace does not.
  function Launch(s: Queues, kind: Kind, now: int): Queues {
    var q := QueueOf(s, kind);
    if q == [] || !Due(q[0], now) then s else
      var r := RemoveAt(s, kind, 0);
      if q[0].scheduledTime != 0 && now - q[0].scheduledTime > TIME_OF_GRACE then r else r.(file := r.tree)
  }

  predicate HasKey(t: Transfer, key: string) {
    t.commandKey == Some(Str(key))
  }

  function SavedRemoveAt(s: Queues, kind: Kind, i: nat): Queues
    requires i < |QueueOf(s, kind)|
  {
    var r := RemoveAt(s, kind, i);
    r.(file := r.tree)
  }

  // cancel_transfer for one queue, from position i on; each deletion is saved.
  function CancelFrom(s: Queues, kind: Kind, key: string, i: nat): Queues
    decreases |QueueOf(s, kind)| - i
  {
    if i >= |QueueOf(s, kind)| then s
    else if HasKey(QueueOf(s, kind)[i], key) then
      CancelFrom(SavedRemoveAt(s, kind, i), kind, key, i)
    else CancelFrom(s, kind, key, i + 1)
  }

  function Cancel(s: Queues, key: string): Queues {
    CancelFrom(CancelFrom(s, Downloads, key, 0), Uploads, key, 0)
  }

  function RemoveAll(s: Queues, kind: Kind): Queues
    decreases |QueueOf(s, kind)|
  {
    if QueueOf(s, kind) == [] then s else RemoveAll(RemoveAt(s, kind, 0), kind)
  }

  // What the loaders read from a record, child by child.
  function FieldText(children: seq<Child>, name: string): Value {
    if children == [] then None
    else if children[|children| - 1].name == name && children[|children| - 1].text.Some? then
      children[|children| - 1].text
    else FieldText(children[..|children| - 1], name)
  }

  function FieldNumber(children: seq<Child>, name: string): int {
    match FieldText(children, name)
    case Some(Num(n)) => n
    case _ => 0
  }

  function ReadTransfer(r: Record): Transfer {
    Transfer(FieldText(r.children, "url"), FieldText(r.children, "command_key"), FieldText(r.children, "file_type"),
             FieldText(r.children, "username"), FieldText(r.children, "password"),
             FieldNumber(r.children, "file_size"), FieldNumber(r.children, "time"))
  }

  // load_download and load_upload; the scan stops at the first entry that is later.
  function Load(s: Queues, r: Record): Queues {
    if r.name != "download" && r.name != "upload" then s else
      var kind := if r.name == "download" then Downloads else Uploads;
      var t := ReadTransfer(r);
      var q := QueueOf(s, kind);
      WithQueue(s, kind, InsertAt(q, Place(q, t.scheduledTime + 1), t)).(
        count := s.count + (if t.scheduledTime != 0 then 1 else 0))
  }

  function LoadAll(s: Queues, records: seq<Record>): Queues {
    if records == [] then s else Load(LoadAll(s, records[..|records| - 1]), records[|records| - 1])
  }

  function Restart(s: Queues): Queues {
    LoadAll(Queues([], [], 0, s.file, s.file), s.file)
  }

  datatype Op =
    | Receive(request: Request, now: int)
    | Turn(kind: Kind, now: int)
    | CancelKey(key: string)
    | DropAll(kind: Kind)
    | Save
    | Reboot

  function Step(s: Queues, op: Op): Queues {
    match op
    case Receive(r, now) => Handle(s, r, now)
    case Turn(kind, now) => Launch(s, kind, now)
    case CancelKey(key) => Cancel(s, key)
    case DropAll(kind) => RemoveAll(s, kind)
    case Save => s.(file := s.tree)
    case Reboot => Restart(s)
  }

  function Run(ops: seq<Op>): Queues {
    if ops == [] then EMPTY else Step(Run(ops[..|ops| - 1]), ops[|ops| - 1])
  }

  // ---- sorted queues ----

  predicate Sorted(q: seq<Transfer>) {
    forall i, j :: 0 <= i < j < |q| ==> q[i].scheduledTime <= q[j].scheduledTime
  }

  lemma InsertSorted(q: seq<Transfer>, limit: int, t: Transfer)
    requires Sorted(q) && t.scheduledTime <= limit <= t.scheduledTime + 1
    ensures Sorted(InsertAt(q, Place(q, limit), t))
  {
    var p := Place(q, limit);
    var r := InsertAt(q, p, t);
    forall i, j | 0 <= i < j < |r| ensures r[i].scheduledTime <= r[j].scheduledTime {
      assert p <= j - 1 ==> q[p].scheduledTime <= q[j - 1].scheduledTime;
    }
  }

  // ---- the counter ----

  function Nonzero(q: seq<Transfer>): nat {
    if q == [] then 0 else Nonzero(q[..|q| - 1]) + (if q[|q| - 1].scheduledTime != 0 then 1 else 0)
  }

  lemma {:induction false} NonzeroAppend(a: seq<Transfer>, b: seq<Transfer>)
    ensures Nonzero(a + b) == Nonzero(a) + Nonzero(b)
  {
    if b == [] {
      assert a + b == a;
    } else {
      assert (a + b)[..|a + b| - 1] == a + b[..|b| - 1];
      NonzeroAppend(a, b[..|b| - 1]);
    }
  }

  lemma NonzeroAround(a: seq<Transfer>, t: Transfer, b: seq<Transfer>)
    ensures Nonzero(a + [t] + b) == Nonzero(a + b) + (if t.scheduledTime != 0 then 1 else 0)
  {
    NonzeroAppend(a + [t], b);
    NonzeroAppend(a, [t]);
    NonzeroAppend(a, b);
    assert [t][..0] == [];
    assert Nonzero([t]) == Nonzero([]) + (if t.scheduledTime != 0 then 1 else 0);
  }

  function Waiting(s: Queues): nat {
    Nonzero(s.downloads) + Nonzero(s.uploads)
  }

  // A request without fault keeps the counter right exactly when its time is not 0 by accident.
  lemma HandleCountsIff(s: Queues, r: Request, now: int)
    requires s.count == Waiting(s) && Check(r.kind, r.fileType, r.url, s.count) == NoFault
    ensures Handle(s, r, now).count == Waiting(Handle(s, r, now)) <==> r.delay == 0 || now + r.delay != 0
  {
    hide Nonzero, Place, RecordOf, KeysOf, Insert, Check;
    var t := Scheduled(r, now);
    var q := QueueOf(s, r.kind);
    var p := Place(q, t.scheduledTime);
    NonzeroAround(q[..p], t, q[p..]);
    assert q[..p] + q[p..] == q;
  }

  lemma RemoveCounts(s: Queues, kind: Kind, i: nat)
    requires i < |QueueOf(s, kind)|
    ensures RemoveAt(s, kind, i).count - Waiting(RemoveAt(s, kind, i)) == s.count - Waiting(s)
  {
    hide Nonzero, RecordOf, KeysOf, Delete;
    var q := QueueOf(s, kind);
    NonzeroAround(q[..i], q[i], q[i + 1..]);
    assert q[..i] + [q[i]] + q[i + 1..] == q;
  }

  // ---- records and the transfers they hold ----

  lemma {:induction false} FieldAt(children: seq<Child>, name: string, j: nat)
    requires j < |children| && children[j].name == name
    requires forall i :: 0 <= i < |children| && i != j ==> children[i].name != name
    ensures FieldText(children, name) == children[j].text
  {
    var last := |children| - 1;
    if j < last {
      FieldAt(children[..last], name, j);
    } else {
      FieldMissing(children[..last], name);
    }
  }

  lemma {:induction false} FieldMissing(children: seq<Child>, name: string)
    requires forall i :: 0 <= i < |children| ==> children[i].name != name
    ensures FieldText(children, name) == None
  {
    if children != [] {
      FieldMissing(children[..|children| - 1], name);
    }
  }

  predicate Sized(kind: Kind, t: Transfer) {
    kind == Uploads ==> t.fileSize == 0
  }

  lemma ChildNames(kind: Kind, t: Transfer)
    ensures var c := RecordOf(EntryOf(kind, t)).children;
      && |c| == (if kind == Downloads then 7 else 6)
      && c[0] == Child("url", t.url) && c[1] == Child("command_key", t.commandKey)
      && c[2] == Child("file_type", t.fileType)
      && c[3] == Child("username", t.username) && c[4] == Child("password", t.password)
      && (kind == Downloads ==>
            c[5] == Child("file_size", Number(t.fileSize)) && c[6] == Child("time", Number(t.scheduledTime)))
      && (kind == Uploads ==> c[5] == Child("time", Number(t.scheduledTime)))
  {
  }

  // The loaders read back what the insert functions wrote.
  lemma ReadBack(kind: Kind, t: Transfer)
    requires Sized(kind, t)
    ensures RecordOf(EntryOf(kind, t)).name == NameOf(kind) && ReadTransfer(RecordOf(EntryOf(kind, t))) == t
  {
    var c := RecordOf(EntryOf(kind, t)).children;
    ChildNames(kind, t);
    hide FieldText;
    FieldAt(c, "url", 0);
    FieldAt(c, "command_key", 1);
    FieldAt(c, "file_type", 2);
    FieldAt(c, "username", 3);
    FieldAt(c, "password", 4);
    if kind == Downloads {
      FieldAt(c, "file_size", 5);
      FieldAt(c, "time", 6);
    } else {
      FieldMissing(c, "file_size");
      FieldAt(c, "time", 5);
    }
  }

  function KindOf(r: Record): Kind {
    if r.name == "download" then Downloads else Uploads
  }

  function RecordKeys(r: Record): seq<Key> {
    KeysOf(EntryOf(KindOf(r), ReadTransfer(r)))
  }

  // A record as the two insert functions write it.
  predicate Proper(r: Record) {
    && r == RecordOf(EntryOf(KindOf(r), ReadTransfer(r)))
    && r.name == NameOf(KindOf(r)) && Sized(KindOf(r), ReadTransfer(r))
  }

  lemma OwnRecord(kind: Kind, t: Transfer)
    requires Sized(kind, t)
    ensures var r := RecordOf(EntryOf(kind, t));
      Proper(r) && KindOf(r) == kind && RecordKeys(r) == KeysOf(EntryOf(kind, t)) && Accepts(r.children, RecordKeys(r))
  {
    hide ReadTransfer, RecordOf, KeysOf, Accepts;
    ReadBack(kind, t);
    KeysAcceptOwnRecord(EntryOf(kind, t));
  }

  // The search for a record's own keys ends at that record.
  predicate OwnAt(tree: seq<Record>, j: nat)
    requires j < |tree|
  {
    Proper(tree[j]) && Found(tree, tree[j].name, RecordKeys(tree[j])) == Some(j)
  }

  predicate Tidy(tree: seq<Record>) {
    forall j :: 0 <= j < |tree| ==> OwnAt(tree, j)
  }

  // What makes a search end at j.
  predicate EndsAt(tree: seq<Record>, name: string, keys: seq<Key>, f: nat, j: nat) {
    && NamedAt(tree, name, f) && f <= j < |tree| && Accepts(tree[j].children, keys)
    && forall i :: f <= i < j ==> !Accepts(tree[i].children, keys)
  }

  lemma FoundWhen(tree: seq<Record>, name: string, keys: seq<Key>, j: nat)
    requires j < |tree| && tree[j].name == name
    ensures Found(tree, name, keys) == Some(j) <==> EndsAt(tree, name, keys, FirstNamed(tree, name, 0), j)
  {
    hide Accepts;
    var f := FirstNamed(tree, name, 0);
    assert f <= j;
    var r := AcceptedFrom(tree, keys, f);
  }

  lemma FirstNamedIs(tree: seq<Record>, name: string, f: nat)
    requires NamedAt(tree, name, f)
    ensures FirstNamed(tree, name, 0) == f
  {
  }

  lemma AppendKeepsOwn(tree: seq<Record>, r: Record, j: nat)
    requires j < |tree| && OwnAt(tree, j)
    ensures OwnAt(tree + [r], j)
  {
    hide Accepts, Proper, RecordKeys, AcceptedFrom, FirstNamed, Found;
    var name, keys := tree[j].name, RecordKeys(tree[j]);
    var f := FirstNamed(tree, name, 0);
    FoundWhen(tree, name, keys, j);
    assert EndsAt(tree + [r], name, keys, f, j);
    FirstNamedIs(tree + [r], name, f);
    FoundWhen(tree + [r], name, keys, j);
  }

  lemma InsertTidy(tree: seq<Record>, kind: Kind, t: Transfer)
    requires Tidy(tree) && Sized(kind, t)
    ensures Tidy(Insert(tree, RecordOf(EntryOf(kind, t)), KeysOf(EntryOf(kind, t))))
  {
    hide Accepts, Proper, RecordKeys, Found, OwnAt, RecordOf, KeysOf;
    var r, keys := RecordOf(EntryOf(kind, t)), KeysOf(EntryOf(kind, t));
    if Found(tree, r.name, keys).None? {
      forall j | 0 <= j < |tree + [r]| ensures OwnAt(tree + [r], j) {
        if j < |tree| {
          AppendKeepsOwn(tree, r, j);
        } else {
          OwnRecord(kind, t);
          FoundAfterAppend(tree, r, keys);
          OwnAtEnd(tree, r);
        }
      }
    }
  }

  lemma OwnAtEnd(tree: seq<Record>, r: Record)
    requires Proper(r) && Found(tree + [r], r.name, RecordKeys(r)) == Some(|tree|)
    ensures OwnAt(tree + [r], |tree|)
  {
  }

  function Without(tree: seq<Record>, k: nat): seq<Record>
    requires k < |tree|
  {
    tree[..k] + tree[k + 1..]
  }

  // Position i of the shorter tree, as a position of the longer one.
  function Shifted(k: nat, i: nat): nat {
    if i < k then i else i + 1
  }

  lemma RemoveKeepsOwn(tree: seq<Record>, k: nat, j: nat)
    requires k < |tree| && j < |tree| - 1 && OwnAt(tree, Shifted(k, j))
    ensures OwnAt(Without(tree, k), j)
  {
    hide Accepts, Proper, RecordKeys, AcceptedFrom, FirstNamed, Found;
    var t := Without(tree, k);
    assert forall i :: 0 <= i < |t| ==> t[i] == tree[Shifted(k, i)];
    var name, keys := t[j].name, RecordKeys(t[j]);
    FoundWhen(tree, name, keys, Shifted(k, j));
    var f := FirstNamed(t, name, 0);
    FirstNamedBefore(t, name, j);
    assert NamedAt(t, name, f);
    assert FirstNamed(tree, name, 0) <= Shifted(k, f);
    assert EndsAt(t, name, keys, f, j);
    FoundWhen(t, name, keys, j);
  }

  lemma FirstNamedBefore(tree: seq<Record>, name: string, j: nat)
    requires j < |tree| && tree[j].name == name
    ensures NamedAt(tree, name, FirstNamed(tree, name, 0)) && FirstNamed(tree, name, 0) <= j
  {
  }

  lemma DeleteTidy(tree: seq<Record>, name: string, keys: seq<Key>)
    requires Tidy(tree)
    ensures Tidy(Delete(tree, name, keys))
  {
    hide OwnAt, Found;
    var found := Found(tree, name, keys);
    if found.Some? {
      var k := found.value;
      assert Delete(tree, name, keys) == Without(tree, k);
      forall j | 0 <= j < |tree| - 1 ensures OwnAt(Without(tree, k), j) {
        RemoveKeepsOwn(tree, k, j);
      }
    }
  }

  // ---- the backup against the queues ----

  function OneStored(r: Record, kind: Kind): seq<Transfer> {
    if r.name == NameOf(kind) then [ReadTransfer(r)] else []
  }

  function StoredOf(tree: seq<Record>, kind: Kind): seq<Transfer> {
    if tree == [] then [] else StoredOf(tree[..|tree| - 1], kind) + OneStored(tree[|tree| - 1], kind)
  }

  lemma {:induction false} StoredAppend(a: seq<Record>, b: seq<Record>, kind: Kind)
    ensures StoredOf(a + b, kind) == StoredOf(a, kind) + StoredOf(b, kind)
  {
    hide ReadTransfer;
    if b == [] {
      assert a + b == a;
    } else {
      assert (a + b)[..|a + b| - 1] == a + b[..|b| - 1];
      StoredAppend(a, b[..|b| - 1], kind);
    }
  }

  lemma StoredOne(r: Record, kind: Kind)
    ensures StoredOf([r], kind) == OneStored(r, kind)
  {
    hide ReadTransfer;
    assert [r][..0] == [];
    assert StoredOf([r][..0], kind) == [];
  }

  lemma StoredWithout(tree: seq<Record>, k: nat, kind: Kind)
    requires k < |tree|
    ensures multiset(StoredOf(Without(tree, k), kind)) + multiset(OneStored(tree[k], kind))
      == multiset(StoredOf(tree, kind))
  {
    hide StoredOf, OneStored;
    StoredAppend(tree[..k] + [tree[k]], tree[k + 1..], kind);
    StoredAppend(tree[..k], [tree[k]], kind);
    StoredAppend(tree[..k], tree[k + 1..], kind);
    StoredOne(tree[k], kind);
    assert tree[..k] + [tree[k]] + tree[k + 1..] == tree;
  }

  lemma {:induction false} StoredAt(tree: seq<Record>, kind: Kind, t: Transfer) returns (j: nat)
    requires t in StoredOf(tree, kind)
    ensures j < |tree| && tree[j].name == NameOf(kind) && ReadTransfer(tree[j]) == t
  {
    hide ReadTransfer;
    var last := |tree| - 1;
    if t in StoredOf(tree[..last], kind) {
      j := StoredAt(tree[..last], kind, t);
    } else {
      j := last;
    }
  }

  // Every record belongs to a queued request, each to another one.
  predicate Backed(s: Queues) {
    forall kind: Kind :: multiset(StoredOf(s.tree, kind)) <= multiset(QueueOf(s, kind))
  }

  // ... and every queued request has its record.
  predicate Complete(s: Queues) {
    forall kind: Kind :: multiset(StoredOf(s.tree, kind)) == multiset(QueueOf(s, kind))
  }

  predicate Filed(file: seq<Record>) {
    Tidy(file) && Nonzero(StoredOf(file, Downloads)) + Nonzero(StoredOf(file, Uploads)) <= MAX_DOWNLOAD_QUEUE
  }

  predicate AllSized(q: seq<Transfer>) {
    forall i :: 0 <= i < |q| ==> q[i].fileSize == 0
  }

  ghost predicate Inv(s: Queues) {
    && Sorted(s.downloads) && Sorted(s.uploads) && AllSized(s.uploads)
    && s.count == Waiting(s) <= MAX_DOWNLOAD_QUEUE
    && Tidy(s.tree) && Backed(s) && Filed(s.file)
  }

  lemma RemoveSorted(q: seq<Transfer>, i: nat)
    requires i < |q|
    ensures Sorted(q) ==> Sorted(q[..i] + q[i + 1..])
    ensures AllSized(q) ==> AllSized(q[..i] + q[i + 1..])
    ensures multiset(q[..i] + q[i + 1..]) == multiset(q) - multiset{q[i]}
  {
    assert q == q[..i] + [q[i]] + q[i + 1..];
  }

  lemma LastNonzero(a: seq<Transfer>)
    requires a != []
    ensures Nonzero(a) == Nonzero(a[..|a| - 1]) + (if a[|a| - 1].scheduledTime != 0 then 1 else 0)
  {
  }

  lemma NoneNonzero()
    ensures Nonzero([]) == 0
  {
  }

  lemma {:induction false} NonzeroMonotone(a: seq<Transfer>, b: seq<Transfer>)
    requires multiset(a) <= multiset(b)
    ensures Nonzero(a) <= Nonzero(b)
  {
    if a != [] {
      hide Nonzero, Sorted, AllSized;
      LastNonzero(a);
      var init, x := a[..|a| - 1], a[|a| - 1];
      assert a == init + [x];
      assert x in multiset(b);
      var i :| 0 <= i < |b| && b[i] == x;
      var rest := b[..i] + b[i + 1..];
      NonzeroAround(b[..i], x, b[i + 1..]);
      assert b[..i] + [x] + b[i + 1..] == b;
      RemoveSorted(b, i);
      assert multiset(a) == multiset(init) + multiset{x};
      NonzeroMonotone(init, rest);
    } else {
      NoneNonzero();
    }
  }

  lemma FileOfTree(s: Queues)
    requires Tidy(s.tree) && Backed(s) && Waiting(s) <= MAX_DOWNLOAD_QUEUE
    ensures Filed(s.tree)
  {
    hide Nonzero, StoredOf, OwnAt;
    NonzeroMonotone(StoredOf(s.tree, Downloads), s.downloads);
    NonzeroMonotone(StoredOf(s.tree, Uploads), s.uploads);
    assert QueueOf(s, Downloads) == s.downloads && QueueOf(s, Uploads) == s.uploads;
  }

  // ---- one request leaves ----

  lemma TidyFinds(tree: seq<Record>, kind: Kind, j: nat)
    requires Tidy(tree) && j < |tree| && tree[j].name == NameOf(kind)
    ensures Found(tree, NameOf(kind), KeysOf(EntryOf(kind, ReadTransfer(tree[j])))) == Some(j)
  {
    hide Found, ReadTransfer, KeysOf, RecordOf;
    assert OwnAt(tree, j);
  }

  // Deleting the record of t: t's own when there is one.
  lemma DeleteStored(tree: seq<Record>, kind: Kind, t: Transfer, other: Kind)
    requires Tidy(tree)
    ensures var after := StoredOf(Delete(tree, NameOf(kind), KeysOf(EntryOf(kind, t))), other);
      && multiset(after) <= multiset(StoredOf(tree, other))
      && (t in StoredOf(tree, kind) ==>
           multiset(after) == multiset(StoredOf(tree, other)) - (if other == kind then multiset{t} else multiset{}))
  {
    hide StoredOf, Found, KeysOf, ReadTransfer, OwnAt;
    var keys := KeysOf(EntryOf(kind, t));
    var found := Found(tree, NameOf(kind), keys);
    if t in StoredOf(tree, kind) {
      var j := StoredAt(tree, kind, t);
      TidyFinds(tree, kind, j);
    }
    if found.Some? {
      assert Delete(tree, NameOf(kind), keys) == Without(tree, found.value);
      StoredWithout(tree, found.value, other);
    }
  }

  // Taking x out of two multisets, of which the smaller one gives x up when it has it.
  lemma Shrink(a: multiset<Transfer>, b: multiset<Transfer>, a': multiset<Transfer>, x: Transfer)
    requires a <= b && a' <= a && (x in a ==> a' == a - multiset{x})
    ensures a' <= b - multiset{x}
    ensures a == b && x in b ==> a' == b - multiset{x}
  {
  }

  lemma QueueWithout(s: Queues, kind: Kind, i: nat, other: Kind)
    requires i < |QueueOf(s, kind)|
    ensures multiset(QueueOf(RemoveAt(s, kind, i), other))
         == if other == kind then multiset(QueueOf(s, kind)) - multiset{QueueOf(s, kind)[i]}
           else multiset(QueueOf(s, other))
  {
    hide Delete, KeysOf, Sorted, AllSized;
    RemoveSorted(QueueOf(s, kind), i);
  }

  lemma TreeWithout(s: Queues, kind: Kind, i: nat)
    requires i < |QueueOf(s, kind)|
    ensures RemoveAt(s, kind, i).tree == Delete(s.tree, NameOf(kind), KeysOf(EntryOf(kind, QueueOf(s, kind)[i])))
  {
    hide Delete, KeysOf;
  }

  lemma RemoveBackedOne(s: Queues, kind: Kind, i: nat, other: Kind)
    requires Tidy(s.tree) && i < |QueueOf(s, kind)|
    requires multiset(StoredOf(s.tree, kind)) <= multiset(QueueOf(s, kind))
    requires multiset(StoredOf(s.tree, other)) <= multiset(QueueOf(s, other))
    ensures var r := RemoveAt(s, kind, i);
      && multiset(StoredOf(r.tree, other)) <= multiset(QueueOf(r, other))
      && (multiset(StoredOf(s.tree, kind)) == multiset(QueueOf(s, kind)) &&
          multiset(StoredOf(s.tree, other)) == multiset(QueueOf(s, other)) ==>
            multiset(StoredOf(r.tree, other)) == multiset(QueueOf(r, other)))
  {
    hide Tidy, StoredOf, Delete, KeysOf, QueueOf, RemoveAt;
    var x := QueueOf(s, kind)[i];
    QueueWithout(s, kind, i, other);
    TreeWithout(s, kind, i);
    DeleteStored(s.tree, kind, x, other);
    assert x in multiset(QueueOf(s, kind));
    if other == kind {
      Shrink(multiset(StoredOf(s.tree, kind)), multiset(QueueOf(s, kind)),
        multiset(StoredOf(RemoveAt(s, kind, i).tree, kind)), x);
    }
  }

  lemma RemoveBacked(s: Queues, kind: Kind, i: nat)
    requires Tidy(s.tree) && Backed(s) && i < |QueueOf(s, kind)|
    ensures Backed(RemoveAt(s, kind, i))
    ensures Complete(s) ==> Complete(RemoveAt(s, kind, i))
  {
    hide Tidy, StoredOf, QueueOf, RemoveAt;
    forall other: Kind
      ensures multiset(StoredOf(RemoveAt(s, kind, i).tree, other)) <= multiset(QueueOf(RemoveAt(s, kind, i), other))
      ensures Complete(s) ==>
                multiset(StoredOf(RemoveAt(s, kind, i).tree, other)) == multiset(QueueOf(RemoveAt(s, kind, i), other))
    {
      RemoveBackedOne(s, kind, i, other);
    }
  }

  lemma RemoveNonzero(q: seq<Transfer>, i: nat)
    requires i < |q|
    ensures Nonzero(q[..i] + q[i + 1..]) <= Nonzero(q)
  {
    hide Nonzero;
    NonzeroAround(q[..i], q[i], q[i + 1..]);
    assert q == q[..i] + [q[i]] + q[i + 1..];
  }

  lemma RemoveKeeps(s: Queues, kind: Kind, i: nat)
    requires Inv(s) && i < |QueueOf(s, kind)|
    ensures Inv(RemoveAt(s, kind, i)) && Inv(RemoveAt(s, kind, i).(file := RemoveAt(s, kind, i).tree))
  {
    hide Tidy, StoredOf, Delete, KeysOf, Nonzero, Sorted, Backed, AllSized, Filed;
    var r := RemoveAt(s, kind, i);
    RemoveSorted(QueueOf(s, kind), i);
    RemoveNonzero(QueueOf(s, kind), i);
    RemoveCounts(s, kind, i);
    RemoveBacked(s, kind, i);
    DeleteTidy(s.tree, NameOf(kind), KeysOf(EntryOf(kind, QueueOf(s, kind)[i])));
    FileOfTree(r);
    SameBacked(r, r.(file := r.tree));
  }

  lemma SameBacked(s: Queues, r: Queues)
    requires s.tree == r.tree && s.downloads == r.downloads && s.uploads == r.uploads
    ensures Backed(s) == Backed(r) && Complete(s) == Complete(r)
  {
    assert forall kind: Kind :: QueueOf(s, kind) == QueueOf(r, kind);
  }

  // ---- one request arrives ----

  lemma InsertMembers(q: seq<Transfer>, p: nat, t: Transfer)
    requires p <= |q|
    ensures multiset(InsertAt(q, p, t)) == multiset(q) + multiset{t}
    ensures AllSized(q) && t.fileSize == 0 ==> AllSized(InsertAt(q, p, t))
  {
    assert q == q[..p] + q[p..];
  }

  lemma InsertNonzero(q: seq<Transfer>, p: nat, t: Transfer)
    requires p <= |q|
    ensures Nonzero(InsertAt(q, p, t)) == Nonzero(q) + (if t.scheduledTime != 0 then 1 else 0)
  {
    hide Nonzero;
    NonzeroAround(q[..p], t, q[p..]);
    assert q == q[..p] + q[p..];
  }

  lemma InsertStored(tree: seq<Record>, kind: Kind, t: Transfer, other: Kind)
    requires Sized(kind, t)
    ensures var e := EntryOf(kind, t);
      StoredOf(Insert(tree, RecordOf(e), KeysOf(e)), other)
        == StoredOf(tree, other)
         + (if Found(tree, NameOf(kind), KeysOf(e)).None? && other == kind then [t] else [])
  {
    hide StoredOf, Found, KeysOf, ReadTransfer, RecordOf;
    var r := RecordOf(EntryOf(kind, t));
    ReadBack(kind, t);
    StoredAppend(tree, [r], other);
    StoredOne(r, other);
  }

  // Whether the search finds an earlier record for the request that arrives.
  predicate IsNew(s: Queues, r: Request, now: int) {
    Found(s.tree, NameOf(r.kind), KeysOf(EntryOf(r.kind, Scheduled(r, now)))).None?
  }

  lemma AcceptBacked(s: Queues, r: Request, now: int)
    requires Backed(s)
    ensures Backed(Accept(s, r, now))
    ensures Complete(s) ==> (Complete(Accept(s, r, now)) <==> IsNew(s, r, now))
  {
    hide StoredOf, Found, KeysOf, RecordOf, Place, Insert, Nonzero, AllSized, InsertAt;
    var t := Scheduled(r, now);
    var a := Accept(s, r, now);
    var p := Place(QueueOf(s, r.kind), t.scheduledTime);
    InsertMembers(QueueOf(s, r.kind), p, t);
    forall other: Kind
      ensures multiset(StoredOf(a.tree, other)) <= multiset(QueueOf(a, other))
      ensures multiset(StoredOf(s.tree, other)) == multiset(QueueOf(s, other)) ==>
                (multiset(StoredOf(a.tree, other)) == multiset(QueueOf(a, other))
                  <==> other != r.kind || IsNew(s, r, now))
    {
      InsertStored(s.tree, r.kind, t, other);
      assert multiset(StoredOf(s.tree, other)) <= multiset(QueueOf(s, other));
      MultisetGrows(multiset(QueueOf(s, other)), t);
    }
    if Complete(s) {
      assert multiset(StoredOf(a.tree, r.kind)) == multiset(QueueOf(a, r.kind)) <==> IsNew(s, r, now);
    }
  }

  lemma MultisetGrows(m: multiset<Transfer>, t: Transfer)
    ensures m != m + multiset{t}
  {
    assert (m + multiset{t})[t] == m[t] + 1;
  }

  lemma AcceptKeeps(s: Queues, r: Request, now: int)
    requires Inv(s) && s.count < MAX_DOWNLOAD_QUEUE && (r.delay == 0 || now + r.delay != 0)
    ensures Inv(Accept(s, r, now))
  {
    hide StoredOf, Found, KeysOf, RecordOf, Place, Insert, Nonzero, AllSized, InsertAt, Tidy, Sorted, Backed, Filed;
    var t := Scheduled(r, now);
    var a := Accept(s, r, now);
    var q := QueueOf(s, r.kind);
    InsertMembers(q, Place(q, t.scheduledTime), t);
    InsertNonzero(q, Place(q, t.scheduledTime), t);
    InsertSorted(q, t.scheduledTime, t);
    InsertTidy(s.tree, r.kind, t);
    AcceptBacked(s, r, now);
    FileOfTree(a);
  }

  // ---- reloading ----

  // The queues hold exactly the transfers of the records, in order of their times.
  predicate Loaded(s: Queues, records: seq<Record>) {
    && Sorted(s.downloads) && Sorted(s.uploads) && AllSized(s.uploads) && s.count == Waiting(s)
    && forall kind: Kind :: multiset(QueueOf(s, kind)) == multiset(StoredOf(records, kind))
  }

  lemma ProperKind(r: Record)
    requires Proper(r)
    ensures r.name == NameOf(KindOf(r)) && Sized(KindOf(r), ReadTransfer(r))
    ensures forall other: Kind :: NameOf(other) == r.name <==> other == KindOf(r)
  {
    hide ReadTransfer, RecordOf;
  }

  lemma LoadOne(s: Queues, records: seq<Record>, r: Record)
    requires Loaded(s, records) && Proper(r)
    ensures Loaded(Load(s, r), records + [r])
    ensures Load(s, r).tree == s.tree && Load(s, r).file == s.file
  {
    hide StoredOf, ReadTransfer, RecordOf, Place, Nonzero, AllSized, InsertAt, Sorted;
    var kind, t := KindOf(r), ReadTransfer(r);
    var q := QueueOf(s, kind);
    ProperKind(r);
    hide Proper;
    InsertMembers(q, Place(q, t.scheduledTime + 1), t);
    InsertNonzero(q, Place(q, t.scheduledTime + 1), t);
    InsertSorted(q, t.scheduledTime + 1, t);
    var l := Load(s, r);
    forall other: Kind ensures multiset(QueueOf(l, other)) == multiset(StoredOf(records + [r], other)) {
      StoredAppend(records, [r], other);
      StoredOne(r, other);
      assert multiset(QueueOf(s, other)) == multiset(StoredOf(records, other));
    }
  }

  lemma {:induction false} LoadAllMeans(s: Queues, records: seq<Record>)
    requires s.downloads == [] && s.uploads == [] && s.count == 0
    requires forall i :: 0 <= i < |records| ==> Proper(records[i])
    ensures Loaded(LoadAll(s, records), records)
    ensures LoadAll(s, records).tree == s.tree && LoadAll(s, records).file == s.file
  {
    hide Proper, Load;
    if records != [] {
      var init, last := records[..|records| - 1], records[|records| - 1];
      LoadAllMeans(s, init);
      LoadOne(LoadAll(s, init), init, last);
      assert init + [last] == records;
    }
  }

  lemma TidyProper(tree: seq<Record>)
    requires Tidy(tree)
    ensures forall i :: 0 <= i < |tree| ==> Proper(tree[i])
  {
    hide Proper, Found;
    forall i | 0 <= i < |tree| ensures Proper(tree[i]) {
      assert OwnAt(tree, i);
    }
  }

  lemma LoadedCount(s: Queues, records: seq<Record>)
    requires Loaded(s, records) && Filed(records)
    ensures Waiting(s) <= MAX_DOWNLOAD_QUEUE
  {
    hide Nonzero, StoredOf, Sorted, AllSized, Tidy;
    assert multiset(QueueOf(s, Downloads)) == multiset(StoredOf(records, Downloads));
    assert multiset(QueueOf(s, Uploads)) == multiset(StoredOf(records, Uploads));
    NonzeroMonotone(s.downloads, StoredOf(records, Downloads));
    NonzeroMonotone(s.uploads, StoredOf(records, Uploads));
  }

  // A restart brings back exactly what the file holds.
  lemma RestartMeans(s: Queues)
    requires Filed(s.file)
    ensures Loaded(Restart(s), s.file) && Restart(s).tree == Restart(s).file == s.file
    ensures Inv(Restart(s)) && Complete(Restart(s))
  {
    hide Nonzero, StoredOf, Sorted, AllSized;
    TidyProper(s.file);
    hide Tidy;
    LoadAllMeans(Queues([], [], 0, s.file, s.file), s.file);
    LoadedCount(Restart(s), s.file);
  }

  // A restart of a machine whose requests all have a saved record loses and adds none.
  lemma RestartRestores(s: Queues, kind: Kind)
    requires Inv(s) && Complete(s) && s.file == s.tree
    ensures multiset(QueueOf(Restart(s), kind)) == multiset(QueueOf(s, kind)) && Restart(s).count == s.count
  {
    hide Restart, Tidy, Sorted, AllSized, Nonzero, StoredOf;
    RestartMeans(s);
    var r := Restart(s);
    assert forall k: Kind :: multiset(QueueOf(r, k)) == multiset(StoredOf(s.tree, k)) == multiset(QueueOf(s, k));
    assert multiset(QueueOf(r, Downloads)) == multiset(r.downloads)
        && multiset(QueueOf(s, Downloads)) == multiset(s.downloads);
    assert multiset(QueueOf(r, Uploads)) == multiset(r.uploads) && multiset(QueueOf(s, Uploads)) == multiset(s.uploads);
    NonzeroMonotone(r.downloads, s.downloads);
    NonzeroMonotone(s.downloads, r.downloads);
    NonzeroMonotone(r.uploads, s.uploads);
    NonzeroMonotone(s.uploads, r.uploads);
  }

  // ---- every run ----

  lemma CancelOne(s: Queues, kind: Kind, i: nat)
    requires Inv(s) && i < |QueueOf(s, kind)|
    ensures Inv(SavedRemoveAt(s, kind, i)) && (Complete(s) ==> Complete(SavedRemoveAt(s, kind, i)))
    ensures |QueueOf(SavedRemoveAt(s, kind, i), kind)| < |QueueOf(s, kind)|
  {
    InvBacked(s);
    ShorterByOne(s, kind, i);
    hide Inv, Complete, Backed, Tidy, Filed, RemoveAt;
    RemoveKeeps(s, kind, i);
    RemoveBacked(s, kind, i);
    var r := RemoveAt(s, kind, i);
    SameBacked(r, r.(file := r.tree));
  }

  lemma {:induction false} CancelKeeps(s: Queues, kind: Kind, key: string, i: nat)
    requires Inv(s)
    ensures Inv(CancelFrom(s, kind, key, i))
    ensures Complete(s) ==> Complete(CancelFrom(s, kind, key, i))
    decreases |QueueOf(s, kind)| - i
  {
    hide Inv, Complete, RemoveAt;
    if i < |QueueOf(s, kind)| {
      if HasKey(QueueOf(s, kind)[i], key) {
        CancelOne(s, kind, i);
        CancelKeeps(SavedRemoveAt(s, kind, i), kind, key, i);
      } else {
        CancelKeeps(s, kind, key, i + 1);
      }
    }
  }

  lemma {:induction false} RemoveAllKeeps(s: Queues, kind: Kind)
    requires Inv(s)
    ensures Inv(RemoveAll(s, kind)) && QueueOf(RemoveAll(s, kind), kind) == []
    ensures Complete(s) ==> Complete(RemoveAll(s, kind))
    decreases |QueueOf(s, kind)|
  {
    if QueueOf(s, kind) != [] {
      InvBacked(s);
      ShorterByOne(s, kind, 0);
      hide Inv, RemoveAt, Complete, Backed, Tidy;
      RemoveKeeps(s, kind, 0);
      RemoveBacked(s, kind, 0);
      RemoveAllKeeps(RemoveAt(s, kind, 0), kind);
    }
  }

  // The only accident: a delayed request whose time comes out as 0.
  predicate Sound(op: Op) {
    op.Receive? ==> op.request.delay == 0 || op.now + op.request.delay != 0
  }

  lemma StepKeeps(s: Queues, op: Op)
    requires Inv(s) && Sound(op)
    ensures Inv(Step(s, op))
  {
    hide Inv, RemoveAt, Accept, Restart, RemoveAll, CancelFrom;
    match op {
      case Receive(r, now) =>
        if Handle(s, r, now) != s { AcceptKeeps(s, r, now) by { InvCount(s, r, now); } }
      case Turn(kind, now) =>
        if QueueOf(s, kind) != [] { RemoveKeeps(s, kind, 0); }
      case CancelKey(key) =>
        CancelKeeps(s, Downloads, key, 0);
        CancelKeeps(CancelFrom(s, Downloads, key, 0), Uploads, key, 0);
      case DropAll(kind) => RemoveAllKeeps(s, kind);
      case Save => SaveKeeps(s);
      case Reboot => RestartInv(s);
    }
  }

  lemma InvCount(s: Queues, r: Request, now: int)
    requires Check(r.kind, r.fileType, r.url, s.count) == NoFault
    ensures s.count < MAX_DOWNLOAD_QUEUE
  {
  }

  lemma SaveKeeps(s: Queues)
    requires Inv(s)
    ensures Inv(s.(file := s.tree))
  {
    hide Tidy, Sorted, AllSized, StoredOf, Nonzero;
    FileOfTree(s);
    SameBacked(s, s.(file := s.tree));
  }

  lemma RestartInv(s: Queues)
    requires Inv(s)
    ensures Inv(Restart(s))
  {
    hide Tidy, Sorted, AllSized, StoredOf, Nonzero, Restart;
    RestartMeans(s);
  }

  // In every run both queues stay sorted by time, the counter is the number of requests that
  // wait for a time and never passes the limit, and no request is in the backup twice.
  lemma {:induction false} RunInvariant(ops: seq<Op>)
    requires forall op :: op in ops ==> Sound(op)
    ensures Inv(Run(ops))
  {
    hide Inv, Step;
    if ops == [] {
      EmptyInv();
    } else {
      var last := |ops| - 1;
      assert ops[last] in ops;
      RunInvariant(ops[..last]);
      StepKeeps(Run(ops[..last]), ops[last]);
    }
  }

  lemma EmptyInv()
    ensures Inv(EMPTY) && Complete(EMPTY)
  {
    assert forall kind: Kind :: StoredOf([], kind) == [] && QueueOf(EMPTY, kind) == [];
    assert Tidy([]);
  }

  // From a state in which every request has its record, each step keeps that, but for an
  // accepted request whose search already finds a record.
  lemma StepCompleteIff(s: Queues, op: Op)
    requires Inv(s) && Complete(s)
    ensures Complete(Step(s, op)) <==>
      !(op.Receive? && Check(op.request.kind, op.request.fileType, op.request.url, s.count) == NoFault
        && !IsNew(s, op.request, op.now))
  {
    hide Inv, RemoveAt, Accept, Restart, RemoveAll, CancelFrom, IsNew, Check, Complete;
    match op {
      case Receive(r, now) => AcceptBacked(s, r, now) by { InvBacked(s); }
      case Turn(kind, now) =>
        if QueueOf(s, kind) != [] {
          InvBacked(s);
          RemoveBacked(s, kind, 0);
          var r := RemoveAt(s, kind, 0);
          SameBacked(r, r.(file := r.tree));
        }
      case CancelKey(key) =>
        CancelKeeps(s, Downloads, key, 0);
        CancelKeeps(CancelFrom(s, Downloads, key, 0), Uploads, key, 0);
      case DropAll(kind) => RemoveAllKeeps(s, kind);
      case Save => SameBacked(s, s.(file := s.tree));
      case Reboot => InvBacked(s); RestartMeans(s);
    }
  }

  lemma InvBacked(s: Queues)
    requires Inv(s)
    ensures Backed(s) && Tidy(s.tree) && Filed(s.file)
  {
  }

  // ---- requests without a record ----

  // How many of the queued requests that equal t have no record of their own.
  function Lacking(s: Queues, kind: Kind, t: Transfer): int {
    multiset(QueueOf(s, kind))[t] as int - multiset(StoredOf(s.tree, kind))[t] as int
  }

  // They are the ones that a restart from this tree loses.
  lemma RestartLosesLacking(s: Queues, kind: Kind, t: Transfer)
    requires Inv(s) && s.file == s.tree
    ensures multiset(QueueOf(Restart(s), kind))[t] == multiset(QueueOf(s, kind))[t] - Lacking(s, kind, t)
  {
    hide Restart, Tidy, Sorted, AllSized, Nonzero, StoredOf, QueueOf;
    RestartMeans(s);
    assert forall k: Kind :: multiset(QueueOf(Restart(s), k)) == multiset(StoredOf(s.tree, k));
  }

  // An accepted request lacks a record exactly when the search finds one; no other is affected.
  lemma AcceptLacks(s: Queues, r: Request, now: int, kind: Kind, t: Transfer)
    ensures Lacking(Accept(s, r, now), kind, t) - Lacking(s, kind, t)
         == if !IsNew(s, r, now) && kind == r.kind && t == Scheduled(r, now) then 1 else 0
  {
    hide StoredOf, Found, KeysOf, RecordOf, Place, Insert, InsertAt, AllSized, Nonzero;
    var u := Scheduled(r, now);
    var q := QueueOf(s, r.kind);
    InsertMembers(q, Place(q, u.scheduledTime), u);
    InsertStored(s.tree, r.kind, u, kind);
  }

  function FoundFor(s: Queues, kind: Kind, i: nat): Option<nat>
    requires i < |QueueOf(s, kind)|
  {
    Found(s.tree, NameOf(kind), KeysOf(EntryOf(kind, QueueOf(s, kind)[i])))
  }

  // A request that leaves takes the record that the search finds, whoever's that is.
  lemma RemoveLacks(s: Queues, kind: Kind, i: nat, other: Kind, t: Transfer)
    requires i < |QueueOf(s, kind)|
    ensures var j := FoundFor(s, kind, i);
      Lacking(RemoveAt(s, kind, i), other, t) - Lacking(s, other, t)
        == (if j.Some? && OneStored(s.tree[j.value], other) == [t] then 1 else 0)
         - (if other == kind && t == QueueOf(s, kind)[i] then 1 else 0)
  {
    hide StoredOf, Found, KeysOf, RecordOf, OneStored, QueueOf, RemoveAt;
    var q := QueueOf(s, kind);
    QueueWithout(s, kind, i, other);
    TreeWithout(s, kind, i);
    assert q[i] in multiset(q);
    var j := FoundFor(s, kind, i);
    if j.Some? {
      assert Delete(s.tree, NameOf(kind), KeysOf(EntryOf(kind, q[i]))) == Without(s.tree, j.value);
      StoredWithout(s.tree, j.value, other);
      OneOrNone(s.tree[j.value], other);
    }
  }

  lemma OneOrNone(r: Record, kind: Kind)
    ensures OneStored(r, kind) == [] || OneStored(r, kind) == [ReadTransfer(r)]
  {
    hide ReadTransfer;
  }

  // A request with a record of its own takes that one.
  lemma RemoveTakesOwn(s: Queues, kind: Kind, i: nat, other: Kind, t: Transfer)
    requires Inv(s) && i < |QueueOf(s, kind)| && QueueOf(s, kind)[i] in StoredOf(s.tree, kind)
    ensures Lacking(RemoveAt(s, kind, i), other, t) == Lacking(s, other, t)
  {
    InvBacked(s);
    hide Inv, StoredOf, Found, KeysOf, RemoveAt, ReadTransfer, Lacking;
    var x := QueueOf(s, kind)[i];
    var own := StoredAt(s.tree, kind, x);
    TidyFinds(s.tree, kind, own);
    assert FoundFor(s, kind, i) == Some(own) && OneStored(s.tree[own], kind) == [x];
    RemoveLacks(s, kind, i, other, t);
    NamesDiffer(other, kind);
  }

  // One without takes what its search finds.
  lemma RemoveTakesFound(s: Queues, kind: Kind, i: nat) returns (other: Kind, t: Transfer)
    requires Inv(s) && i < |QueueOf(s, kind)| && QueueOf(s, kind)[i] !in StoredOf(s.tree, kind)
    requires FoundFor(s, kind, i).Some?
    ensures Lacking(RemoveAt(s, kind, i), other, t) > Lacking(s, other, t)
  {
    InvBacked(s);
    hide Inv, StoredOf, Found, KeysOf, RemoveAt, ReadTransfer, Lacking;
    var j := FoundFor(s, kind, i).value;
    other, t := KindOf(s.tree[j]), ReadTransfer(s.tree[j]);
    TidyNamed(s.tree, j);
    RemoveLacks(s, kind, i, other, t);
    StoredHas(s.tree, j);
  }

  // Another queued request loses its record exactly when the leaving one has none of its own and
  // its search finds one all the same.
  lemma RemoveTakesOthersIff(s: Queues, kind: Kind, i: nat)
    requires Inv(s) && i < |QueueOf(s, kind)|
    ensures (exists other: Kind, t: Transfer :: Lacking(RemoveAt(s, kind, i), other, t) > Lacking(s, other, t))
       <==> QueueOf(s, kind)[i] !in StoredOf(s.tree, kind) && FoundFor(s, kind, i).Some?
  {
    hide Inv, StoredOf, FoundFor, RemoveAt, Lacking;
    if QueueOf(s, kind)[i] !in StoredOf(s.tree, kind) && FoundFor(s, kind, i).Some? {
      var other, t := RemoveTakesFound(s, kind, i);
    } else {
      forall other: Kind, t: Transfer ensures Lacking(RemoveAt(s, kind, i), other, t) <= Lacking(s, other, t) {
        if QueueOf(s, kind)[i] in StoredOf(s.tree, kind) {
          RemoveTakesOwn(s, kind, i, other, t);
        } else {
          RemoveLacks(s, kind, i, other, t);
        }
      }
    }
  }

  lemma NamesDiffer(a: Kind, b: Kind)
    ensures NameOf(a) == NameOf(b) <==> a == b
  {
  }

  lemma TidyNamed(tree: seq<Record>, j: nat)
    requires Tidy(tree) && j < |tree|
    ensures tree[j].name == NameOf(KindOf(tree[j]))
  {
    hide Found, RecordOf, ReadTransfer;
    assert OwnAt(tree, j);
  }

  lemma StoredHas(tree: seq<Record>, j: nat)
    requires j < |tree| && tree[j].name == NameOf(KindOf(tree[j]))
    ensures ReadTransfer(tree[j]) in StoredOf(tree, KindOf(tree[j]))
  {
    hide StoredOf, ReadTransfer;
    StoredWithout(tree, j, KindOf(tree[j]));
    assert ReadTransfer(tree[j]) in multiset(StoredOf(tree, KindOf(tree[j])));
  }

  // ---- a run that loses a download ----

  // Three requests without delay: an upload, a download from somewhere else, and an upload with
  // the data of that download.
  predicate Crossing(ra: Request, rd: Request, ru: Request) {
    && ra.kind == Uploads && rd.kind == Downloads && ru.kind == Uploads
    && ra.delay == rd.delay == ru.delay == 0 && ra.url != rd.url && rd.url == ru.url
    && ru.transfer == rd.transfer
    && Check(Uploads, ra.fileType, ra.url, 0) == NoFault && Check(Downloads, rd.fileType, rd.url, 0) == NoFault
    && Check(Uploads, ru.fileType, ru.url, 0) == NoFault
  }

  lemma CrossingExists() returns (ra: Request, rd: Request, ru: Request)
    ensures Crossing(ra, rd, ru)
  {
    var t := Transfer(None, Some(Str("key")), Some(Str("3")), None, None, 0, 0);
    var fileType := "3 Vendor Configuration File";
    ra := Request(Uploads, fileType, Some("http://a"), t, 0);
    rd := Request(Downloads, fileType, Some("http://b"), t, 0);
    ru := Request(Uploads, fileType, Some("http://b"), t, 0);
    assert "http://" <= "http://a" && "http://" <= "http://b" && "http://a"[7] != "http://b"[7];
  }

  lemma CrossingFirst(ra: Request, rd: Request, ru: Request, now: int)
    requires Crossing(ra, rd, ru)
    ensures var a, d := Scheduled(ra, now), Scheduled(rd, now);
      var tree := [RecordOf(Upload(a)), RecordOf(Download(d))];
      Handle(Handle(EMPTY, ra, now), rd, now) == Queues([d], [a], 0, tree, tree)
  {
    var a, d := Scheduled(ra, now), Scheduled(rd, now);
    var rec, rec' := RecordOf(Upload(a)), RecordOf(Download(d));
    assert rec.name == "upload" && rec'.name == "download";
    hide RecordOf, KeysOf, Accepts, Check;
    assert FirstNamed([], "upload", 0) == 0 && FirstNamed([rec], "download", 0) == 1;
    assert [] + [rec] == [rec] && [rec] + [rec'] == [rec, rec'];
    assert Handle(EMPTY, ra, now) == Queues([], [a], 0, [rec], [rec]);
  }

  lemma CrossingAccepted(ra: Request, rd: Request, ru: Request, now: int)
    requires Crossing(ra, rd, ru)
    ensures var a, d, u := Scheduled(ra, now), Scheduled(rd, now), Scheduled(ru, now);
      var tree := [RecordOf(Upload(a)), RecordOf(Download(d))];
      Handle(Handle(Handle(EMPTY, ra, now), rd, now), ru, now) == Queues([d], [u, a], 0, tree, tree)
  {
    var a, d, u := Scheduled(ra, now), Scheduled(rd, now), Scheduled(ru, now);
    DeleteTakesDownload(a, u, d);
    CrossingFirst(ra, rd, ru, now);
    hide RecordOf, KeysOf, Accepts, Check, Found;
    assert [a][..0] + [u] + [a][0..] == [u, a];
  }

  lemma CrossingLaunched(ra: Request, rd: Request, ru: Request, now: int)
    requires Crossing(ra, rd, ru)
    ensures var a, d, u := Scheduled(ra, now), Scheduled(rd, now), Scheduled(ru, now);
      var tree := [RecordOf(Upload(a)), RecordOf(Download(d))];
      Launch(Queues([d], [u, a], 0, tree, tree), Uploads, now)
        == Queues([d], [a], 0, [RecordOf(Upload(a))], [RecordOf(Upload(a))])
  {
    var a, d, u := Scheduled(ra, now), Scheduled(rd, now), Scheduled(ru, now);
    DeleteTakesDownload(a, u, d);
    hide RecordOf, KeysOf, Accepts, Check, Delete;
    assert [u, a][..0] + [u, a][1..] == [a];
  }

  lemma RunStep(ops: seq<Op>, op: Op)
    ensures Run(ops + [op]) == Step(Run(ops), op)
  {
    assert (ops + [op])[..|ops|] == ops;
  }

  // The launch of the second upload deletes the record of the download, which is still queued;
  // a restart finds it no more.
  lemma DownloadLost(ra: Request, rd: Request, ru: Request, now: int)
    requires Crossing(ra, rd, ru)
    ensures var ops := [Receive(ra, now), Receive(rd, now), Receive(ru, now), Turn(Uploads, now)];
      Run(ops).downloads == [Scheduled(rd, now)] && Run(ops + [Reboot]).downloads == []
  {
    hide Handle, Launch, Restart, RecordOf, Run, Scheduled, Crossing;
    CrossingAccepted(ra, rd, ru, now);
    CrossingLaunched(ra, rd, ru, now);
    var ops := [Receive(ra, now), Receive(rd, now), Receive(ru, now), Turn(Uploads, now)];
    RunFour(ops[0], ops[1], ops[2], ops[3]);
    RunStep(ops, Reboot);
    UploadSized(ra, rd, ru, now);
    OneUploadReloaded(Run(ops), Scheduled(ra, now));
  }

  lemma UploadSized(ra: Request, rd: Request, ru: Request, now: int)
    requires Crossing(ra, rd, ru)
    ensures Sized(Uploads, Scheduled(ra, now))
  {
  }

  lemma RunFour(o1: Op, o2: Op, o3: Op, o4: Op)
    ensures Run([o1, o2, o3, o4]) == Step(Step(Step(Step(EMPTY, o1), o2), o3), o4)
  {
    hide Step, Run;
    RunNone();
    RunStep([], o1);
    assert [] + [o1] == [o1];
    RunStep([o1], o2);
    assert [o1] + [o2] == [o1, o2];
    RunStep([o1, o2], o3);
    assert [o1, o2] + [o3] == [o1, o2, o3];
    RunStep([o1, o2, o3], o4);
    assert [o1, o2, o3] + [o4] == [o1, o2, o3, o4];
  }

  lemma RunNone()
    ensures Run([]) == EMPTY
  {
  }

  lemma OneUploadReloaded(s: Queues, a: Transfer)
    requires s.file == [RecordOf(Upload(a))] && Sized(Uploads, a)
    ensures Restart(s).downloads == []
  {
    OwnRecord(Uploads, a);
    hide RecordOf, ReadTransfer, Place;
    var r := RecordOf(Upload(a));
    assert [r][..0] == [];
    var start := Queues([], [], 0, s.file, s.file);
    assert LoadAll(start, [r]) == Load(LoadAll(start, []), r);
  }

  // ---- turns and the clock ----

  // The head stands for the whole queue: its time has come as soon as that of any request has.
  lemma HeadIsDue(q: seq<Transfer>, i: nat, now: nat)
    requires Sorted(q) && i < |q| && q[i].scheduledTime <= now
    ensures q[0].scheduledTime <= now && Due(q[0], now)
  {
    assert i > 0 ==> q[0].scheduledTime <= q[i].scheduledTime;
  }

  // A turn does nothing exactly when nothing is queued or the head waits for a time to come.
  lemma TurnWaitsIff(s: Queues, kind: Kind, now: int)
    ensures Launch(s, kind, now) == s <==>
      var q := QueueOf(s, kind); q == [] || (q[0].scheduledTime != 0 && now < q[0].scheduledTime)
  {
    hide RemoveAt;
    if QueueOf(s, kind) != [] {
      ShorterByOne(s, kind, 0);
      assert QueueOf(RemoveAt(s, kind, 0).(file := RemoveAt(s, kind, 0).tree), kind)
          == QueueOf(RemoveAt(s, kind, 0), kind);
    }
  }

  // Any other turn takes the head, its record and its share of the counter, and saves the backup
  // unless the head is more than an hour late.
  lemma TurnTakes(s: Queues, kind: Kind, now: int)
    requires Launch(s, kind, now) != s
    ensures var q, r := QueueOf(s, kind), Launch(s, kind, now);
      && q != [] && QueueOf(r, kind) == q[1..]
      && (forall other: Kind :: other != kind ==> QueueOf(r, other) == QueueOf(s, other))
      && r.tree == Delete(s.tree, NameOf(kind), KeysOf(EntryOf(kind, q[0])))
      && r.count == s.count - (if q[0].scheduledTime != 0 then 1 else 0)
      && r.file == if q[0].scheduledTime != 0 && now > q[0].scheduledTime + 3600 then s.file else r.tree
  {
    hide Delete, KeysOf;
    assert QueueOf(s, kind)[..0] + QueueOf(s, kind)[1..] == QueueOf(s, kind)[1..];
  }

  // ---- cancelling ----

  function Others(q: seq<Transfer>, key: string): seq<Transfer> {
    if q == [] then [] else (if HasKey(q[0], key) then [] else [q[0]]) + Others(q[1..], key)
  }

  // Cancelling removes every request with the key and leaves the others in order.
  lemma {:induction false} CancelMeans(s: Queues, kind: Kind, key: string, i: nat)
    requires i <= |QueueOf(s, kind)|
    ensures QueueOf(CancelFrom(s, kind, key, i), kind) == QueueOf(s, kind)[..i] + Others(QueueOf(s, kind)[i..], key)
    decreases |QueueOf(s, kind)| - i
  {
    hide Delete, KeysOf;
    var q := QueueOf(s, kind);
    if i < |q| {
      assert q[i..][1..] == q[i + 1..];
      if HasKey(q[i], key) {
        var r := RemoveAt(s, kind, i);
        var after := q[..i] + q[i + 1..];
        assert QueueOf(r.(file := r.tree), kind) == after;
        CancelMeans(r.(file := r.tree), kind, key, i);
        assert after[..i] == q[..i] && after[i..] == q[i + 1..];
      } else {
        CancelMeans(s, kind, key, i + 1);
        assert q[..i + 1] == q[..i] + [q[i]];
      }
    }
  }

  // What is left is what does not have the key, each request as often as before.
  lemma {:induction false} OthersAre(q: seq<Transfer>, key: string, t: Transfer)
    ensures multiset(Others(q, key))[t] == if t.commandKey == Some(Str(key)) then 0 else multiset(q)[t]
  {
    if q != [] {
      OthersAre(q[1..], key, t);
      assert q == [q[0]] + q[1..];
    }
  }

  // A cancel of one queue leaves the other one and the difference of counter and queues alone,
  // and is saved when it removes anything.
  lemma {:induction false} CancelSide(s: Queues, kind: Kind, key: string, i: nat)
    ensures var r := CancelFrom(s, kind, key, i);
      && (forall other: Kind :: other != kind ==> QueueOf(r, other) == QueueOf(s, other))
      && r.count - Waiting(r) == s.count - Waiting(s)
      && (r == s || r.file == r.tree)
    decreases |QueueOf(s, kind)| - i
  {
    hide Waiting, RemoveAt;
    if i < |QueueOf(s, kind)| {
      if HasKey(QueueOf(s, kind)[i], key) {
        var r := SavedRemoveAt(s, kind, i);
        RemovedSide(s, kind, i);
        CancelSide(r, kind, key, i);
      } else {
        CancelSide(s, kind, key, i + 1);
      }
    }
  }

  lemma RemovedSide(s: Queues, kind: Kind, i: nat)
    requires i < |QueueOf(s, kind)|
    ensures var r := SavedRemoveAt(s, kind, i);
      && (forall other: Kind :: other != kind ==> QueueOf(r, other) == QueueOf(s, other))
      && r.count - Waiting(r) == s.count - Waiting(s) && r.file == r.tree
      && |QueueOf(r, kind)| == |QueueOf(s, kind)| - 1
  {
    RemoveCounts(s, kind, i);
    ShorterByOne(s, kind, i);
    hide Nonzero, Delete, KeysOf;
  }

  // A cancel takes every request with the key out of both queues and leaves the others in order;
  // the counter falls by the cancelled requests that wait for a time.
  lemma CancelBoth(s: Queues, key: string)
    ensures var r := Cancel(s, key);
      && (forall kind: Kind :: QueueOf(r, kind) == Others(QueueOf(s, kind), key))
      && s.count - r.count == Waiting(s) - Waiting(r)
      && (r == s || r.file == r.tree)
  {
    hide CancelFrom, Waiting;
    var d := CancelFrom(s, Downloads, key, 0);
    CancelMeans(s, Downloads, key, 0);
    CancelSide(s, Downloads, key, 0);
    CancelMeans(d, Uploads, key, 0);
    CancelSide(d, Uploads, key, 0);
    forall kind: Kind ensures QueueOf(Cancel(s, key), kind) == Others(QueueOf(s, kind), key) {
      assert QueueOf(s, kind)[..0] == [] && QueueOf(s, kind)[0..] == QueueOf(s, kind);
    }
  }

  // No request with the key is left.
  lemma CancelledGone(s: Queues, key: string, kind: Kind, t: Transfer)
    ensures t in QueueOf(Cancel(s, key), kind) <==> t in QueueOf(s, kind) && t.commandKey != Some(Str(key))
  {
    hide Cancel;
    CancelBoth(s, key);
    OthersAre(QueueOf(s, kind), key, t);
    assert t in QueueOf(Cancel(s, key), kind) <==> t in multiset(QueueOf(Cancel(s, key), kind));
    assert t in QueueOf(s, kind) <==> t in multiset(QueueOf(s, kind));
  }

  // When every request has its record, no record with the key is left in the backup either.
  lemma CancelledRecords(s: Queues, key: string, r: Record)
    requires Inv(s) && Complete(s) && r in Cancel(s, key).tree
    ensures Child("command_key", Some(Str(key))) !in r.children
  {
    var c := Cancel(s, key);
    CancelKeeps(s, Downloads, key, 0);
    CancelKeeps(CancelFrom(s, Downloads, key, 0), Uploads, key, 0);
    InvBacked(c);
    hide Inv, StoredOf, ReadTransfer, Cancel, Tidy;
    var j :| 0 <= j < |c.tree| && c.tree[j] == r;
    TidyProper(c.tree);
    var kind, t := KindOf(r), ReadTransfer(r);
    TidyNamed(c.tree, j);
    StoredHas(c.tree, j);
    assert t in multiset(StoredOf(c.tree, kind)) && t in multiset(QueueOf(c, kind));
    CancelledGone(s, key, kind, t);
    OneCommandKey(kind, t);
  }

  lemma OneCommandKey(kind: Kind, t: Transfer)
    ensures forall v :: Child("command_key", v) in RecordOf(EntryOf(kind, t)).children ==> v == t.commandKey
  {
    var c := RecordOf(EntryOf(kind, t)).children;
    ChildNames(kind, t);
    forall v | Child("command_key", v) in c ensures v == t.commandKey {
      var i :| 0 <= i < |c| && c[i] == Child("command_key", v);
    }
  }

  // ---- dropping a queue ----

  lemma {:induction false} RemoveAllMeans(s: Queues, kind: Kind)
    ensures var r := RemoveAll(s, kind);
      && QueueOf(r, kind) == [] && r.file == s.file && r.count - Waiting(r) == s.count - Waiting(s)
      && forall other: Kind :: other != kind ==> QueueOf(r, other) == QueueOf(s, other)
    decreases |QueueOf(s, kind)|
  {
    hide Waiting, RemoveAt;
    if QueueOf(s, kind) != [] {
      RemovedSide(s, kind, 0);
      RemoveCounts(s, kind, 0);
      RemovedFile(s, kind);
      RemoveAllMeans(RemoveAt(s, kind, 0), kind);
    }
  }

  lemma RemovedFile(s: Queues, kind: Kind)
    requires QueueOf(s, kind) != []
    ensures RemoveAt(s, kind, 0).file == s.file
    ensures forall other: Kind :: QueueOf(SavedRemoveAt(s, kind, 0), other) == QueueOf(RemoveAt(s, kind, 0), other)
  {
    hide Delete, KeysOf;
  }

  // The same request a second time is queued again but finds the first one's record: after a
  // restart only one of the two is left.
  lemma SecondNotNew(s: Queues, r: Request, now: int)
    ensures !IsNew(Accept(s, r, now), r, now)
  {
    hide Place, Accepts, AcceptedFrom, FirstNamed, KeysOf;
    var e := EntryOf(r.kind, Scheduled(r, now));
    KeysAcceptOwnRecord(e);
    if Found(s.tree, RecordOf(e).name, KeysOf(e)).None? {
      FoundAfterAppend(s.tree, RecordOf(e), KeysOf(e));
    }
  }

  // ---- the queues as the source edits them ----

  class TransferQueues {
    var downloads: seq<Transfer>
    var uploads: seq<Transfer>
    var count: int
    var file: seq<Record>
    const backup: BackupTree

    ghost function State(): Queues
      reads this, backup
    {
      Queues(downloads, uploads, count, backup.tree, file)
    }

    constructor (backup: BackupTree)
      ensures this.backup == backup && State() == Queues([], [], 0, backup.tree, [])
    {
      this.backup := backup;
      downloads, uploads, count, file := [], [], 0, [];
    }

    // bkp_session_save
    method Save()
      modifies this`file
      ensures State() == Step(old(State()), Op.Save)
    {
      file := backup.tree;
    }

    // The list scan before list_add, stopping at the first entry scheduled at 'limit' or later.
    static method Scan(q: seq<Transfer>, limit: int) returns (p: nat)
      ensures p == Place(q, limit)
    {
      p := 0;
      while p < |q| && q[p].scheduledTime < limit
        invariant p <= |q| && Place(q, limit) == p + Place(q[p..], limit)
      {
        assert q[p..][1..] == q[p + 1..];
        p := p + 1;
      }
    }

    method Put(kind: Kind, q: seq<Transfer>)
      modifies this`downloads, this`uploads
      ensures State() == WithQueue(old(State()), kind, q)
    {
      if kind == Downloads {
        downloads := q;
      } else {
        uploads := q;
      }
    }

    // cwmp_handle_rpc_cpe_download and cwmp_handle_rpc_cpe_upload, after parsing
    method HandleRequest(r: Request, now: int) returns (fault: Fault)
      modifies this, backup
      ensures fault == Check(r.kind, r.fileType, r.url, old(count))
      ensures State() == Handle(old(State()), r, now)
    {
      hide Place, Insert, RecordOf, KeysOf, Check;
      fault := Check(r.kind, r.fileType, r.url, count);
      if fault != NoFault {
        return;
      }
      var t := Scheduled(r, now);
      var q := if r.kind == Downloads then downloads else uploads;
      var p := Scan(q, t.scheduledTime);
      Put(r.kind, q[..p] + [t] + q[p..]);
      if r.delay != 0 {
        count := count + 1;
      }
      var e := EntryOf(r.kind, t);
      var b := backup.InsertRecord(RecordOf(e), KeysOf(e));
      Save();
    }

    // Deleting one request: its record, its place in the list and its share of the counter.
    method Drop(kind: Kind, i: nat)
      requires i < |QueueOf(State(), kind)|
      modifies this, backup
      ensures State() == RemoveAt(old(State()), kind, i)
    {
      hide Delete, KeysOf;
      var q := if kind == Downloads then downloads else uploads;
      backup.DeleteRecord(NameOf(kind), KeysOf(EntryOf(kind, q[i])));
      Put(kind, q[..i] + q[i + 1..]);
      if q[i].scheduledTime != 0 {
        count := count - 1;
      }
    }

    // One turn of thread_cwmp_rpc_cpe_download or _upload: whether the head was launched or given up.
    method Turn(kind: Kind, now: int) returns (left: bool)
      modifies this, backup
      ensures State() == Launch(old(State()), kind, now)
      ensures var q := QueueOf(old(State()), kind);
        left <==> q != [] && (q[0].scheduledTime == 0 || q[0].scheduledTime <= now)
    {
      hide RemoveAt;
      left := false;
      var q := if kind == Downloads then downloads else uploads;
      if q != [] {
        var timeout := if q[0].scheduledTime != 0 then now - q[0].scheduledTime else 0;
        if timeout >= 0 && timeout > TIME_OF_GRACE {
          Drop(kind, 0);
          return true;
        }
        if timeout >= 0 && timeout <= TIME_OF_GRACE {
          Drop(kind, 0);
          Save();
          return true;
        }
      }
    }

    // One of the two loops of cancel_transfer.
    method CancelIn(kind: Kind, key: string)
      modifies this, backup
      ensures State() == CancelFrom(old(State()), kind, key, 0)
    {
      hide RemoveAt;
      var i := 0;
      while i < |if kind == Downloads then downloads else uploads|
        invariant CancelFrom(old(State()), kind, key, 0) == CancelFrom(State(), kind, key, i)
        decreases |QueueOf(State(), kind)| - i
      {
        var q := if kind == Downloads then downloads else uploads;
        if HasKey(q[i], key) {
          ShorterByOne(State(), kind, i);
          Drop(kind, i);
          Save();
        } else {
          i := i + 1;
        }
      }
    }

    method CancelTransfer(key: string)
      modifies this, backup
      ensures State() == Cancel(old(State()), key)
      ensures forall kind: Kind :: QueueOf(State(), kind) == Others(QueueOf(old(State()), kind), key)
    {
      CancelBoth(State(), key);
      hide CancelFrom, Others;
      CancelIn(Downloads, key);
      CancelIn(Uploads, key);
    }

    // cwmp_scheduledDownload_remove_all and cwmp_scheduledUpload_remove_all
    method RemoveAllOf(kind: Kind)
      modifies this, backup
      ensures State() == RemoveAll(old(State()), kind)
    {
      hide RemoveAt;
      while (if kind == Downloads then downloads else uploads) != []
        invariant RemoveAll(old(State()), kind) == RemoveAll(State(), kind)
        decreases |QueueOf(State(), kind)|
      {
        ShorterByOne(State(), kind, 0);
        Drop(kind, 0);
      }
    }

    // The loop of a loader over the children of one record.
    static method ReadChildren(r: Record) returns (t: Transfer)
      requires forall i ::
                 0 <= i < |r.children| && r.children[i].name in {"file_size", "time"} && r.children[i].text.Some? ==>
                   r.children[i].text.value.Num?
      ensures t == ReadTransfer(r)
    {
      t := Transfer(None, None, None, None, None, 0, 0);
      var b, c := 0, r.children;
      while b < |c|
        invariant b <= |c| && t == ReadTransfer(r.(children := c[..b]))
      {
        var d := c[b];
        assert c[..b + 1][..b] == c[..b];
        if d.text.Some? {
          match d.name {
            case "url" => t := t.(url := d.text);
            case "command_key" => t := t.(commandKey := d.text);
            case "file_type" => t := t.(fileType := d.text);
            case "username" => t := t.(username := d.text);
            case "password" => t := t.(password := d.text);
            case "file_size" => t := t.(fileSize := d.text.value.n);
            case "time" => t := t.(scheduledTime := d.text.value.n);
            case _ =>
          }
        }
        b := b + 1;
      }
      assert c[..|c|] == c;
    }

    // load_download and load_upload
    method LoadTransfer(r: Record)
      requires r.name == "download" || r.name == "upload"
      requires Proper(r)
      modifies this
      ensures State() == Load(old(State()), r)
    {
      hide Place, ReadTransfer;
      NumbersIn(r);
      var t := ReadChildren(r);
      var kind := if r.name == "download" then Downloads else Uploads;
      var q := if kind == Downloads then downloads else uploads;
      var p := Scan(q, t.scheduledTime + 1);
      Put(kind, q[..p] + [t] + q[p..]);
      if t.scheduledTime != 0 {
        count := count + 1;
      }
    }

    // cwmp_load_saved_session at start-up: every record of the backup in turn.
    method LoadSaved()
      requires forall i :: 0 <= i < |backup.tree| ==> Proper(backup.tree[i])
      modifies this
      ensures State() == LoadAll(old(State()), backup.tree)
    {
      hide Load, ReadTransfer, RecordOf;
      var b := 0;
      while b < |backup.tree|
        invariant b <= |backup.tree| && State() == LoadAll(old(State()), backup.tree[..b])
      {
        assert backup.tree[..b + 1][..b] == backup.tree[..b];
        LoadTransfer(backup.tree[b]);
        b := b + 1;
      }
      assert backup.tree[..|backup.tree|] == backup.tree;
    }
  }

  lemma ShorterByOne(s: Queues, kind: Kind, i: nat)
    requires i < |QueueOf(s, kind)|
    ensures |QueueOf(RemoveAt(s, kind, i), kind)| == |QueueOf(s, kind)| - 1
    ensures RemoveAt(s, kind, i).tree == Delete(s.tree, NameOf(kind), KeysOf(EntryOf(kind, QueueOf(s, kind)[i])))
  {
    hide Delete, KeysOf;
  }

  lemma NumbersIn(r: Record)
    requires Proper(r)
    ensures forall i :: 0 <= i < |r.children| && r.children[i].name in {"file_size", "time"} && r.children[i].text.Some?
                        ==> r.children[i].text.value.Num?
    ensures r.name == "download" || r.name == "upload"
  {
    hide ReadTransfer;
  }
}
