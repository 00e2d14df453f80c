/** backupSession.c: the tree of backed-up records, its keyword search and the insert and delete
    pairs built on it. The tree is a sequence of named records whose children carry at most one
    text each; a number printed with %d or %ld and read back with atoi or atol is kept as a number. */
module Backup {
  import opened Options

  datatype Text = Str(s: string) | Num(n: int)

  datatype Child = Child(name: string, text: Option<Text>)

  datatype Record = Record(name: string, children: seq<Child>)

  // struct search_keywords; the value None is the null pointer.
  datatype Key = Key(name: string, value: Option<Text>)

  predicate Matches(k: Key, c: Child) {
    k.name == c.name && (k.value.None? || k.value == c.text)
  }

  // ---- the greedy scan over the children of one record ----

  // How many keys the scan gets through.
  function Matched(children: seq<Child>, keys: seq<Key>): (n: nat)
    ensures n <= |keys|
  {
    if children == [] || keys == [] then 0
    else if Matches(keys[0], children[0]) then 1 + Matched(children[1..], keys[1..])
    else Matched(children[1..], keys)
  }

  predicate Accepts(children: seq<Child>, keys: seq<Key>) {
    Matched(children, keys) == |keys|
  }

  // The keys match children at positions that only increase.
  ghost predicate MatchesAt(children: seq<Child>, keys: seq<Key>, at: seq<nat>) {
    && |at| == |keys|
    && (forall i :: 0 <= i < |at| ==> at[i] < |children| && Matches(keys[i], children[at[i]]))
    && (forall i, j :: 0 <= i < j < |at| ==> at[i] < at[j])
  }

  // The greedy scan accepts exactly when the keys match some ordered subsequence.
  lemma GreedyIffSubsequence(children: seq<Child>, keys: seq<Key>)
    ensures Accepts(children, keys) <==> exists at :: MatchesAt(children, keys, at)
  {
    if Accepts(children, keys) {
      var at := Positions(children, keys);
    }
    if at :| MatchesAt(children, keys, at) {
      SubsequenceAccepted(children, keys, at);
    }
  }

  lemma {:induction false} Positions(children: seq<Child>, keys: seq<Key>) returns (at: seq<nat>)
    requires Accepts(children, keys)
    ensures MatchesAt(children, keys, at)
  {
    if keys == [] {
      at := [];
    } else if Matches(keys[0], children[0]) {
      var rest := Positions(children[1..], keys[1..]);
      at := [0] + seq(|rest|, i requires 0 <= i < |rest| => rest[i] + 1);
    } else {
      var rest := Positions(children[1..], keys);
      at := seq(|rest|, i requires 0 <= i < |rest| => rest[i] + 1);
    }
  }

  lemma {:induction false} SubsequenceAccepted(children: seq<Child>, keys: seq<Key>, at: seq<nat>)
    requires MatchesAt(children, keys, at)
    ensures Accepts(children, keys)
    decreases |children|
  {
    if keys != [] {
      if Matches(keys[0], children[0]) {
        var rest := seq(|at| - 1, i requires 0 <= i < |at| - 1 => at[i + 1] - 1);
        SubsequenceAccepted(children[1..], keys[1..], rest);
      } else {
        assert at[0] != 0;
        var rest := seq(|at|, i requires 0 <= i < |at| => at[i] - 1);
        SubsequenceAccepted(children[1..], keys, rest);
      }
    }
  }

  predicate OnlyAt(children: seq<Child>, name: string, j: nat) {
    j < |children| && forall k :: 0 <= k < |children| ==> (children[k].name == name <==> k == j)
  }

  // Two keys whose names are on one child each, in key order.
  lemma AcceptsTwo(children: seq<Child>, keys: seq<Key>, i: nat, j: nat)
    requires |keys| == 2 && i < j && OnlyAt(children, keys[0].name, i) && OnlyAt(children, keys[1].name, j)
    ensures Accepts(children, keys) <==> Matches(keys[0], children[i]) && Matches(keys[1], children[j])
  {
    if Accepts(children, keys) {
      var at := Positions(children, keys);
      assert at[0] == i && at[1] == j;
    }
    if Matches(keys[0], children[i]) && Matches(keys[1], children[j]) {
      SubsequenceAccepted(children, keys, [i, j]);
    }
  }

  // A key whose name is on no child.
  lemma NoSuchName(children: seq<Child>, keys: seq<Key>, i: nat)
    requires i < |keys| && forall k :: 0 <= k < |children| ==> children[k].name != keys[i].name
    ensures !Accepts(children, keys)
  {
    if Accepts(children, keys) {
      var at := Positions(children, keys);
    }
  }

  // ---- the search over the records ----

  predicate NamedAt(tree: seq<Record>, name: string, j: nat) {
    j < |tree| && tree[j].name == name && forall i :: 0 <= i < j ==> tree[i].name != name
  }

  // The first record from position 'from' on that accepts the keys, whatever its name.
  function AcceptedFrom(tree: seq<Record>, keys: seq<Key>, from: nat): (r: Option<nat>)
    ensures r.Some? ==> from <= r.value < |tree| && Accepts(tree[r.value].children, keys)
                        && forall i :: from <= i < r.value ==> !Accepts(tree[i].children, keys)
    ensures r.None? ==> forall i :: from <= i < |tree| ==> !Accepts(tree[i].children, keys)
    decreases |tree| - from
  {
    if from >= |tree| then None
    else if Accepts(tree[from].children, keys) then Some(from)
    else AcceptedFrom(tree, keys, from + 1)
  }

  function FirstNamed(tree: seq<Record>, name: string, from: nat): (r: nat)
    requires from <= |tree|
    ensures from <= r <= |tree|
    ensures r < |tree| ==> tree[r].name == name
    ensures forall i :: from <= i < r ==> tree[i].name != name
    decreases |tree| - from
  {
    if from == |tree| || tree[from].name == name then from else FirstNamed(tree, name, from + 1)
  }

  // The search re-checks the keys but not the element name on later siblings.
  function Found(tree: seq<Record>, name: string, keys: seq<Key>): (r: Option<nat>)
    ensures r.Some? ==> r.value < |tree|
  {
    AcceptedFrom(tree, keys, FirstNamed(tree, name, 0))
  }

  function Insert(tree: seq<Record>, r: Record, keys: seq<Key>): seq<Record> {
    if Found(tree, r.name, keys).None? then tree + [r] else tree
  }

  function Delete(tree: seq<Record>, name: string, keys: seq<Key>): seq<Record> {
    match Found(tree, name, keys)
    case None => tree
    case Some(j) => tree[..j] + tree[j + 1..]
  }

  // What a search finds once r has been appended to a tree in which it found nothing.
  lemma FoundAfterAppend(tree: seq<Record>, r: Record, keys: seq<Key>)
    requires Found(tree, r.name, keys).None?
    ensures Found(tree + [r], r.name, keys) == if Accepts(r.children, keys) then Some(|tree|) else None
  {
    var first, first' := FirstNamed(tree, r.name, 0), FirstNamed(tree + [r], r.name, 0);
    assert (tree + [r])[|tree|] == r;
    assert first == first' by {
      if first < |tree| {
        assert (tree + [r])[first].name == r.name;
      }
      if first' < |tree| {
        assert tree[first'].name == r.name;
      }
    }
    forall i | first <= i < |tree| ensures !Accepts((tree + [r])[i].children, keys) {
      assert (tree + [r])[i] == tree[i];
    }
  }

  // Inserting twice is inserting once exactly when a record is accepted by its own keys.
  lemma InsertIdempotentIff(tree: seq<Record>, r: Record, keys: seq<Key>)
    requires Found(tree, r.name, keys).None?
    ensures Insert(Insert(tree, r, keys), r, keys) == Insert(tree, r, keys) <==> Accepts(r.children, keys)
  {
    FoundAfterAppend(tree, r, keys);
    assert |tree + [r] + [r]| != |tree + [r]|;
  }

  lemma InsertIdempotent(tree: seq<Record>, r: Record, keys: seq<Key>)
    requires Accepts(r.children, keys)
    ensures Insert(Insert(tree, r, keys), r, keys) == Insert(tree, r, keys)
  {
    if Found(tree, r.name, keys).None? {
      InsertIdempotentIff(tree, r, keys);
    }
  }

  // Deleting what an insert added restores the tree.
  lemma DeleteUndoesInsert(tree: seq<Record>, r: Record, insertKeys: seq<Key>, deleteKeys: seq<Key>)
    requires Found(tree, r.name, insertKeys).None? && Found(tree, r.name, deleteKeys).None?
    requires Accepts(r.children, deleteKeys)
    ensures Delete(Insert(tree, r, insertKeys), r.name, deleteKeys) == tree
  {
    FoundAfterAppend(tree, r, deleteKeys);
    assert (tree + [r])[..|tree|] == tree;
  }

  // ---- the kinds of record ----

  function Same(k: Key): Child {
    Child(k.name, k.value)
  }

  function SameAll(keys: seq<Key>): (c: seq<Child>)
    ensures |c| == |keys|
  {
    seq(|keys|, i requires 0 <= i < |keys| => Same(keys[i]))
  }

  // Children written in key order, one each: four of the kinds.
  lemma SameAllAccepted(keys: seq<Key>)
    ensures Accepts(SameAll(keys), keys)
  {
    var at: seq<nat> := seq(|keys|, i requires 0 <= i < |keys| => i);
    SubsequenceAccepted(SameAll(keys), keys, at);
  }

  type Value = Option<Text>

  function Number(n: int): Value { Some(Num(n)) }

  datatype Transfer = Transfer(url: Value, commandKey: Value, fileType: Value, username: Value,
                               password: Value, fileSize: int, scheduledTime: int)

  datatype Window = Window(start: int, end: int, mode: Value, message: Value, retries: int)

  // The arguments of the insert and delete functions, one constructor a pair.
  datatype Entry =
    | ScheduleInform(commandKey: Value, time: int)
    | Download(transfer: Transfer)
    | Upload(transfer: Transfer)
    | ScheduleDownload(transfer: Transfer, first: Window, second: Window)
    | TransferComplete(commandKey: Value, startTime: Value, completeTime: Value, oldVersion: Value,
                       faultCode: int, kind: int)

  function TransferKeys(t: Transfer): seq<Key> {
    [Key("url", t.url), Key("command_key", t.commandKey), Key("file_type", t.fileType),
     Key("username", t.username), Key("password", t.password)]
  }

  // The keys both functions of a pair search with.
  function KeysOf(e: Entry): (keys: seq<Key>)
    ensures keys != []
  {
    match e
    case ScheduleInform(commandKey, time) => [Key("command_key", commandKey), Key("time", Number(time))]
    case Download(t) => TransferKeys(t) + [Key("file_size", Number(t.fileSize)), Key("time", Number(t.scheduledTime))]
    case Upload(t) => TransferKeys(t) + [Key("time", Number(t.scheduledTime))]
    case ScheduleDownload(t, u, v) => TransferKeys(t) +
      [Key("file_size", Number(t.fileSize)),
       Key("windowstart1", Number(u.start)), Key("windowend1", Number(u.end)), Key("windowmode1", u.mode),
       Key("usermessage1", u.message), Key("maxretrie1", Number(u.retries)),
       Key("windowstart2", Number(v.start)), Key("windowend2", Number(v.end)), Key("windowmode2", v.mode),
       Key("usermessage2", v.message), Key("maxretrie2", Number(v.retries))]
    case TransferComplete(commandKey, startTime, completeTime, _, faultCode, kind) =>
      [Key("command_key", commandKey), Key("start_time", startTime), Key("complete_time", completeTime),
       Key("fault_code", Number(faultCode)), Key("type", Number(kind))]
  }

  function TransferChildren(t: Transfer): seq<Child> {
    [Child("url", t.url), Child("command_key", t.commandKey), Child("file_type", t.fileType),
     Child("username", t.username), Child("password", t.password)]
  }

  // The record the insert function writes.
  function RecordOf(e: Entry): Record {
    match e
    case ScheduleInform(commandKey, time) =>
      Record("schedule_inform", [Child("command_key", commandKey), Child("time", Number(time))])
    case Download(t) =>
      Record("download", TransferChildren(t) +
             [Child("file_size", Number(t.fileSize)), Child("time", Number(t.scheduledTime))])
    case Upload(t) =>
      Record("upload", TransferChildren(t) + [Child("time", Number(t.scheduledTime))])
    case ScheduleDownload(t, u, v) =>
      Record("schedule_download", TransferChildren(t) +
             [Child("file_size", Number(t.fileSize)),
              Child("windowstart1", Number(u.start)), Child("windowend1", Number(u.end)), Child("windowmode1", u.mode),
              Child("usermessage1", u.message), Child("maxretrie1", Number(u.retries)),
              Child("windowstart2", Number(v.start)), Child("windowend2", Number(v.end)), Child("windowmode2", v.mode),
              Child("usermessage2", v.message), Child("maxretrie2", Number(v.retries))])
    case TransferComplete(commandKey, startTime, completeTime, oldVersion, faultCode, kind) =>
      Record("transfer_complete",
             [Child("command_key", commandKey), Child("start_time", startTime), Child("complete_time", completeTime),
              Child("old_software_version", oldVersion),
              Child("fault_code", Number(faultCode)), Child("type", Number(kind))])
  }

  lemma OwnChildren(e: Entry)
    requires !e.TransferComplete?
    ensures RecordOf(e).children == SameAll(KeysOf(e))
  {
    var keys, children := KeysOf(e), RecordOf(e).children;
    if !e.ScheduleInform? {
      var more := keys[5..];
      assert keys == TransferKeys(e.transfer) + more && children == TransferChildren(e.transfer) + children[5..];
      SameAllAppend(TransferKeys(e.transfer), more);
      TransferOwn(e.transfer);
      assert children[5..] == SameAll(more);
    }
  }

  lemma TransferOwn(t: Transfer)
    ensures TransferChildren(t) == SameAll(TransferKeys(t))
  {
  }

  lemma SameAllAppend(a: seq<Key>, b: seq<Key>)
    ensures SameAll(a + b) == SameAll(a) + SameAll(b)
  {
  }

  lemma KeysAcceptOwnRecord(e: Entry)
    ensures Accepts(RecordOf(e).children, KeysOf(e))
  {
    if e.TransferComplete? {
      SubsequenceAccepted(RecordOf(e).children, KeysOf(e), [0, 1, 2, 4, 5]);
    } else {
      OwnChildren(e);
      SameAllAccepted(KeysOf(e));
    }
  }

  // ---- which records accept the keys of a transfer ----

  // A keyword without a value fits any text.
  predicate Fits(k: Value, v: Value) {
    k.None? || k == v
  }

  predicate FieldsFit(k: Transfer, t: Transfer) {
    Fits(k.url, t.url) && Fits(k.commandKey, t.commandKey) && Fits(k.fileType, t.fileType)
    && Fits(k.username, t.username) && Fits(k.password, t.password)
  }

  lemma {:induction false} MatchedAtMost(children: seq<Child>, keys: seq<Key>)
    ensures Matched(children, keys) <= |children|
  {
    if children != [] && keys != [] {
      MatchedAtMost(children[1..], keys[1..]);
      MatchedAtMost(children[1..], keys);
    }
  }

  // As many children as keys: each child must match its key.
  lemma {:induction false} AcceptsOneByOne(children: seq<Child>, keys: seq<Key>)
    requires |children| == |keys|
    ensures Accepts(children, keys) <==> forall i :: 0 <= i < |keys| ==> Matches(keys[i], children[i])
  {
    hide Matches;
    if keys != [] {
      AcceptsOneByOne(children[1..], keys[1..]);
      MatchedAtMost(children[1..], keys);
      assert (forall i :: 0 <= i < |keys| ==> Matches(keys[i], children[i])) <==>
        Matches(keys[0], children[0])
        && forall i :: 0 <= i < |keys[1..]| ==> Matches(keys[1..][i], children[1..][i]) by {
        if forall i :: 0 <= i < |keys[1..]| ==> Matches(keys[1..][i], children[1..][i]) {
          assert forall i :: 0 < i < |keys| ==> keys[i] == keys[1..][i - 1] && children[i] == children[1..][i - 1];
        }
      }
    }
  }

  lemma DownloadAcceptsDownload(k: Transfer, d: Transfer)
    ensures Accepts(RecordOf(Download(d)).children, KeysOf(Download(k)))
       <==> FieldsFit(k, d) && k.fileSize == d.fileSize && k.scheduledTime == d.scheduledTime
  {
    AcceptsOneByOne(RecordOf(Download(d)).children, KeysOf(Download(k)));
    SevenMatches(KeysOf(Download(k)), RecordOf(Download(d)).children);
  }

  lemma SevenMatches(keys: seq<Key>, children: seq<Child>)
    requires |keys| == |children| == 7
    ensures (forall i :: 0 <= i < |keys| ==> Matches(keys[i], children[i])) <==>
      Matches(keys[0], children[0]) && Matches(keys[1], children[1]) && Matches(keys[2], children[2])
      && Matches(keys[3], children[3]) && Matches(keys[4], children[4]) && Matches(keys[5], children[5])
      && Matches(keys[6], children[6])
  {
  }

  lemma UploadAcceptsUpload(k: Transfer, u: Transfer)
    ensures Accepts(RecordOf(Upload(u)).children, KeysOf(Upload(k)))
       <==> FieldsFit(k, u) && k.scheduledTime == u.scheduledTime
  {
    AcceptsOneByOne(RecordOf(Upload(u)).children, KeysOf(Upload(k)));
    SixMatches(KeysOf(Upload(k)), RecordOf(Upload(u)).children);
  }

  lemma SixMatches(keys: seq<Key>, children: seq<Child>)
    requires |keys| == |children| == 6
    ensures (forall i :: 0 <= i < |keys| ==> Matches(keys[i], children[i])) <==>
      Matches(keys[0], children[0]) && Matches(keys[1], children[1]) && Matches(keys[2], children[2])
      && Matches(keys[3], children[3]) && Matches(keys[4], children[4]) && Matches(keys[5], children[5])
  {
  }

  // The search for an upload goes past file_size and takes a download for one, whatever its size.
  lemma UploadAcceptsDownload(k: Transfer, d: Transfer)
    ensures Accepts(RecordOf(Download(d)).children, KeysOf(Upload(k)))
       <==> FieldsFit(k, d) && k.scheduledTime == d.scheduledTime
  {
    var children, keys := RecordOf(Download(d)).children, KeysOf(Upload(k));
    var without := RecordOf(Upload(d)).children;
    SkipChild(children, keys, 5);
    assert children[..5] + children[6..] == without;
    UploadAcceptsUpload(k, d);
  }

  // A child whose name no key has does not matter.
  lemma {:induction false} SkipChild(children: seq<Child>, keys: seq<Key>, i: nat)
    requires i < |children| && forall j :: 0 <= j < |keys| ==> keys[j].name != children[i].name
    ensures Matched(children, keys) == Matched(children[..i] + children[i + 1..], keys)
    decreases |children|
  {
    var rest := children[..i] + children[i + 1..];
    if keys == [] {
    } else if i == 0 {
      assert rest == children[1..];
    } else {
      assert rest[0] == children[0] && rest[1..] == children[1..][..i - 1] + children[1..][i..];
      if Matches(keys[0], children[0]) {
        SkipChild(children[1..], keys[1..], i - 1);
      } else {
        SkipChild(children[1..], keys, i - 1);
      }
    }
  }

  // Never the other way round: an upload record has no file_size.
  lemma DownloadRejectsUpload(k: Transfer, u: Transfer)
    ensures !Accepts(RecordOf(Upload(u)).children, KeysOf(Download(k)))
  {
    MatchedAtMost(RecordOf(Upload(u)).children, KeysOf(Download(k)));
  }

  // So a search for an upload, started at some other upload, ends at a download, and deleting the
  // upload deletes the record of the download.
  lemma DeleteTakesDownload(a: Transfer, u: Transfer, d: Transfer)
    requires !FieldsFit(u, a) || u.scheduledTime != a.scheduledTime
    requires FieldsFit(u, d) && u.scheduledTime == d.scheduledTime
    ensures Found([RecordOf(Upload(a)), RecordOf(Download(d))], "upload", KeysOf(Upload(u))) == Some(1)
    ensures Delete([RecordOf(Upload(a)), RecordOf(Download(d))], "upload", KeysOf(Upload(u))) == [RecordOf(Upload(a))]
  {
    UploadAcceptsUpload(u, a);
    UploadAcceptsDownload(u, d);
    var tree := [RecordOf(Upload(a)), RecordOf(Download(d))];
    assert tree[0].name == "upload";
    hide Accepts, RecordOf, KeysOf, FieldsFit;
    assert FirstNamed(tree, "upload", 0) == 0;
    var keys := KeysOf(Upload(u));
    assert !Accepts(tree[0].children, keys) && Accepts(tree[1].children, keys);
    assert AcceptedFrom(tree, keys, 1) == Some(1);
    assert tree[..1] + tree[2..] == [RecordOf(Upload(a))];
  }

  // Inserting an entry twice is inserting it once ...
  lemma InsertTwice(tree: seq<Record>, e: Entry)
    ensures Insert(Insert(tree, RecordOf(e), KeysOf(e)), RecordOf(e), KeysOf(e)) == Insert(tree, RecordOf(e), KeysOf(e))
  {
    KeysAcceptOwnRecord(e);
    InsertIdempotent(tree, RecordOf(e), KeysOf(e));
  }

  // ... and deleting one that its search did not find before restores the tree.
  lemma DeleteRestores(tree: seq<Record>, e: Entry)
    requires Found(tree, RecordOf(e).name, KeysOf(e)).None?
    ensures Delete(Insert(tree, RecordOf(e), KeysOf(e)), RecordOf(e).name, KeysOf(e)) == tree
  {
    KeysAcceptOwnRecord(e);
    DeleteUndoesInsert(tree, RecordOf(e), KeysOf(e), KeysOf(e));
  }

  // ---- apply_schedule_download: the key order of the insert is not its child order ----

  datatype Apply = Apply(commandKey: Value, fileType: Value, startTime: Value, first: Window, second: Window)

  function ApplyWindowKeys(a: Apply): seq<Key> {
    [Key("windowstart1", Number(a.first.start)), Key("windowend1", Number(a.first.end)),
     Key("maxretrie1", Number(a.first.retries)),
     Key("windowstart2", Number(a.second.start)), Key("windowend2", Number(a.second.end)),
     Key("maxretrie2", Number(a.second.retries))]
  }

  function ApplyInsertKeys(a: Apply): seq<Key> {
    [Key("command_key", a.commandKey), Key("file_type", a.fileType), Key("start_time", a.startTime)]
    + ApplyWindowKeys(a)
  }

  function ApplyDeleteKeys(a: Apply): seq<Key> {
    [Key("start_time", a.startTime), Key("command_key", a.commandKey), Key("file_type", a.fileType)]
    + ApplyWindowKeys(a)
  }

  function ApplyRecord(a: Apply): Record {
    Record("apply_schedule_download",
           [Child("start_time", a.startTime), Child("command_key", a.commandKey), Child("file_type", a.fileType),
            Child("windowstart1", Number(a.first.start)), Child("windowend1", Number(a.first.end)),
            Child("maxretrie1", Number(a.first.retries)),
            Child("windowstart2", Number(a.second.start)), Child("windowend2", Number(a.second.end)),
            Child("maxretrie2", Number(a.second.retries))])
  }

  // The duplicate check of the insert never fires, whatever records of its kind are there.
  lemma ApplyNeverAccepted(a: Apply, b: Apply)
    ensures !Accepts(ApplyRecord(a).children, ApplyInsertKeys(b))
  {
    var children, keys := ApplyRecord(a).children, ApplyInsertKeys(b);
    GreedyIffSubsequence(children, keys);
    forall at: seq<nat> ensures !MatchesAt(children, keys, at) {
      NotAscending(children, keys, at);
    }
  }

  // "file_type" before "start_time" among the keys, after it among the children.
  lemma NotAscending(children: seq<Child>, keys: seq<Key>, at: seq<nat>)
    requires |keys| > 2 && keys[1].name == "file_type" && keys[2].name == "start_time"
    requires forall i :: 0 <= i < |children| ==>
               (children[i].name == "file_type" ==> i == 2) && (children[i].name == "start_time" ==> i == 0)
    ensures !MatchesAt(children, keys, at)
  {
  }

  // So inserting twice leaves two records, and one delete leaves the first insert's behind.
  lemma ApplyInsertDuplicates(a: Apply)
    ensures var tree := Insert(Insert([], ApplyRecord(a), ApplyInsertKeys(a)), ApplyRecord(a), ApplyInsertKeys(a));
            && tree == [ApplyRecord(a), ApplyRecord(a)]
            && Delete(tree, ApplyRecord(a).name, ApplyDeleteKeys(a)) == [ApplyRecord(a)]
  {
    var r, keys := ApplyRecord(a), ApplyInsertKeys(a);
    assert Found([], r.name, keys).None?;
    assert [] + [r] == [r];
    ApplyNeverAccepted(a, a);
    FoundAfterAppend([], r, keys);
    SameAllAccepted(ApplyDeleteKeys(a));
    assert r.children == SameAll(ApplyDeleteKeys(a));
    assert [r] + [r] == [r, r];
    assert [r, r][0] == r;
    assert Found([r, r], r.name, ApplyDeleteKeys(a)) == Some(0);
    assert [r, r][..0] + [r, r][1..] == [r];
  }

  // ---- the records of events ----

  function StatusName(queued: bool): string {
    if queued then "queue_event" else "send_event"
  }

  function ParameterChildren(names: seq<string>): (c: seq<Child>)
    ensures |c| == |names|
    ensures forall i :: 0 <= i < |c| ==> c[i].name == "parameter"
  {
    seq(|names|, i requires 0 <= i < |names| => Child("parameter", Some(Str(names[i]))))
  }

  function EventRecord(queued: bool, code: int, id: int, commandKey: string, names: seq<string>): Record {
    Record(StatusName(queued),
           [Child("index", Number(code)), Child("id", Number(id)), Child("command_key", Some(Str(commandKey)))]
           + ParameterChildren(names))
  }

  function IdKey(id: int): seq<Key> {
    [Key("id", Number(id))]
  }

  // The search for an id accepts exactly the event records of that id, whatever their status.
  lemma EventAcceptsIff(queued: bool, code: int, id: int, commandKey: string, names: seq<string>, other: int)
    ensures Accepts(EventRecord(queued, code, id, commandKey, names).children, IdKey(other)) <==> id == other
  {
    var children, keys := EventRecord(queued, code, id, commandKey, names).children, IdKey(other);
    if id == other {
      SubsequenceAccepted(children, keys, [1]);
    }
    if Accepts(children, keys) {
      var at := Positions(children, keys);
      assert children[at[0]].name == "id";
      assert at[0] == 1;
    }
  }

  // ---- the tree as the source edits it ----

  class BackupTree {
    var tree: seq<Record>

    // bkp_session_node_found
    method NodeFound(name: string, keys: seq<Key>) returns (r: Option<nat>)
      requires keys != []
      ensures r == Found(tree, name, keys)
    {
      var b := 0;
      while b < |tree| && tree[b].name != name
        invariant b <= |tree| && FirstNamed(tree, name, 0) == FirstNamed(tree, name, b)
      {
        b := b + 1;
      }
      var i := 0;
      while b < |tree|
        invariant b <= |tree| && i < |keys|
        invariant Found(tree, name, keys) == AcceptedFrom(tree, keys, b)
      {
        if tree[b].children != [] {
          i := KeysMatched(tree[b].children, keys);
        }
        if i == |keys| {
          return Some(b);
        }
        b := b + 1;
      }
      return None;
    }

    // The inner loop of bkp_session_node_found.
    method KeysMatched(children: seq<Child>, keys: seq<Key>) returns (i: nat)
      ensures i == Matched(children, keys)
    {
      i := 0;
      var c := 0;
      while c < |children| && i < |keys|
        invariant c <= |children| && i <= |keys|
        invariant Matched(children, keys) == i + Matched(children[c..], keys[i..])
      {
        assert children[c..][1..] == children[c + 1..] && keys[i..][1..] == keys[i + 1..];
        if Matches(keys[i], children[c]) {
          i := i + 1;
        }
        c := c + 1;
      }
    }

    // The bkp_session_insert_* functions, for the record and keys of their kind; b is the record
    // that was found or added.
    method InsertRecord(r: Record, keys: seq<Key>) returns (b: nat)
      requires keys != []
      modifies this
      ensures tree == Insert(old(tree), r, keys)
      ensures b == match Found(old(tree), r.name, keys) case Some(j) => j case None => old(|tree|)
    {
      var found := NodeFound(r.name, keys);
      if found.Some? {
        return found.value;
      }
      b := |tree|;
      tree := tree + [r];
    }

    // bkp_session_insert on a record: one more child at the end.
    method AppendChild(b: nat, c: Child)
      requires b < |tree|
      modifies this
      ensures tree == old(tree)[b := old(tree)[b].(children := old(tree)[b].children + [c])]
    {
      tree := tree[b := tree[b].(children := tree[b].children + [c])];
    }

    // bkp_session_move_inform_to_inform_send and _queue
    method RenameAll(from: string, to: string)
      modifies this
      ensures |tree| == old(|tree|)
      ensures forall i :: 0 <= i < |tree| ==>
                tree[i] == if old(tree)[i].name == from then old(tree)[i].(name := to) else old(tree)[i]
    {
      var b := 0;
      while b < |tree|
        invariant b <= |tree| == old(|tree|)
        invariant forall i :: 0 <= i < b ==>
                    tree[i] == if old(tree)[i].name == from then old(tree)[i].(name := to) else old(tree)[i]
        invariant forall i :: b <= i < |tree| ==> tree[i] == old(tree)[i]
      {
        if tree[b].name == from {
          tree := tree[b := tree[b].(name := to)];
        }
        b := b + 1;
      }
    }

    // The bkp_session_delete_* functions.
    method DeleteRecord(name: string, keys: seq<Key>)
      requires keys != []
      modifies this
      ensures tree == Delete(old(tree), name, keys)
    {
      var b := NodeFound(name, keys);
      if b.Some? {
        tree := tree[..b.value] + tree[b.value + 1..];
      }
    }
  }
}
