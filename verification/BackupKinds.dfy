/** Every kind of record in the backup, and which records the search for one of them takes. The search
    starts at a record with the name it looks for and then compares keys only, so that some kinds
    take records of others. */
module BackupKinds {
  import opened Options
  import opened Backup

  // An element of a record that holds elements itself; the search sees its name and no text.
  datatype Part = Install | Uninstall | Upgrade | OpResult

  datatype Field = Url | Ip | Ipv6 | Port

  // The records under the root of the backup file.
  datatype Item =
    | Paired(entry: Entry)
    | Applied(apply: Apply)
    | DuState(complete: bool, commandKey: Value, time: int, parts: seq<Part>)
    | Event(queued: bool, code: int, id: int, eventKey: string, params: seq<string>)
    | Address(contact: bool, fields: seq<(Field, Value)>)

  function PartName(p: Part): string {
    match p
    case Install => "install"
    case Uninstall => "uninstall"
    case Upgrade => "upgrade"
    case OpResult => "opresult"
  }

  function FieldName(f: Field): string {
    match f
    case Url => "url"
    case Ip => "ip"
    case Ipv6 => "ipv6"
    case Port => "port"
  }

  function PartChildren(parts: seq<Part>): (c: seq<Child>)
    ensures |c| == |parts|
    ensures forall i :: 0 <= i < |c| ==> c[i] == Child(PartName(parts[i]), None)
  {
    seq(|parts|, i requires 0 <= i < |parts| => Child(PartName(parts[i]), None))
  }

  function FieldChildren(fields: seq<(Field, Value)>): (c: seq<Child>)
    ensures |c| == |fields|
    ensures forall i :: 0 <= i < |c| ==> c[i] == Child(FieldName(fields[i].0), fields[i].1)
  {
    seq(|fields|, i requires 0 <= i < |fields| => Child(FieldName(fields[i].0), fields[i].1))
  }

  function TimedChildren(commandKey: Value, time: int): seq<Child> {
    [Child("command_key", commandKey), Child("time", Number(time))]
  }

  function TimedKeys(commandKey: Value, time: int): seq<Key> {
    [Key("command_key", commandKey), Key("time", Number(time))]
  }

  // What the insert function writes.
  function ItemRecord(x: Item): Record {
    match x
    case Paired(e) => RecordOf(e)
    case Applied(a) => ApplyRecord(a)
    case DuState(complete, commandKey, time, parts) =>
      Record(if complete then "du_state_change_complete" else "change_du_state",
             TimedChildren(commandKey, time) + PartChildren(parts))
    case Event(queued, code, id, eventKey, params) => EventRecord(queued, code, id, eventKey, params)
    case Address(contact, fields) => Record(if contact then "connection_request" else "acs", FieldChildren(fields))
  }

  function Name(x: Item): string {
    ItemRecord(x).name
  }

  // What the delete function searches with; the addresses have none.
  function ItemKeys(k: Item): (keys: seq<Key>)
    requires !k.Address?
    ensures keys != []
  {
    match k
    case Paired(e) => KeysOf(e)
    case Applied(a) => ApplyDeleteKeys(a)
    case DuState(_, commandKey, time, _) => TimedKeys(commandKey, time)
    case Event(_, _, id, _, _) => IdKey(id)
  }

  // ---- which records a search takes ----

  predicate WindowFits(k: Window, w: Window) {
    k.start == w.start && k.end == w.end && Fits(k.mode, w.mode) && Fits(k.message, w.message) && k.retries == w.retries
  }

  predicate IntervalFits(k: Window, w: Window) {
    k.start == w.start && k.end == w.end && k.retries == w.retries
  }

  // The records that have a command_key and, behind it, a time.
  predicate TimedFits(commandKey: Value, time: int, x: Item) {
    match x
    case Paired(ScheduleInform(other, t)) => Fits(commandKey, other) && time == t
    case Paired(Download(t)) => Fits(commandKey, t.commandKey) && time == t.scheduledTime
    case Paired(Upload(t)) => Fits(commandKey, t.commandKey) && time == t.scheduledTime
    case DuState(_, other, t, _) => Fits(commandKey, other) && time == t
    case _ => false
  }

  predicate EntryFits(k: Entry, e: Entry) {
    match (k, e)
    case (Download(t), Download(d)) => FieldsFit(t, d) && t.fileSize == d.fileSize && t.scheduledTime == d.scheduledTime
    case (Upload(t), Download(d)) => FieldsFit(t, d) && t.scheduledTime == d.scheduledTime
    case (Upload(t), Upload(u)) => FieldsFit(t, u) && t.scheduledTime == u.scheduledTime
    case (ScheduleDownload(t, u, v), ScheduleDownload(d, w, x)) =>
      FieldsFit(t, d) && t.fileSize == d.fileSize && WindowFits(u, w) && WindowFits(v, x)
    case (TransferComplete(key, start, end, _, fault, kind), TransferComplete(key', start', end', _, fault', kind')) =>
      Fits(key, key') && Fits(start, start') && Fits(end, end') && fault == fault' && kind == kind'
    case _ => false
  }

  predicate Takes(k: Item, x: Item) {
    match k
    case Paired(ScheduleInform(commandKey, time)) => TimedFits(commandKey, time, x)
    case DuState(_, commandKey, time, _) => TimedFits(commandKey, time, x)
    case Paired(e) => x.Paired? && EntryFits(e, x.entry)
    case Applied(a) =>
      && x.Applied? && Fits(a.commandKey, x.apply.commandKey) && Fits(a.fileType, x.apply.fileType)
      && Fits(a.startTime, x.apply.startTime)
      && IntervalFits(a.first, x.apply.first) && IntervalFits(a.second, x.apply.second)
    case Event(_, _, id, _, _) => x.Event? && x.id == id
    case Address(_, _) => false
  }

  // ---- keys of the same names as the children ----

  ghost predicate AllFit(keys: seq<Key>, own: seq<Key>) {
    |keys| == |own| && forall i :: 0 <= i < |keys| ==> keys[i].name == own[i].name && Fits(keys[i].value, own[i].value)
  }

  lemma SameAllIff(keys: seq<Key>, own: seq<Key>)
    requires |keys| == |own|
    ensures Accepts(SameAll(own), keys) <==> AllFit(keys, own)
  {
    AcceptsOneByOne(SameAll(own), keys);
  }

  lemma AllFitAppend(a: seq<Key>, b: seq<Key>, own: seq<Key>, more: seq<Key>)
    requires |a| == |own| && |b| == |more|
    ensures AllFit(a + b, own + more) <==> AllFit(a, own) && AllFit(b, more)
  {
    hide Fits;
    if AllFit(a + b, own + more) {
      assert forall i :: 0 <= i < |a| ==> a[i] == (a + b)[i] && own[i] == (own + more)[i];
      assert forall i :: 0 <= i < |b| ==> b[i] == (a + b)[|a| + i] && more[i] == (own + more)[|own| + i];
    }
  }

  lemma OneFits(k: Key, own: Key)
    ensures AllFit([k], [own]) <==> k.name == own.name && Fits(k.value, own.value)
  {
    assert [k][0] == k && [own][0] == own;
  }

  lemma FiveFit(a: seq<Key>, own: seq<Key>)
    requires |a| == |own| == 5
    requires forall i :: 0 <= i < 5 ==> a[i].name == own[i].name
    ensures AllFit(a, own) <==>
      Fits(a[0].value, own[0].value) && Fits(a[1].value, own[1].value) && Fits(a[2].value, own[2].value)
      && Fits(a[3].value, own[3].value) && Fits(a[4].value, own[4].value)
  {
  }

  lemma TransferKeysFit(k: Transfer, t: Transfer)
    ensures AllFit(TransferKeys(k), TransferKeys(t)) <==> FieldsFit(k, t)
  {
    FiveFit(TransferKeys(k), TransferKeys(t));
  }

  function FirstKeys(w: Window): seq<Key> {
    [Key("windowstart1", Number(w.start)), Key("windowend1", Number(w.end)), Key("windowmode1", w.mode),
     Key("usermessage1", w.message), Key("maxretrie1", Number(w.retries))]
  }

  function SecondKeys(w: Window): seq<Key> {
    [Key("windowstart2", Number(w.start)), Key("windowend2", Number(w.end)), Key("windowmode2", w.mode),
     Key("usermessage2", w.message), Key("maxretrie2", Number(w.retries))]
  }

  lemma WindowKeysFit(k: Window, w: Window)
    ensures AllFit(FirstKeys(k), FirstKeys(w)) <==> WindowFits(k, w)
    ensures AllFit(SecondKeys(k), SecondKeys(w)) <==> WindowFits(k, w)
  {
    FiveFit(FirstKeys(k), FirstKeys(w));
    FiveFit(SecondKeys(k), SecondKeys(w));
  }

  lemma ScheduleKeys(t: Transfer, u: Window, v: Window)
    ensures KeysOf(ScheduleDownload(t, u, v))
         == TransferKeys(t) + ([Key("file_size", Number(t.fileSize))] + (FirstKeys(u) + SecondKeys(v)))
  {
  }

  lemma ScheduleAcceptsSchedule(k: Transfer, u: Window, v: Window, t: Transfer, w: Window, x: Window)
    ensures Accepts(RecordOf(ScheduleDownload(t, w, x)).children, KeysOf(ScheduleDownload(k, u, v)))
       <==> FieldsFit(k, t) && k.fileSize == t.fileSize && WindowFits(u, w) && WindowFits(v, x)
  {
    OwnChildren(ScheduleDownload(t, w, x));
    ScheduleKeys(k, u, v);
    ScheduleKeys(t, w, x);
    hide KeysOf, RecordOf, Accepts, AllFit, FieldsFit, WindowFits, TransferKeys, FirstKeys, SecondKeys;
    var size, size' := Key("file_size", Number(k.fileSize)), Key("file_size", Number(t.fileSize));
    SameAllIff(KeysOf(ScheduleDownload(k, u, v)), KeysOf(ScheduleDownload(t, w, x)));
    AllFitAppend(TransferKeys(k), [size] + (FirstKeys(u) + SecondKeys(v)),
                 TransferKeys(t), [size'] + (FirstKeys(w) + SecondKeys(x)));
    AllFitAppend([size], FirstKeys(u) + SecondKeys(v), [size'], FirstKeys(w) + SecondKeys(x));
    AllFitAppend(FirstKeys(u), SecondKeys(v), FirstKeys(w), SecondKeys(x));
    TransferKeysFit(k, t);
    OneFits(size, size');
    WindowKeysFit(u, w);
    WindowKeysFit(v, x);
  }

  lemma CompleteChildren(e: Entry, k: Entry)
    requires e.TransferComplete? && k.TransferComplete?
    ensures Matched(RecordOf(e).children, KeysOf(k)) == Matched(SameAll(KeysOf(e)), KeysOf(k))
    ensures |KeysOf(e)| == 5
  {
    var children := RecordOf(e).children;
    SkipChild(children, KeysOf(k), 3);
    assert children[..3] + children[4..] == SameAll(KeysOf(e));
  }

  lemma CompleteKeysFit(k: Entry, e: Entry)
    requires k.TransferComplete? && e.TransferComplete?
    ensures AllFit(KeysOf(k), KeysOf(e)) <==> EntryFits(k, e)
  {
    FiveFit(KeysOf(k), KeysOf(e));
  }

  lemma CompleteAcceptsComplete(k: Entry, e: Entry)
    requires k.TransferComplete? && e.TransferComplete?
    ensures Accepts(RecordOf(e).children, KeysOf(k)) <==> EntryFits(k, e)
  {
    CompleteChildren(e, k);
    CompleteChildren(k, k);
    CompleteKeysFit(k, e);
    hide KeysOf, RecordOf, Matched, AllFit, EntryFits, SameAll;
    SameAllIff(KeysOf(k), KeysOf(e));
  }

  function ApplyFrontKeys(a: Apply): seq<Key> {
    [Key("start_time", a.startTime), Key("command_key", a.commandKey), Key("file_type", a.fileType)]
  }

  lemma ApplyFrontFits(k: Apply, a: Apply)
    ensures AllFit(ApplyFrontKeys(k), ApplyFrontKeys(a)) <==>
      Fits(k.startTime, a.startTime) && Fits(k.commandKey, a.commandKey) && Fits(k.fileType, a.fileType)
  {
    hide Fits;
    ThreeFit(ApplyFrontKeys(k), ApplyFrontKeys(a));
  }

  lemma ApplyWindowsFit(k: Apply, a: Apply)
    ensures AllFit(ApplyWindowKeys(k), ApplyWindowKeys(a)) <==>
      IntervalFits(k.first, a.first) && IntervalFits(k.second, a.second)
  {
    SixFit(ApplyWindowKeys(k), ApplyWindowKeys(a));
  }

  lemma ApplyChildren(a: Apply)
    ensures ApplyRecord(a).children == SameAll(ApplyDeleteKeys(a))
    ensures ApplyDeleteKeys(a) == ApplyFrontKeys(a) + ApplyWindowKeys(a) && |ApplyWindowKeys(a)| == 6
  {
  }

  lemma ApplyAcceptsApply(k: Apply, a: Apply)
    ensures Accepts(ApplyRecord(a).children, ApplyDeleteKeys(k)) <==> Takes(Applied(k), Applied(a))
  {
    ApplyChildren(k);
    ApplyChildren(a);
    hide Accepts, AllFit, Fits, SameAll, ApplyRecord, ApplyDeleteKeys, ApplyWindowKeys, IntervalFits;
    SameAllIff(ApplyDeleteKeys(k), ApplyDeleteKeys(a));
    AllFitAppend(ApplyFrontKeys(k), ApplyWindowKeys(k), ApplyFrontKeys(a), ApplyWindowKeys(a));
    ApplyFrontFits(k, a);
    ApplyWindowsFit(k, a);
  }

  lemma ThreeFit(a: seq<Key>, own: seq<Key>)
    requires |a| == |own| == 3
    requires forall i :: 0 <= i < 3 ==> a[i].name == own[i].name
    ensures AllFit(a, own) <==>
      Fits(a[0].value, own[0].value) && Fits(a[1].value, own[1].value) && Fits(a[2].value, own[2].value)
  {
  }

  lemma SixFit(a: seq<Key>, own: seq<Key>)
    requires |a| == |own| == 6
    requires forall i :: 0 <= i < 6 ==> a[i].name == own[i].name
    ensures AllFit(a, own) <==>
      Fits(a[0].value, own[0].value) && Fits(a[1].value, own[1].value) && Fits(a[2].value, own[2].value)
      && Fits(a[3].value, own[3].value) && Fits(a[4].value, own[4].value) && Fits(a[5].value, own[5].value)
  {
  }

  // ---- names that a record lacks ----

  predicate Lacks(x: Item, name: string) {
    forall i :: 0 <= i < |ItemRecord(x).children| ==> ItemRecord(x).children[i].name != name
  }

  lemma LackingRejects(x: Item, keys: seq<Key>, i: nat)
    requires i < |keys| && Lacks(x, keys[i].name)
    ensures !Accepts(ItemRecord(x).children, keys)
  {
    NoSuchName(ItemRecord(x).children, keys, i);
  }

  lemma InformLacks(x: Item)
    requires x.Paired? && x.entry.ScheduleInform?
    ensures Lacks(x, "username") && Lacks(x, "windowmode1") && Lacks(x, "windowstart1")
    ensures Lacks(x, "fault_code") && Lacks(x, "id")
  {
  }

  lemma PartIsNoKey(p: Part)
    ensures PartName(p) != "username" && PartName(p) != "windowmode1" && PartName(p) != "windowstart1"
    ensures PartName(p) != "fault_code" && PartName(p) != "id"
    ensures PartName(p) != "command_key" && PartName(p) != "time"
  {
  }

  lemma DuStateLacks(x: Item)
    requires x.DuState?
    ensures Lacks(x, "username") && Lacks(x, "windowmode1") && Lacks(x, "windowstart1")
    ensures Lacks(x, "fault_code") && Lacks(x, "id")
  {
    hide PartName, TimedChildren;
    TimedNames(x.commandKey, x.time);
    forall p: Part ensures PartName(p) != "username" && PartName(p) != "windowmode1" && PartName(p) != "windowstart1"
      && PartName(p) != "fault_code" && PartName(p) != "id" {
      PartIsNoKey(p);
    }
  }

  lemma TimedNames(commandKey: Value, time: int)
    ensures var c := TimedChildren(commandKey, time);
      |c| == 2 && forall i :: 0 <= i < 2 ==> c[i].name == (if i == 0 then "command_key" else "time")
  {
  }

  lemma TransferLacks(x: Item)
    requires x.Paired? && (x.entry.Download? || x.entry.Upload?)
    ensures Lacks(x, "windowmode1") && Lacks(x, "windowstart1") && Lacks(x, "fault_code") && Lacks(x, "id")
    ensures x.entry.Upload? ==> Lacks(x, "file_size")
  {
  }

  lemma ScheduleLacks(x: Item)
    requires x.Paired? && x.entry.ScheduleDownload?
    ensures Lacks(x, "time") && Lacks(x, "start_time") && Lacks(x, "fault_code") && Lacks(x, "id")
  {
  }

  lemma CompleteLacks(x: Item)
    requires x.Paired? && x.entry.TransferComplete?
    ensures Lacks(x, "time") && Lacks(x, "username") && Lacks(x, "windowmode1") && Lacks(x, "windowstart1")
      && Lacks(x, "id")
  {
  }

  lemma ApplyLacks(x: Item)
    requires x.Applied?
    ensures Lacks(x, "time") && Lacks(x, "username") && Lacks(x, "windowmode1") && Lacks(x, "fault_code")
      && Lacks(x, "id")
  {
  }

  lemma EventLacks(x: Item)
    requires x.Event?
    ensures Lacks(x, "time") && Lacks(x, "username") && Lacks(x, "windowmode1") && Lacks(x, "windowstart1")
    ensures Lacks(x, "fault_code")
  {
  }

  lemma AddressLacks(x: Item)
    requires x.Address?
    ensures Lacks(x, "time") && Lacks(x, "username") && Lacks(x, "windowmode1") && Lacks(x, "windowstart1")
    ensures Lacks(x, "fault_code") && Lacks(x, "id")
  {
  }

  // The name in a search that sets the records of its own kinds apart.
  lemma OthersLack(x: Item)
    ensures !(x.Paired? && x.entry.ScheduleDownload?) ==> Lacks(x, "windowmode1")
    ensures !(x.Paired? && x.entry.TransferComplete?) ==> Lacks(x, "fault_code")
    ensures !x.Event? ==> Lacks(x, "id")
    ensures !x.Applied? ==> Lacks(x, "windowstart1") || Lacks(x, "start_time")
    ensures !(x.Paired? && (x.entry.Download? || x.entry.Upload?)) ==> Lacks(x, "username") || Lacks(x, "time")
    ensures !(x.Paired? && (x.entry.Download? || x.entry.Upload? || x.entry.ScheduleInform?)) && !x.DuState? ==>
              Lacks(x, "time")
  {
    hide Lacks;
    match x
    case Paired(ScheduleInform(_, _)) => InformLacks(x);
    case Paired(ScheduleDownload(_, _, _)) => ScheduleLacks(x);
    case Paired(TransferComplete(_, _, _, _, _, _)) => CompleteLacks(x);
    case Paired(_) => TransferLacks(x);
    case Applied(_) => ApplyLacks(x);
    case DuState(_, _, _, _) => DuStateLacks(x);
    case Event(_, _, _, _, _) => EventLacks(x);
    case Address(_, _) => AddressLacks(x);
  }

  // ---- the whole table ----

  lemma TimedAccepts(commandKey: Value, time: int, x: Item)
    ensures Accepts(ItemRecord(x).children, TimedKeys(commandKey, time)) <==> TimedFits(commandKey, time, x)
  {
    match x
    case Paired(ScheduleInform(_, _)) => AcceptsTwo(ItemRecord(x).children, TimedKeys(commandKey, time), 0, 1);
    case Paired(Download(t)) => TimedAcceptsTransfer(commandKey, time, x.entry);
    case Paired(Upload(t)) => TimedAcceptsTransfer(commandKey, time, x.entry);
    case DuState(_, _, _, _) => TimedAcceptsDuState(commandKey, time, x);
    case _ =>
      OthersLack(x);
      LackingRejects(x, TimedKeys(commandKey, time), 1);
  }

  lemma TimedAcceptsTransfer(commandKey: Value, time: int, e: Entry)
    requires e.Download? || e.Upload?
    ensures Accepts(RecordOf(e).children, TimedKeys(commandKey, time))
       <==> Fits(commandKey, e.transfer.commandKey) && time == e.transfer.scheduledTime
  {
    AcceptsTwo(RecordOf(e).children, TimedKeys(commandKey, time), 1, if e.Download? then 6 else 5);
  }

  lemma TimedAcceptsDuState(commandKey: Value, time: int, x: Item)
    requires x.DuState?
    ensures Accepts(ItemRecord(x).children, TimedKeys(commandKey, time))
      <==> Fits(commandKey, x.commandKey) && time == x.time
  {
    hide PartName;
    forall p: Part ensures PartName(p) != "command_key" && PartName(p) != "time" {
      PartIsNoKey(p);
    }
    AcceptsTwo(ItemRecord(x).children, TimedKeys(commandKey, time), 0, 1);
  }

  // The search for an entry other than a schedule_inform.
  lemma EntryAccepts(k: Entry, x: Item)
    requires !k.ScheduleInform?
    ensures Accepts(ItemRecord(x).children, KeysOf(k)) <==> x.Paired? && EntryFits(k, x.entry)
  {
    OthersLack(x);
    hide Accepts, Lacks, RecordOf;
    match k
    case Download(t) => TransferAccepts(k, x);
    case Upload(t) => TransferAccepts(k, x);
    case ScheduleDownload(t, u, v) =>
      if x.Paired? && x.entry.ScheduleDownload? {
        ScheduleAcceptsSchedule(t, u, v, x.entry.transfer, x.entry.first, x.entry.second);
      } else {
        LackingRejects(x, KeysOf(k), 8);
      }
    case TransferComplete(_, _, _, _, _, _) =>
      if x.Paired? && x.entry.TransferComplete? {
        CompleteAcceptsComplete(k, x.entry);
      } else {
        LackingRejects(x, KeysOf(k), 3);
      }
  }

  lemma TransferAccepts(k: Entry, x: Item)
    requires k.Download? || k.Upload?
    ensures Accepts(ItemRecord(x).children, KeysOf(k)) <==> x.Paired? && EntryFits(k, x.entry)
  {
    if x.Paired? && x.entry.Download? {
      if k.Download? { DownloadAcceptsDownload(k.transfer, x.entry.transfer); }
      else { UploadAcceptsDownload(k.transfer, x.entry.transfer); }
    } else if x.Paired? && x.entry.Upload? {
      if k.Download? { DownloadRejectsUpload(k.transfer, x.entry.transfer); }
      else { UploadAcceptsUpload(k.transfer, x.entry.transfer); }
    } else {
      OthersLack(x);
      if Lacks(x, "username") {
        LackingRejects(x, KeysOf(k), 3);
      } else {
        LackingRejects(x, KeysOf(k), |KeysOf(k)| - 1);
      }
    }
  }

  lemma ApplyAccepts(k: Apply, x: Item)
    ensures Accepts(ItemRecord(x).children, ApplyDeleteKeys(k)) <==> Takes(Applied(k), x)
  {
    if x.Applied? {
      ApplyAcceptsApply(k, x.apply);
    } else {
      OthersLack(x);
      LackingRejects(x, ApplyDeleteKeys(k), if Lacks(x, "start_time") then 0 else 3);
    }
  }

  lemma EventAccepts(id: int, x: Item)
    ensures Accepts(ItemRecord(x).children, IdKey(id)) <==> x.Event? && x.id == id
  {
    if x.Event? {
      EventAcceptsIff(x.queued, x.code, x.id, x.eventKey, x.params, id);
    } else {
      OthersLack(x);
      LackingRejects(x, IdKey(id), 0);
    }
  }

  // Which records the search for k accepts, for every kind of search and of record.
  lemma AcceptsIff(k: Item, x: Item)
    requires !k.Address?
    ensures Accepts(ItemRecord(x).children, ItemKeys(k)) <==> Takes(k, x)
  {
    hide Accepts, ItemRecord, KeysOf, TimedFits, EntryFits, ApplyDeleteKeys, IdKey, TimedKeys;
    match k
    case Paired(ScheduleInform(commandKey, time)) =>
      InformKeys(commandKey, time);
      TimedAccepts(commandKey, time, x);
    case Paired(e) => EntryAccepts(e, x);
    case Applied(a) => ApplyAccepts(a, x);
    case DuState(_, commandKey, time, _) => TimedAccepts(commandKey, time, x);
    case Event(_, _, id, _, _) => EventAccepts(id, x);
  }

  lemma InformKeys(commandKey: Value, time: int)
    ensures KeysOf(ScheduleInform(commandKey, time)) == TimedKeys(commandKey, time)
  {
  }

  // The keys that the insert of apply_schedule_download searches with are accepted nowhere.
  lemma ApplyInsertTakesNone(a: Apply, x: Item)
    ensures !Accepts(ItemRecord(x).children, ApplyInsertKeys(a))
  {
    if x.Applied? {
      ApplyNeverAccepted(x.apply, a);
    } else {
      OthersLack(x);
      LackingRejects(x, ApplyInsertKeys(a), if Lacks(x, "start_time") then 2 else 3);
    }
  }

  // ---- what a search finds in a backup of any records ----

  function Written(items: seq<Item>): (tree: seq<Record>)
    ensures |tree| == |items|
    ensures forall i :: 0 <= i < |tree| ==> tree[i] == ItemRecord(items[i])
  {
    seq(|items|, i requires 0 <= i < |items| => ItemRecord(items[i]))
  }

  function Search(items: seq<Item>, k: Item): (j: Option<nat>)
    requires !k.Address?
    ensures j.Some? ==> j.value < |items|
  {
    Found(Written(items), Name(k), ItemKeys(k))
  }

  // A record with the name of k stands at position j or before it.
  ghost predicate Reached(items: seq<Item>, k: Item, j: nat)
    requires j < |items|
  {
    exists i :: 0 <= i <= j && Name(items[i]) == Name(k)
  }

  ghost predicate TakenFirst(items: seq<Item>, k: Item, j: nat) {
    && j < |items| && Reached(items, k, j) && Takes(k, items[j])
    && forall l :: 0 <= l < j && Reached(items, k, l) ==> !Takes(k, items[l])
  }

  lemma ReachedIff(items: seq<Item>, k: Item, j: nat)
    requires j < |items|
    ensures Reached(items, k, j) <==> FirstNamed(Written(items), Name(k), 0) <= j
  {
    hide ItemRecord;
    var first := FirstNamed(Written(items), Name(k), 0);
    if first <= j {
      assert Name(items[first]) == Name(k);
    }
    if i :| 0 <= i <= j && Name(items[i]) == Name(k) {
      assert Written(items)[i].name == Name(k);
    }
  }

  // The search finds the first record behind one of its name that it takes, of whatever kind.
  lemma SearchIff(items: seq<Item>, k: Item, j: nat)
    requires !k.Address? && j < |items|
    ensures Search(items, k) == Some(j) <==> TakenFirst(items, k, j)
  {
    var tree, first := Written(items), FirstNamed(Written(items), Name(k), 0);
    forall l | 0 <= l < |items|
      ensures Reached(items, k, l) <==> first <= l
      ensures Accepts(tree[l].children, ItemKeys(k)) <==> Takes(k, items[l])
    {
      ReachedIff(items, k, l);
      AcceptsIff(k, items[l]);
    }
    hide Reached, Takes, Accepts, ItemKeys, ItemRecord, Written, Name;
    FirstAccepted(tree, ItemKeys(k), first, j);
  }

  lemma FirstAccepted(tree: seq<Record>, keys: seq<Key>, from: nat, j: nat)
    requires j < |tree|
    ensures AcceptedFrom(tree, keys, from) == Some(j) <==>
      from <= j && Accepts(tree[j].children, keys) && forall l :: from <= l < j ==> !Accepts(tree[l].children, keys)
  {
    hide Accepts;
    var found := AcceptedFrom(tree, keys, from);
    if found.Some? && from <= j && Accepts(tree[j].children, keys) {
      assert found.value <= j;
    }
  }

  // So it finds a record of another name exactly when that is the first one it takes.
  lemma TakesOtherIff(items: seq<Item>, k: Item)
    requires !k.Address?
    ensures (Search(items, k).Some? && Name(items[Search(items, k).value]) != Name(k))
       <==> exists j: nat :: TakenFirst(items, k, j) && Name(items[j]) != Name(k)
  {
    hide Reached, Takes, ItemRecord, Search;
    if Search(items, k).Some? {
      SearchIff(items, k, Search(items, k).value);
    }
    if j: nat :| TakenFirst(items, k, j) && Name(items[j]) != Name(k) {
      SearchIff(items, k, j);
    }
  }

  // The kinds whose searches take records of their own name only.
  predicate Exclusive(k: Item) {
    k.Applied? || (k.Paired? && !k.entry.ScheduleInform? && !k.entry.Upload?)
  }

  lemma ExclusiveTakes(k: Item, x: Item)
    requires Exclusive(k) && Takes(k, x)
    ensures Name(x) == Name(k)
  {
  }

  // A record that the search for k does not take, in front, and one of another name that it takes.
  lemma Rival(k: Item) returns (first: Item, x: Item)
    requires !k.Address? && !Exclusive(k)
    ensures Name(first) == Name(k) && !Takes(k, first) && Takes(k, x) && Name(x) != Name(k)
  {
    match k
    case Paired(ScheduleInform(commandKey, time)) =>
      first := Paired(ScheduleInform(commandKey, time + 1));
      x := Paired(Download(Transfer(None, commandKey, None, None, None, 0, time)));
    case Paired(Upload(t)) =>
      first := Paired(Upload(t.(scheduledTime := t.scheduledTime + 1)));
      x := Paired(Download(t));
    case DuState(_, commandKey, time, _) =>
      first := k.(time := time + 1);
      x := Paired(Download(Transfer(None, commandKey, None, None, None, 0, time)));
    case Event(queued, _, id, _, _) =>
      first := k.(id := id + 1);
      x := k.(queued := !queued);
  }

  lemma SecondTaken(first: Item, x: Item, k: Item)
    requires !k.Address? && Name(first) == Name(k) && !Takes(k, first) && Takes(k, x)
    ensures Search([first, x], k) == Some(1)
  {
    hide Takes, ItemRecord, Search;
    var items := [first, x];
    assert Name(items[0]) == Name(k);
    SearchIff(items, k, 1);
  }

  // In every backup the search for k finds a record of its own name or none, exactly when k is of
  // an exclusive kind.
  lemma FindsOwnNameIff(k: Item)
    requires !k.Address?
    ensures Exclusive(k) <==>
      forall items :: Search(items, k).Some? ==> Name(items[Search(items, k).value]) == Name(k)
  {
    hide Search, Takes, ItemRecord;
    if Exclusive(k) {
      forall items | Search(items, k).Some? ensures Name(items[Search(items, k).value]) == Name(k) {
        SearchIff(items, k, Search(items, k).value);
        ExclusiveTakes(k, items[Search(items, k).value]);
      }
    } else {
      var first, x := Rival(k);
      SecondTaken(first, x, k);
      assert [first, x][1] == x;
    }
  }

  // ---- inserts and deletes on the records as items ----

  function Without(items: seq<Item>, j: Option<nat>): seq<Item>
    requires j.Some? ==> j.value < |items|
  {
    if j.None? then items else items[..j.value] + items[j.value + 1..]
  }

  function Deleted(items: seq<Item>, k: Item): seq<Item>
    requires !k.Address?
  {
    Without(items, Search(items, k))
  }

  // The kinds whose insert and delete search with the same keys.
  predicate SameSearch(k: Item) {
    k.Paired? || k.Event?
  }

  function Inserted(items: seq<Item>, k: Item): seq<Item>
    requires SameSearch(k)
  {
    if Search(items, k).None? then items + [k] else items
  }

  lemma EditsAre(items: seq<Item>, k: Item)
    requires !k.Address?
    ensures Delete(Written(items), Name(k), ItemKeys(k)) == Written(Deleted(items, k))
    ensures SameSearch(k) ==> Insert(Written(items), ItemRecord(k), ItemKeys(k)) == Written(Inserted(items, k))
  {
    hide ItemRecord, ItemKeys;
  }

  // An insert adds no record, and the delete takes the other one's, when a record of another kind
  // is the one that the search takes: for all kinds ...
  lemma OtherRecordTaken(first: Item, x: Item, k: Item)
    requires SameSearch(k) && Name(first) == Name(k) && !Takes(k, first) && Takes(k, x)
    ensures Inserted([first, x], k) == [first, x]
    ensures Deleted([first, x], k) == [first]
  {
    hide Takes, ItemRecord, Search;
    SecondTaken(first, x, k);
  }

  // ... and for a ScheduleInform behind another one, with the CommandKey and the time of a download.
  lemma InformTakesDownload(key: Value, time: int, other: Value, otherTime: int, d: Transfer)
    requires Fits(key, d.commandKey) && time == d.scheduledTime && time != otherTime
    ensures var tree := [RecordOf(ScheduleInform(other, otherTime)), RecordOf(Download(d))];
      var inform := ScheduleInform(key, time);
      && Insert(tree, RecordOf(inform), KeysOf(inform)) == tree
      && Delete(tree, "schedule_inform", KeysOf(inform)) == [RecordOf(ScheduleInform(other, otherTime))]
  {
    var first, x, k := Paired(ScheduleInform(other, otherTime)), Paired(Download(d)), Paired(ScheduleInform(key, time));
    OtherRecordTaken(first, x, k);
    EditsAre([first, x], k);
    assert Written([first, x]) == [ItemRecord(first), ItemRecord(x)] && Written([first]) == [ItemRecord(first)];
  }

  // ---- a part of the backup on its own ----

  // The records with names in 'names'.
  function Only(items: seq<Item>, names: set<string>): seq<Item> {
    if items == [] then []
    else (if Name(items[0]) in names then [items[0]] else []) + Only(items[1..], names)
  }

  // The search as one pass; 'started' says that a record of the name has been passed.
  function Pass(items: seq<Item>, k: Item, started: bool): (j: Option<nat>)
    ensures j.Some? ==> j.value < |items|
    decreases |items|
  {
    if items == [] then None else
      var s := started || Name(items[0]) == Name(k);
      if s && Takes(k, items[0]) then Some(0) else Next(Pass(items[1..], k, s))
  }

  function Next(j: Option<nat>): Option<nat> {
    if j.None? then None else Some(j.value + 1)
  }

  lemma {:induction false} PassMeans(items: seq<Item>, k: Item, started: bool)
    ensures var j := Pass(items, k, started);
      && (j.Some? ==> Takes(k, items[j.value]) && (started || Reached(items, k, j.value)))
      && forall l :: 0 <= l < (if j.Some? then j.value else |items|) && (started || Reached(items, k, l)) ==>
           !Takes(k, items[l])
    decreases |items|
  {
    hide Takes, Name;
    if items != [] {
      var s, rest := started || Name(items[0]) == Name(k), items[1..];
      PassMeans(rest, k, s);
      forall l | 0 < l < |items| ensures started || Reached(items, k, l) <==> s || Reached(rest, k, l - 1) {
        ReachedNext(items, k, l);
      }
      assert Reached(items, k, 0) <==> Name(items[0]) == Name(k);
    }
  }

  lemma ReachedNext(items: seq<Item>, k: Item, l: nat)
    requires 0 < l < |items|
    ensures Reached(items, k, l) <==> Name(items[0]) == Name(k) || Reached(items[1..], k, l - 1)
  {
    hide Name;
    if i :| 0 <= i <= l && Name(items[i]) == Name(k) {
      assert i > 0 ==> items[1..][i - 1] == items[i];
    }
    if i :| 0 <= i <= l - 1 && Name(items[1..][i]) == Name(k) {
      assert items[i + 1] == items[1..][i];
    }
  }

  lemma SearchIsPass(items: seq<Item>, k: Item)
    requires !k.Address?
    ensures Search(items, k) == Pass(items, k, false)
  {
    hide Takes, Name, Search, Pass, Reached;
    PassMeans(items, k, false);
    if Search(items, k).Some? {
      SearchIff(items, k, Search(items, k).value);
    }
    if Pass(items, k, false).Some? {
      SearchIff(items, k, Pass(items, k, false).value);
    }
  }

  lemma OnlyFront(x: Item, rest: seq<Item>, names: set<string>)
    ensures Only([x] + rest, names) == (if Name(x) in names then [x] else []) + Only(rest, names)
  {
    assert ([x] + rest)[1..] == rest;
  }

  lemma WithoutFront(items: seq<Item>, k: Item, started: bool)
    requires items != []
    ensures var s := started || Name(items[0]) == Name(k);
      Without(items, Pass(items, k, started))
        == if s && Takes(k, items[0]) then items[1..] else [items[0]] + Without(items[1..], Pass(items[1..], k, s))
  {
    hide Takes, Name, Without;
    var s := started || Name(items[0]) == Name(k);
    assert items == [items[0]] + items[1..];
    WithoutFirst(items[0], items[1..]);
    WithoutNext(items[0], items[1..], Pass(items[1..], k, s));
  }

  lemma WithoutFirst(x: Item, rest: seq<Item>)
    ensures Without([x] + rest, Some(0)) == rest
  {
    assert ([x] + rest)[1..] == rest;
  }

  lemma WithoutNext(x: Item, rest: seq<Item>, j: Option<nat>)
    requires j.Some? ==> j.value < |rest|
    ensures Without([x] + rest, Next(j)) == [x] + Without(rest, j)
  {
    if j.Some? {
      assert ([x] + rest)[..j.value + 1] == [x] + rest[..j.value];
      assert ([x] + rest)[j.value + 2..] == rest[j.value + 1..];
    }
  }

  // A search that takes records of these names only sees nothing of the others.
  lemma {:induction false} PassWithin(items: seq<Item>, k: Item, started: bool, names: set<string>)
    requires Name(k) in names && forall x :: Takes(k, x) ==> Name(x) in names
    ensures Pass(items, k, started).None? <==> Pass(Only(items, names), k, started).None?
    ensures Only(Without(items, Pass(items, k, started)), names)
         == Without(Only(items, names), Pass(Only(items, names), k, started))
    decreases |items|
  {
    hide Takes, Name, Without;
    if items == [] {
      assert Only([], names) == [];
      assert Without([], None) == [] by { NothingWithout(); }
    } else {
      var x, rest := items[0], items[1..];
      var s := started || Name(x) == Name(k);
      PassWithin(rest, k, s, names);
      WithoutFront(items, k, started);
      OnlyFront(x, Without(rest, Pass(rest, k, s)), names);
      if Name(x) in names {
        var only := Only(items, names);
        assert only == [x] + Only(rest, names) && only[1..] == Only(rest, names);
        WithoutFront(only, k, started);
      } else {
        assert Only(items, names) == Only(rest, names) && !Takes(k, x) && s == started;
      }
    }
  }

  lemma NothingWithout()
    ensures Without([], None) == []
  {
  }

  // One that finds nothing of these names leaves them as they are.
  lemma {:induction false} PassOutside(items: seq<Item>, k: Item, started: bool, names: set<string>)
    ensures var j := Pass(items, k, started);
      Only(Without(items, j), names) == Only(items, names) <==> (j.Some? ==> Name(items[j.value]) !in names)
    decreases |items|
  {
    hide Takes, Name, Without, Only;
    if items == [] {
      NothingWithout();
    } else {
      var x, rest := items[0], items[1..];
      var s := started || Name(x) == Name(k);
      assert items == [x] + rest;
      WithoutFront(items, k, started);
      OnlyFront(x, rest, names);
      if s && Takes(k, x) {
        SameFront(x, Only(rest, names), Only(rest, names));
      } else {
        var kept := Without(rest, Pass(rest, k, s));
        PassOutside(rest, k, s, names);
        OnlyFront(x, kept, names);
        SameFront(x, Only(kept, names), Only(rest, names));
      }
    }
  }

  lemma SameFront(x: Item, a: seq<Item>, b: seq<Item>)
    ensures [x] + a == [x] + b <==> a == b
    ensures [] + a == a && [x] + a != a
  {
    assert ([x] + a)[1..] == a && ([x] + b)[1..] == b;
    assert |[x] + a| != |a|;
  }

  // An edit for k, seen on the records of these names: the same edit when k is one of them and
  // takes none but these, and no edit exactly when what it finds is none of them.
  lemma EditsOnly(items: seq<Item>, k: Item, names: set<string>)
    requires !k.Address?
    ensures Name(k) in names && (forall x :: Takes(k, x) ==> Name(x) in names) ==>
              && Only(Deleted(items, k), names) == Deleted(Only(items, names), k)
              && (SameSearch(k) ==> Only(Inserted(items, k), names) == Inserted(Only(items, names), k))
    ensures Only(Deleted(items, k), names) == Only(items, names)
       <==> (Search(items, k).Some? ==> Name(items[Search(items, k).value]) !in names)
    ensures SameSearch(k) && Name(k) !in names ==> Only(Inserted(items, k), names) == Only(items, names)
  {
    hide Takes, Name, Search, Pass, Only;
    SearchIsPass(items, k);
    SearchIsPass(Only(items, names), k);
    PassOutside(items, k, false, names);
    if Name(k) in names && forall x :: Takes(k, x) ==> Name(x) in names {
      PassWithin(items, k, false, names);
    }
    OnlyAppend(items, k, names);
  }

  lemma {:induction false} OnlyAppend(items: seq<Item>, k: Item, names: set<string>)
    ensures Only(items + [k], names) == Only(items, names) + if Name(k) in names then [k] else []
  {
    hide Name, Only;
    if items == [] {
      OnlyNone(names);
      OnlyFront(k, [], names);
      assert [] + [k] == [k] + [];
    } else {
      var x, rest := items[0], items[1..];
      OnlyAppend(rest, k, names);
      OnlyFront(x, rest, names);
      OnlyFront(x, rest + [k], names);
      assert items == [x] + rest && items + [k] == [x] + (rest + [k]);
    }
  }

  lemma OnlyNone(names: set<string>)
    ensures Only([], names) == []
  {
  }

  const EVENTS := {"queue_event", "send_event"}
  const TRANSFERS := {"download", "upload"}

  // The event records change by the edits for events only, and as if no other record were there.
  lemma EventsAlone(items: seq<Item>, k: Item)
    requires !k.Address?
    ensures Only(Deleted(items, k), EVENTS) == if k.Event? then Deleted(Only(items, EVENTS), k) else Only(items, EVENTS)
    ensures SameSearch(k) ==>
      Only(Inserted(items, k), EVENTS) == if k.Event? then Inserted(Only(items, EVENTS), k) else Only(items, EVENTS)
  {
    forall x | Takes(k, x) ensures Name(x) in EVENTS <==> k.Event? {
      TakenEvents(k, x);
    }
    NamesOfEvents(k);
    hide Takes, Name, Search, Only;
    EditsOnly(items, k, EVENTS);
    if Search(items, k).Some? {
      SearchIff(items, k, Search(items, k).value);
    }
  }

  lemma NamesOfEvents(x: Item)
    ensures Name(x) in EVENTS <==> x.Event?
  {
  }

  lemma TakenEvents(k: Item, x: Item)
    requires Takes(k, x)
    ensures Name(x) in EVENTS <==> k.Event?
  {
    NamesOfEvents(x);
  }

  // So do the records of downloads and uploads, but for a schedule_inform, a change_du_state or a
  // du_state_change_complete whose search finds one of them.
  lemma TransfersAlone(items: seq<Item>, k: Item)
    requires !k.Address?
    ensures var transfer := Name(k) in TRANSFERS;
      && (transfer ==> Only(Deleted(items, k), TRANSFERS) == Deleted(Only(items, TRANSFERS), k))
      && (SameSearch(k) ==>
            Only(Inserted(items, k), TRANSFERS)
              == if transfer then Inserted(Only(items, TRANSFERS), k) else Only(items, TRANSFERS))
      && (!transfer ==>
            (Only(Deleted(items, k), TRANSFERS) != Only(items, TRANSFERS)
             <==> Timed(k) && Search(items, k).Some? && Name(items[Search(items, k).value]) in TRANSFERS))
  {
    forall x | Takes(k, x)
      ensures Name(k) in TRANSFERS ==> Name(x) in TRANSFERS
      ensures Name(k) !in TRANSFERS && !Timed(k) ==> Name(x) !in TRANSFERS
    {
      TakenTransfers(k, x);
    }
    hide Takes, Name, Search, Only;
    EditsOnly(items, k, TRANSFERS);
    if Search(items, k).Some? {
      SearchIff(items, k, Search(items, k).value);
    }
  }

  predicate Timed(k: Item) {
    k.DuState? || (k.Paired? && k.entry.ScheduleInform?)
  }

  lemma NamesOfTransfers(x: Item)
    ensures Name(x) in TRANSFERS <==> x.Paired? && (x.entry.Download? || x.entry.Upload?)
  {
  }

  lemma TakenTransfers(k: Item, x: Item)
    requires Takes(k, x)
    ensures Name(k) in TRANSFERS ==> Name(x) in TRANSFERS
    ensures Name(k) !in TRANSFERS && !Timed(k) ==> Name(x) !in TRANSFERS
  {
    NamesOfTransfers(k);
    NamesOfTransfers(x);
    hide Name;
  }
}
