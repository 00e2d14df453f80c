/** The notification attributes of dm/dmcwmp.c: seven UCI lists of names, pruned so that a name
    is listed only where its value differs from the object around it. The reference is the
    plain history of settings, of which the last one that covers a name decides. */
module Notifications {

  const DMROOT := "InternetGatewayDevice."

  predicate OccursAt(s: string, t: string, i: int) {
    0 <= i <= |s| - |t| && s[i..i + |t|] == t
  }

  // strstr(s, t) != NULL
  predicate Contains(s: string, t: string) {
    exists i :: 0 <= i <= |s| && OccursAt(s, t, i)
  }

  // A name of the data model: the root stands at position 0 and nowhere else.
  predicate IsName(n: string) {
    && DMROOT <= n
    && forall i :: 0 < i <= |n| ==> !OccursAt(n, DMROOT, i)
  }

  // On names, the substring tests of the source are prefix tests.
  lemma ContainsIsPrefix(s: string, t: string)
    requires IsName(s) && IsName(t)
    ensures Contains(s, t) <==> t <= s
  {
    if t <= s {
      assert OccursAt(s, t, 0);
    }
    if Contains(s, t) {
      var i :| 0 <= i <= |s| && OccursAt(s, t, i);
      assert s[i..i + |DMROOT|] == s[i..i + |t|][..|DMROOT|] == DMROOT;
      assert OccursAt(s, DMROOT, i);
      assert i == 0;
    }
  }

  predicate IsObject(n: string) {
    n != "" && n[|n| - 1] == '.'
  }

  // ---- the reference: the history of settings ----

  datatype Setting = Setting(target: string, value: nat)

  predicate Covers(target: string, q: string) {
    target == q || (IsObject(target) && target <= q)
  }

  // The value of the last setting that covers q; 0, "off", when there is none.
  function LastSetting(history: seq<Setting>, q: string): nat {
    if history == [] then 0 else
      var last := history[|history| - 1];
      if Covers(last.target, q) then last.value else LastSetting(history[..|history| - 1], q)
  }

  // ---- the store as a map from listed name to list number ----

  type Index = map<string, nat>

  // The value of the nearest listed object among the first k characters' prefixes of q.
  function Inherited(m: Index, q: string, k: nat): nat
    requires k <= |q|
  {
    if k == 0 then 0
    else if q[k - 1] == '.' && q[..k] in m then m[q[..k]]
    else Inherited(m, q, k - 1)
  }

  function Lookup(m: Index, q: string): nat {
    if q in m then m[q] else Inherited(m, q, |q|)
  }

  function Removed(m: Index, p: string): Index {
    if IsObject(p) then map n | n in m && !(p <= n) :: m[n] else map n | n in m && n != p :: m[n]
  }

  function Write(m: Index, p: string, v: nat): Index {
    var rest := Removed(m, p);
    if Lookup(rest, p) == v then rest else rest[p := v]
  }

  function Run(history: seq<Setting>): Index {
    if history == [] then map[] else
      var last := history[|history| - 1];
      Write(Run(history[..|history| - 1]), last.target, last.value)
  }

  // Two stores that agree on the object prefixes of q give q the same inherited value.
  lemma {:induction false} SameInherited(m: Index, m': Index, q: string, k: nat)
    requires k <= |q|
    requires forall j :: 0 < j <= k && q[j - 1] == '.' ==>
               (q[..j] in m <==> q[..j] in m') && (q[..j] in m ==> m[q[..j]] == m'[q[..j]])
    ensures Inherited(m, q, k) == Inherited(m', q, k)
  {
    if k > 0 {
      SameInherited(m, m', q, k - 1);
    }
  }

  // Nothing listed between length j and length k: the search goes down to j.
  lemma {:induction false} SkipInherited(m: Index, q: string, j: nat, k: nat)
    requires j <= k <= |q|
    requires forall i :: j < i <= k && q[i - 1] == '.' ==> q[..i] !in m
    ensures Inherited(m, q, k) == Inherited(m, q, j)
    decreases k
  {
    if j < k {
      SkipInherited(m, q, j, k - 1);
    }
  }

  lemma {:induction false} InheritedOfPrefix(m: Index, p: string, q: string, k: nat)
    requires k <= |p| && p <= q
    ensures Inherited(m, q, k) == Inherited(m, p, k)
  {
    if k > 0 {
      InheritedOfPrefix(m, p, q, k - 1);
      assert q[..k] == p[..k];
    }
  }

  // One setting changes the value of exactly the names it covers.
  lemma WriteLookup(m: Index, p: string, v: nat, q: string)
    requires p != ""
    ensures Lookup(Write(m, p, v), q) == if Covers(p, q) then v else Lookup(m, q)
  {
    var rest, w := Removed(m, p), Write(m, p, v);
    if p == q {
    } else if Covers(p, q) {
      assert q !in w;
      forall i | |p| < i <= |q| ensures q[..i] !in w {
        assert p <= q[..i];
      }
      SkipInherited(w, q, |p|, |q|);
      assert q[..|p|] == p && q[|p| - 1] == '.';
      InheritedOfPrefix(w, p, q, |p|);
    } else {
      forall j | 0 < j <= |q| && q[j - 1] == '.'
        ensures (q[..j] in m <==> q[..j] in w) && (q[..j] in m ==> m[q[..j]] == w[q[..j]])
      {
        assert q[..j][|q[..j]| - 1] == '.';
        assert q[..j] != p;
        assert q[..j] <= q;
      }
      SameInherited(m, w, q, |q|);
    }
  }

  // The pruned store answers every query as the history does.
  lemma {:induction false} StoreRefinesHistory(history: seq<Setting>, q: string)
    requires forall s :: s in history ==> s.target != ""
    ensures Lookup(Run(history), q) == LastSetting(history, q)
  {
    if history == [] {
      SkipInherited(map[], q, 0, |q|);
    } else {
      var before, last := history[..|history| - 1], history[|history| - 1];
      StoreRefinesHistory(before, q);
      WriteLookup(Run(before), last.target, last.value, q);
    }
  }

  // ---- the store is canonical ----

  // No listed name repeats the value it would inherit.
  ghost predicate Canonical(m: Index) {
    forall n :: n in m ==> n != "" && m[n] != Inherited(m, n, |n| - 1)
  }

  lemma WriteKeepsCanonical(m: Index, p: string, v: nat)
    requires Canonical(m) && p != ""
    ensures Canonical(Write(m, p, v))
  {
    var w := Write(m, p, v);
    forall n | n in w ensures n != "" && w[n] != Inherited(w, n, |n| - 1) {
      hide Inherited;
      if n == p {
        WrittenDiffers(m, p, v);
      } else {
        assert n in m && w[n] == m[n];
        KeptInherits(m, p, v, n);
      }
    }
  }

  // The setting is listed only where it differs.
  lemma WrittenDiffers(m: Index, p: string, v: nat)
    requires p != "" && p in Write(m, p, v)
    ensures var w := Write(m, p, v); w[p] != Inherited(w, p, |p| - 1)
  {
    var rest, w := Removed(m, p), Write(m, p, v);
    NotRemoved(m, p);
    assert w == rest[p := v];
    assert p[..|p|] == p;
    SkipInherited(rest, p, |p| - 1, |p|);
    SameInherited(rest, w, p, |p| - 1);
  }

  lemma NotRemoved(m: Index, p: string)
    ensures p !in Removed(m, p)
  {
  }

  // Any other name that stays listed inherits what it did.
  lemma KeptInherits(m: Index, p: string, v: nat, n: string)
    requires p != "" && n != p && n != "" && n in Write(m, p, v)
    ensures Inherited(Write(m, p, v), n, |n| - 1) == Inherited(m, n, |n| - 1)
  {
    var w := Write(m, p, v);
    forall j | 0 < j <= |n| - 1 && n[j - 1] == '.'
      ensures (n[..j] in m <==> n[..j] in w) && (n[..j] in m ==> m[n[..j]] == w[n[..j]])
    {
      hide Inherited;
      assert n[..j][|n[..j]| - 1] == '.' && n[..j] <= n;
    }
    SameInherited(m, w, n, |n| - 1);
  }

  lemma {:induction false} ReachableIsCanonical(history: seq<Setting>)
    requires forall s :: s in history ==> s.target != ""
    ensures Canonical(Run(history))
  {
    if history != [] {
      var before, last := history[..|history| - 1], history[|history| - 1];
      ReachableIsCanonical(before);
      WriteKeepsCanonical(Run(before), last.target, last.value);
    }
  }

  // The object directly around n: its longest proper prefix that ends in a dot; "" for none.
  function Parent(n: string, k: nat): (p: string)
    requires k <= |n|
    ensures |p| <= k && p <= n && (p != "" ==> IsObject(p))
    ensures forall j :: |p| <= j < k ==> n[j] != '.'
  {
    if k == 0 then "" else if n[k - 1] == '.' then n[..k] else Parent(n, k - 1)
  }

  function ValueAround(m: Index, n: string): nat
    requires n != ""
  {
    var p := Parent(n, |n| - 1);
    if p == "" then 0 else Lookup(m, p)
  }

  // What a name inherits is the value of the object around it.
  lemma InheritsAround(m: Index, n: string)
    requires n != ""
    ensures Inherited(m, n, |n| - 1) == ValueAround(m, n)
  {
    var p := Parent(n, |n| - 1);
    SkipInherited(m, n, |p|, |n| - 1);
    InheritedOfPrefix(m, p, n, |p|);
    if p != "" && p in m {
      assert p[..|p|] == p;
    }
  }

  // A name is listed exactly when its value differs from that of the object around it.
  lemma ListedIff(m: Index, n: string)
    requires Canonical(m) && n != ""
    ensures n in m <==> Lookup(m, n) != ValueAround(m, n)
  {
    InheritsAround(m, n);
    assert n in m ==> m[n] != Inherited(m, n, |n| - 1);
    hide Canonical, ValueAround, Inherited;
    if n !in m {
      assert forall i :: |n| - 1 < i <= |n| ==> n[..i] == n;
      SkipInherited(m, n, |n| - 1, |n|);
    }
  }

  // So the lookup function determines the store.
  lemma LookupDeterminesStore(m: Index, m': Index)
    requires Canonical(m) && Canonical(m')
    requires forall q :: Lookup(m, q) == Lookup(m', q)
    ensures m == m'
  {
    forall n | n in m || n in m' ensures n in m && n in m' && m[n] == m'[n] {
      ListedIff(m, n);
      ListedIff(m', n);
      assert Lookup(m, n) == Lookup(m', n);
      var p := Parent(n, |n| - 1);
      assert Lookup(m, p) == Lookup(m', p);
    }
  }

  // ---- the lists as the source keeps them ----

  const LISTS := 7   // disabled, passive, active, and the four lightweight ones

  ghost predicate Represents(lists: seq<seq<string>>, m: Index) {
    && |lists| == LISTS
    && (forall n :: n in m ==> m[n] < LISTS && n in lists[m[n]])
    && (forall n :: n in m ==> IsName(n))
    && (forall i :: 0 <= i < LISTS ==> Distinct(lists[i]))
    && (forall i, n :: 0 <= i < LISTS && n in lists[i] ==> n in m && m[n] == i)
  }

  ghost predicate Distinct(list: seq<string>) {
    forall i, j :: 0 <= i < j < |list| ==> list[i] != list[j]
  }

  // n is not an object around q, or one whose name is no longer than len.
  ghost predicate Within(n: string, q: string, len: nat) {
    IsObject(n) && n <= q ==> |n| <= len
  }

  // b is the nearest listed object around q, "" when there is none.
  ghost predicate IsNearest(m: Index, q: string, b: string) {
    && (b != "" ==> b in m && IsObject(b) && b <= q)
    && (forall n :: n in m ==> Within(n, q, |b|))
  }

  lemma NearestDecides(m: Index, q: string, b: string)
    requires IsNearest(m, q, b)
    ensures Inherited(m, q, |q|) == if b == "" then 0 else m[b]
  {
    forall i | |b| < i <= |q| && q[i - 1] == '.' ensures q[..i] !in m {
      assert IsObject(q[..i]) && q[..i] <= q;
    }
    SkipInherited(m, q, |b|, |q|);
    assert q[..|b|] == b;
  }

  // Removing p removes n.
  predicate Drops(p: string, n: string) {
    if IsObject(p) then p <= n else p == n
  }

  function Kept(list: seq<string>, p: string): seq<string> {
    if list == [] then []
    else if Drops(p, list[0]) then Kept(list[1..], p)
    else [list[0]] + Kept(list[1..], p)
  }

  lemma {:induction false} KeptMembers(list: seq<string>, p: string)
    ensures forall n :: n in Kept(list, p) <==> n in list && !Drops(p, n)
    ensures Distinct(list) ==> Distinct(Kept(list, p))
  {
    if list != [] {
      KeptMembers(list[1..], p);
      assert list == [list[0]] + list[1..];
    }
  }

  lemma RemovedMeans(m: Index, p: string)
    ensures forall n :: n in Removed(m, p) <==> n in m && !Drops(p, n)
    ensures forall n :: n in Removed(m, p) ==> Removed(m, p)[n] == m[n]
  {
  }

  lemma KeptRepresents(before: seq<seq<string>>, after: seq<seq<string>>, m: Index, p: string)
    requires Represents(before, m) && |after| == LISTS
    requires forall j :: 0 <= j < LISTS ==> after[j] == Kept(before[j], p)
    ensures Represents(after, Removed(m, p))
  {
    hide Kept, Removed, Drops, IsName, Distinct;
    RemovedMeans(m, p);
    forall j | 0 <= j < LISTS
      ensures Distinct(after[j]) && forall n :: n in after[j] <==> n in before[j] && !Drops(p, n)
    {
      KeptMembers(before[j], p);
    }
  }

  // An inherited value that no object of the lists 1 to 6 gives is 0.
  lemma {:induction false} NoneAround(m: Index, q: string, k: nat)
    requires k <= |q|
    requires forall n :: n in m && m[n] != 0 ==> !(IsObject(n) && n <= q)
    ensures Inherited(m, q, k) == 0
  {
    if k > 0 {
      assert q[..k] <= q;
      NoneAround(m, q, k - 1);
    }
  }

  class NotificationStore {
    var present: bool              // the UCI section exists
    var lists: seq<seq<string>>
    ghost var history: seq<Setting>

    ghost function Names(): Index
      reads this
    {
      Run(history)
    }

    ghost predicate Listed(m: Index)
      reads this
    {
      Represents(lists, m)
    }

    ghost predicate Valid()
      reads this
    {
      && (forall s :: s in history ==> s.target != "")
      && Listed(Run(history))
      && (!present ==> history == [])
    }

    constructor ()
      ensures Valid() && history == []
    {
      present, history := false, [];
      lists := [[], [], [], [], [], [], []];
    }

    // One list of get_parameter_notification: an exact match, or a longer object prefix.
    method ScanList(list: seq<string>, i: nat, param: string, maxlen0: nat, notification0: nat)
      returns (exact: bool, maxlen: nat, notification: nat, ghost best: string)
      requires IsName(param) && forall n :: n in list ==> IsName(n)
      ensures exact <==> param in list
      ensures !exact ==> maxlen0 <= maxlen && forall n :: n in list ==> Within(n, param, maxlen)
      ensures !exact && maxlen == maxlen0 ==> notification == notification0
      ensures !exact && maxlen != maxlen0 ==>
        notification == i && |best| == maxlen && best in list && IsObject(best) && best <= param
    {
      exact, maxlen, notification, best := false, maxlen0, notification0, "";
      for k := 0 to |list|
        invariant maxlen0 <= maxlen && param !in list[..k]
        invariant forall n :: n in list[..k] ==> Within(n, param, maxlen)
        invariant maxlen == maxlen0 ==> notification == notification0
        invariant maxlen != maxlen0 ==>
                    notification == i && |best| == maxlen && best in list && IsObject(best) && best <= param
      {
        var pch := list[k];
        if pch == param {
          exact := true;
          return;
        }
        ContainsIsPrefix(param, pch);
        if IsObject(pch) && Contains(param, pch) && |pch| > maxlen {
          notification, maxlen, best := i, |pch|, pch;
        }
        assert list[..k + 1] == list[..k] + [pch] && Within(pch, param, maxlen);
      }
    }

    // The outer loop of get_parameter_notification, from the last list to the first.
    method Find(param: string, ghost m: Index) returns (notification: nat)
      requires Listed(m) && IsName(param)
      ensures notification == Lookup(m, param)
    {
      var maxlen, i := 0, LISTS;
      ghost var best := "";
      notification := 0;
      while i > 0
        invariant 0 <= i <= LISTS && maxlen == |best|
        invariant best != "" ==> best in m && IsObject(best) && best <= param && notification == m[best]
        invariant best == "" ==> notification == 0
        invariant forall n :: n in m && m[n] >= i ==> n != param && Within(n, param, maxlen)
      {
        i := i - 1;
        var exact, maxlen', notification', longer := ScanList(lists[i], i, param, maxlen, notification);
        if exact {
          return i;
        }
        if maxlen' != maxlen {
          best := longer;
        }
        maxlen, notification := maxlen', notification';
      }
      NearestDecides(m, param, best);
    }

    // get_parameter_notification
    method Get(param: string) returns (notification: nat)
      requires Valid() && IsName(param)
      ensures notification == LastSetting(history, param)
    {
      notification := Find(param, Run(history));
      StoreRefinesHistory(history, param);
    }

    // dmuci_del_list_value and the removal loop over one list.
    method DeleteFrom(list: seq<string>, param: string) returns (kept: seq<string>)
      requires IsName(param) && forall n :: n in list ==> IsName(n)
      ensures kept == Kept(list, param)
    {
      kept := [];
      for k := 0 to |list|
        invariant kept + Kept(list[k..], param) == Kept(list, param)
      {
        ContainsIsPrefix(list[k], param);
        var drop := if IsObject(param) then Contains(list[k], param) else list[k] == param;
        assert list[k..][0] == list[k] && list[k..][1..] == list[k + 1..];
        if !drop {
          kept := kept + [list[k]];
        }
      }
      assert list[|list|..] == [];
    }

    // remove_parameter_notification: an object takes everything below it along.
    method Remove(param: string, ghost m: Index)
      requires Listed(m) && IsName(param)
      modifies this`lists
      ensures Listed(Removed(m, param))
    {
      ghost var before := lists;
      var i := LISTS;
      while i > 0
        invariant 0 <= i <= LISTS && |lists| == LISTS
        invariant forall j :: 0 <= j < i ==> lists[j] == before[j]
        invariant forall j :: i <= j < LISTS ==> lists[j] == Kept(before[j], param)
      {
        i := i - 1;
        var kept := DeleteFrom(lists[i], param);
        lists := lists[i := kept];
      }
      KeptRepresents(before, lists, m, param);
    }

    // dmuci_add_list_value, for a name that is not listed yet.
    method Add(i: nat, param: string, ghost m: Index)
      requires Listed(m) && IsName(param) && param !in m && i < LISTS
      modifies this`lists
      ensures Listed(m[param := i])
    {
      lists := lists[i := lists[i] + [param]];
    }

    // The search of set_parameter_notification for an object around param in one list.
    method AnyAround(list: seq<string>, param: string) returns (found: bool)
      requires IsName(param) && forall n :: n in list ==> IsName(n)
      ensures found <==> exists n :: n in list && IsObject(n) && n <= param
    {
      for k := 0 to |list|
        invariant forall j :: 0 <= j < k ==> !(IsObject(list[j]) && list[j] <= param)
      {
        ContainsIsPrefix(param, list[k]);
        if IsObject(list[k]) && Contains(param, list[k]) {
          return true;
        }
      }
      return false;
    }

    // ... and in the lists 6 down to 1.
    method EnabledAround(param: string, ghost m: Index) returns (found: bool)
      requires Listed(m) && IsName(param)
      ensures !found ==> forall n :: n in m && m[n] != 0 ==> !(IsObject(n) && n <= param)
    {
      var i := LISTS - 1;
      found := false;
      while i >= 1 && !found
        invariant 0 <= i < LISTS
        invariant !found ==> forall n :: n in m && m[n] > i ==> !(IsObject(n) && n <= param)
      {
        found := AnyAround(lists[i], param);
        i := i - 1;
      }
    }

    // set_parameter_notification; false for a value the source does not know.
    method Set(param: string, value: nat) returns (ok: bool)
      requires Valid() && IsName(param)
      modifies this
      ensures ok <==> value < LISTS
      ensures ok ==> Valid() && history == old(history) + [Setting(param, value)]
      ensures !ok ==> history == old(history) && Listed(Removed(Run(history), param))
    {
      ghost var m := Run(history);
      ghost var rest := Removed(m, param);
      if !present {
        present := true;
        assert rest == m == map[];
      } else {
        Remove(param, m);
      }
      var notification := Find(param, rest);
      if notification != value {
        if 1 <= value < LISTS {
          Add(value, param, rest);
        } else if value == 0 {
          var found := EnabledAround(param, rest);
          if found {
            Add(0, param, rest);
          } else {
            NoneAround(rest, param, |param|);
          }
        } else {
          return false;
        }
      }
      ok := value < LISTS;
      if ok {
        history := history + [Setting(param, value)];
        assert history[..|history| - 1] == old(history);
      }
    }
  }
}
