/** The walk over the data model: the macros IF_MATCH, DMOBJECT, DMPARAM and SUBENTRY of
    dm/dmcwmp.h, and the GetParameterValues and GetParameterNames of dm/dmcwmp.c on it. The
    sub-entry functions of the tree are data here: what they announce, in order. The pruned walk
    is a function; DataModelWalk.dfy has the source's own form of it. */
module DataModel {
  import opened Notifications
  import opened ParamList
  import opened Options
  import HeaderFields

  const FAULT_9003 := 9003
  const FAULT_9005 := 9005

  // One macro call in the body of an entry function. A parameter's value is what its getter
  // returns; hasSet tells whether it has a set_cmd.
  datatype Item =
    | DmObject(name: string, permission: string)
    | DmParam(lastname: string, permission: string, value: string, kind: string, hasSet: bool)
    | SubEntry(entry: Entry)

  // An entry function: its IF_MATCH prefix and its body.
  datatype Entry = Entry(prefix: string, items: seq<Item>)

  // prefix_methods: the entry of the root, the other enabled ones, and all the prefix names.
  datatype Tree = Tree(root: Entry, tops: seq<Entry>, prefixes: seq<string>)

  // ---- the full enumeration ----

  datatype Visit = Visit(isObject: bool, name: string, permission: string, value: string, kind: string, hasSet: bool)

  function ParamVisit(obj: string, item: Item): Visit
    requires item.DmParam?
  {
    Visit(false, obj + item.lastname, item.permission, item.value, item.kind, item.hasSet)
  }

  function ObjectVisit(item: Item): Visit
    requires item.DmObject?
  {
    Visit(true, item.name, item.permission, "", "", false)
  }

  // Every object and parameter from item k on, in order; obj is the object announced last.
  function Listing(e: Entry, k: nat, obj: string): seq<Visit>
    decreases e, |e.items| - k
  {
    if k >= |e.items| then [] else
      match e.items[k]
      case DmObject(name, _) => [ObjectVisit(e.items[k])] + Listing(e, k + 1, name)
      case DmParam(_, _, _, _, _) => [ParamVisit(obj, e.items[k])] + Listing(e, k + 1, obj)
      case SubEntry(sub) => Listing(sub, 0, "") + Listing(e, k + 1, "")
  }

  function TopListing(tops: seq<Entry>): seq<Visit> {
    if tops == [] then [] else Listing(tops[0], 0, "") + TopListing(tops[1..])
  }

  function All(t: Tree): seq<Visit> {
    Listing(t.root, 0, "") + TopListing(t.tops)
  }

  // ---- what makes a tree well formed ----

  predicate IsObjectName(n: string) {
    IsName(n) && IsObject(n)
  }

  // Objects and sub-entries lie under the prefix; a parameter follows an object of its own
  // entry; its last name has no dot.
  predicate WellFormed(e: Entry, k: nat, afterObject: bool)
    decreases e, |e.items| - k
  {
    k >= |e.items| ||
    match e.items[k]
    case DmObject(name, _) => e.prefix <= name && IsObjectName(name) && WellFormed(e, k + 1, true)
    case DmParam(last, _, _, _, _) => afterObject && last != "" && '.' !in last && WellFormed(e, k + 1, true)
    case SubEntry(sub) =>
      e.prefix <= sub.prefix && IsObjectName(sub.prefix) && WellFormed(sub, 0, false) && WellFormed(e, k + 1, false)
  }

  predicate WellFormedEntry(e: Entry) {
    IsObjectName(e.prefix) && WellFormed(e, 0, false)
  }

  // Directly under the root there are parameters only.
  predicate WellFormedRoot(e: Entry) {
    && e.prefix == DMROOT && WellFormed(e, 0, false)
    && forall i :: 0 <= i < |e.items| ==> e.items[i].DmParam? || (e.items[i].DmObject? && e.items[i].name == DMROOT)
  }

  // No prefix of the table lies below another entry of the table, but for the root.
  predicate WellFormedTree(t: Tree) {
    && WellFormedRoot(t.root)
    && (forall i :: 0 <= i < |t.tops| ==> WellFormedEntry(t.tops[i]) && t.tops[i].prefix != DMROOT)
    && DMROOT in t.prefixes && (forall p :: p in t.prefixes ==> IsObjectName(p))
    && (forall p, i :: p in t.prefixes && 0 <= i < |t.tops| && t.tops[i].prefix <= p ==> t.tops[i].prefix == p)
  }

  // ---- check_obj_is_nl1 ----

  // The length of s up to its ndot-th dot from the end; 0 when it has fewer.
  function UpToDot(s: string, ndot: nat): (k: nat)
    requires ndot > 0
    ensures k <= |s|
  {
    if s == "" then 0
    else if s[|s| - 1] != '.' then UpToDot(s[..|s| - 1], ndot)
    else if ndot == 1 then |s|
    else UpToDot(s[..|s| - 1], ndot - 1)
  }

  predicate IsNl1(name: string, inParam: string, ndot: nat)
    requires ndot > 0
  {
    |inParam| == UpToDot(name, ndot)
  }

  method CheckObjIsNl1(refParam: string, inParam: string, ndot: nat) returns (found: bool)
    requires ndot > 0
    ensures found == IsNl1(refParam, inParam, ndot)
  {
    var i, n := |refParam|, ndot;
    assert refParam[..i] == refParam;
    while i > 0
      invariant 0 <= i <= |refParam| && n > 0 && UpToDot(refParam[..i], n) == UpToDot(refParam, ndot)
    {
      assert refParam[..i][..i - 1] == refParam[..i - 1];
      if refParam[i - 1] == '.' {
        n := n - 1;
        if n == 0 {
          break;
        }
      }
      i := i - 1;
    }
    found := |inParam| == i;
  }

  lemma {:induction false} LastDotInside(path: string, rest: string)
    requires IsObject(path)
    ensures UpToDot(path + rest, 1) >= |path|
    ensures UpToDot(path + rest, 1) == |path| <==> '.' !in rest
    decreases |rest|
  {
    var s := path + rest;
    if rest == "" {
      assert s == path;
    } else {
      var init := rest[..|rest| - 1];
      assert s[..|s| - 1] == path + init && rest == init + [rest[|rest| - 1]];
      if rest[|rest| - 1] != '.' {
        LastDotInside(path, init);
      } else {
        assert rest[|rest| - 1] in rest;
      }
    }
  }

  // One level below an object: a parameter with no further dot ...
  lemma ParamIsChild(path: string, name: string)
    requires IsObject(path) && path <= name && !IsObject(name)
    ensures IsNl1(name, path, 1) <==> '.' !in name[|path|..]
  {
    LastDotInside(path, name[|path|..]);
    assert name == path + name[|path|..];
  }

  // ... or an object whose only dot is its last character. An object is not its own child.
  lemma ObjectIsChild(path: string, name: string)
    requires IsObject(path) && path <= name && IsObject(name)
    ensures IsNl1(name, path, 2) <==> name != path && '.' !in name[|path|..|name| - 1]
  {
    var init := name[..|name| - 1];
    assert UpToDot(name, 2) == UpToDot(init, 1);
    if name != path {
      LastDotInside(path, name[|path|..|name| - 1]);
      assert init == path + name[|path|..|name| - 1];
    }
  }

  // ---- the callbacks ----

  datatype Scope = Everything | Below | Exact

  datatype Command = Values | Names | Update

  // Which pair of callbacks is installed: what for, on what, and NextLevel.
  datatype Mode = Mode(command: Command, scope: Scope, nextLevel: bool)

  // found: the parameter at which an exact command stopped.
  datatype Ctx = Ctx(stop: bool, error: int, faultcode: int, list: seq<Param>, found: Option<Visit>)

  function ItemOf(mode: Mode, v: Visit): Param {
    if mode.command.Names? then Param(v.name, v.permission, "")
    else Param(v.name, v.value, if v.kind != "" then v.kind else "xsd:string")
  }

  predicate Lists(mode: Mode, inParam: string, v: Visit) {
    match mode.command
    case Values => !v.isObject
    case Names =>
      !mode.nextLevel ||
      (if mode.scope == Everything then v.isObject else IsNl1(v.name, inParam, if v.isObject then 2 else 1))
    case Update => false
  }

  // Whether an exact command lists the parameter it was looking for.
  predicate ListsExact(mode: Mode) {
    mode.command.Values? || (mode.command.Names? && !mode.nextLevel)
  }

  // The effect of a callback on a visit that passes its test.
  function Do(c: Ctx, mode: Mode, inParam: string, v: Visit): Ctx {
    match mode.scope
    case Everything => if Lists(mode, inParam, v) then c.(list := Insert(c.list, ItemOf(mode, v))) else c
    case Below =>
      c.(faultcode := 0, list := if Lists(mode, inParam, v) then Insert(c.list, ItemOf(mode, v)) else c.list)
    case Exact =>
      c.(stop := true, error := if mode.command.Names? && mode.nextLevel then FAULT_9003 else 0, found := Some(v),
         list := if ListsExact(mode) then Insert(c.list, ItemOf(mode, v)) else c.list)
  }

  // The test of the callback, with strstr.
  predicate Tested(mode: Mode, inParam: string, v: Visit) {
    match mode.scope
    case Everything => true
    case Below => Contains(v.name, inParam)
    case Exact => !v.isObject && v.name == inParam
  }

  // A callback.
  function Seen(c: Ctx, mode: Mode, inParam: string, v: Visit): Ctx {
    if Tested(mode, inParam, v) then Do(c, mode, inParam, v) else c
  }

  // ---- the pruned walk ----

  // ctx->tree: the path names the whole tree.
  predicate WholeTree(inParam: string) {
    inParam == "" || inParam == DMROOT
  }

  // The condition of IF_MATCH outside whole-tree mode.
  predicate Matches(inParam: string, prefix: string) {
    Contains(inParam, prefix) || (Contains(prefix, inParam) && IsObject(inParam))
  }

  // The condition of IF_MATCH_ROOT outside whole-tree mode.
  predicate RootMatches(inParam: string) {
    Contains(inParam, DMROOT) && |DMROOT| <= |inParam| && '.' !in inParam[|DMROOT|..]
  }

  // The rest of the body of an entry function; obj is current_obj, which the walk leaves behind.
  function WalkFrom(c: Ctx, obj: string, mode: Mode, inParam: string, e: Entry, k: nat): (Ctx, string)
    decreases e, |e.items| - k
  {
    if k >= |e.items| || c.stop then (c, obj) else
      match e.items[k]
      case DmObject(name, _) => WalkFrom(Seen(c, mode, inParam, ObjectVisit(e.items[k])), name, mode, inParam, e, k + 1)
      case DmParam(_, _, _, _, _) =>
        WalkFrom(Seen(c, mode, inParam, ParamVisit(obj, e.items[k])), obj, mode, inParam, e, k + 1)
      case SubEntry(sub) =>
        var r := WalkInto(c, obj, mode, inParam, sub);
        WalkFrom(r.0, r.1, mode, inParam, e, k + 1)
  }

  // An entry function: IF_MATCH and its block.
  function WalkInto(c: Ctx, obj: string, mode: Mode, inParam: string, e: Entry): (Ctx, string)
    decreases e, |e.items| + 1
  {
    if WholeTree(inParam) then WalkFrom(c, obj, mode, inParam, e, 0)
    else if Matches(inParam, e.prefix) then WalkFrom(c, e.prefix, mode, inParam, e, 0)
    else (c, e.prefix)
  }

  function WalkRoot(c: Ctx, obj: string, mode: Mode, inParam: string, root: Entry): (Ctx, string) {
    if WholeTree(inParam) || RootMatches(inParam) then WalkFrom(c, obj, mode, inParam, root, 0) else (c, obj)
  }

  function WalkTops(c: Ctx, obj: string, mode: Mode, inParam: string, tops: seq<Entry>): (Ctx, string)
    decreases |tops|
  {
    if tops == [] || c.stop then (c, obj) else
      var r := WalkInto(c, obj, mode, inParam, tops[0]);
      WalkTops(r.0, r.1, mode, inParam, tops[1..])
  }

  // The loop over prefix_methods.
  function Walk(c: Ctx, obj: string, mode: Mode, inParam: string, t: Tree): (Ctx, string) {
    var r := WalkRoot(c, obj, mode, inParam, t.root);
    WalkTops(r.0, r.1, mode, inParam, t.tops)
  }

  // ---- the reference ----

  // The test of the reference: the subtree of the path, or the one parameter.
  predicate Wanted(mode: Mode, inParam: string, v: Visit) {
    if mode.scope == Exact then !v.isObject && v.name == inParam else inParam <= v.name
  }

  function On(c: Ctx, mode: Mode, inParam: string, v: Visit): Ctx {
    if Wanted(mode, inParam, v) then Do(c, mode, inParam, v) else c
  }

  // Every visit of the full enumeration is looked at, up to a stop.
  function Fold(c: Ctx, mode: Mode, inParam: string, vs: seq<Visit>): Ctx
    decreases |vs|
  {
    if vs == [] || c.stop then c else Fold(On(c, mode, inParam, vs[0]), mode, inParam, vs[1..])
  }

  lemma {:induction false} FoldAppend(c: Ctx, mode: Mode, inParam: string, a: seq<Visit>, b: seq<Visit>)
    ensures Fold(c, mode, inParam, a + b) == Fold(Fold(c, mode, inParam, a), mode, inParam, b)
    decreases |a|
  {
    hide On;
    if a == [] {
      assert a + b == b;
    } else if !c.stop {
      assert (a + b)[1..] == a[1..] + b;
      FoldAppend(On(c, mode, inParam, a[0]), mode, inParam, a[1..], b);
    }
  }

  lemma {:induction false} FoldNothing(c: Ctx, mode: Mode, inParam: string, vs: seq<Visit>)
    requires forall v :: v in vs ==> !Wanted(mode, inParam, v)
    ensures Fold(c, mode, inParam, vs) == c
  {
    hide Wanted;
    if vs != [] && !c.stop {
      assert vs[0] in vs;
      FoldNothing(c, mode, inParam, vs[1..]);
    }
  }

  // A path that the walk reads as the reference does: a path to objects has the root in it.
  predicate Readable(mode: Mode, inParam: string) {
    match mode.scope
    case Everything => inParam == "" || IsObjectName(inParam)
    case Below => IsObject(inParam) && Contains(inParam, DMROOT)
    case Exact => inParam != "" && !IsObject(inParam)
  }

  // ---- names in a listing ----

  lemma ParamIsName(obj: string, last: string)
    requires IsObjectName(obj) && '.' !in last
    ensures IsName(obj + last)
    ensures last != "" ==> !IsObject(obj + last)
  {
    var n := obj + last;
    assert last != "" ==> last[|last| - 1] in last;
    assert DMROOT[|DMROOT| - 1] == '.';
    forall i | 0 < i <= |n| ensures !OccursAt(n, DMROOT, i) {
      if OccursAt(n, DMROOT, i) {
        OccursInside(obj, last, i);
      }
    }
  }

  lemma OccursInside(obj: string, last: string, i: nat)
    requires '.' !in last && OccursAt(obj + last, DMROOT, i)
    ensures OccursAt(obj, DMROOT, i)
  {
    var n, end := obj + last, i + |DMROOT|;
    assert n[i..end][|DMROOT| - 1] == n[end - 1] == '.';
    assert forall j :: 0 <= j < |last| ==> last[j] != '.' by {
      assert forall j :: 0 <= j < |last| ==> last[j] in last;
    }
    assert end <= |obj|;
    assert obj[i..end] == n[i..end];
  }

  lemma ListingIgnores(e: Entry, k: nat, a: string, b: string)
    requires WellFormed(e, k, false)
    ensures Listing(e, k, a) == Listing(e, k, b)
  {
  }

  // Everything an entry lists is a name under its prefix.
  lemma {:induction false} ListingUnder(e: Entry, k: nat, afterObject: bool, obj: string, v: Visit)
    requires WellFormed(e, k, afterObject) && v in Listing(e, k, obj)
    requires afterObject ==> IsObjectName(obj) && e.prefix <= obj
    ensures e.prefix <= v.name && IsName(v.name) && v.isObject == IsObject(v.name)
    decreases e, |e.items| - k
  {
    hide IsObjectName;
    match e.items[k] {
      case DmObject(name, _) =>
        ObjectNameIsName(name);
        if v != ObjectVisit(e.items[k]) {
          ListingUnder(e, k + 1, true, name, v);
        }
      case DmParam(last, _, _, _, _) =>
        ParamIsName(obj, last);
        if v != ParamVisit(obj, e.items[k]) {
          ListingUnder(e, k + 1, true, obj, v);
        }
      case SubEntry(sub) =>
        if v in Listing(sub, 0, "") {
          ListingUnder(sub, 0, false, "", v);
        } else {
          ListingUnder(e, k + 1, false, "", v);
        }
    }
  }

  lemma ObjectNameIsName(n: string)
    requires IsObjectName(n)
    ensures IsName(n) && IsObject(n)
  {
  }

  // ---- pruning ----

  // An entry that IF_MATCH skips has nothing that is wanted.
  lemma SkippedIsUnwanted(mode: Mode, inParam: string, e: Entry, v: Visit)
    requires Readable(mode, inParam) && inParam != ""
    requires WellFormedEntry(e) && !Matches(inParam, e.prefix) && v in Listing(e, 0, "")
    ensures !Wanted(mode, inParam, v)
  {
    hide Contains, IsName, Listing, WellFormed;
    ListingUnder(e, 0, false, "", v);
    if Wanted(mode, inParam, v) {
      PrefixesMeet(inParam, e.prefix, v.name);
      if e.prefix <= inParam {
        PrefixOccurs(inParam, e.prefix);
      } else {
        PrefixOccurs(e.prefix, inParam);
      }
    }
  }

  lemma PrefixOccurs(s: string, t: string)
    requires t <= s
    ensures Contains(s, t)
  {
    assert OccursAt(s, t, 0);
  }

  lemma PrefixesMeet(a: string, b: string, s: string)
    requires a <= s && b <= s
    ensures a <= b || b <= a
  {
  }

  lemma OccursWithin(s: string, t: string, u: string, i: nat, j: nat)
    requires OccursAt(s, t, i) && OccursAt(t, u, j)
    ensures OccursAt(s, u, i + j)
  {
    forall k | 0 <= k < |u| ensures s[i + j + k] == u[k] {
      assert s[i + j + k] == s[i..i + |t|][j + k] == t[j..j + |u|][k];
    }
    assert s[i + j..i + j + |u|] == u;
  }

  // The root stands in a name once, so a path that has the root in it is found in a name only
  // at the front.
  lemma RootedIsPrefix(n: string, path: string)
    requires IsName(n) && Contains(path, DMROOT)
    ensures Contains(n, path) <==> path <= n
  {
    if path <= n {
      PrefixOccurs(n, path);
    }
    if Contains(n, path) {
      var i :| 0 <= i <= |n| && OccursAt(n, path, i);
      var j :| 0 <= j <= |path| && OccursAt(path, DMROOT, j);
      OccursWithin(n, path, DMROOT, i, j);
      assert i == 0;
    }
  }

  // What the callback tests on a visited entry is what the reference wants.
  lemma TestedIsWanted(mode: Mode, inParam: string, v: Visit)
    requires Readable(mode, inParam) && IsName(v.name)
    requires mode.scope == Everything ==> inParam <= v.name
    ensures Tested(mode, inParam, v) == Wanted(mode, inParam, v)
  {
    hide Contains, IsName;
    if mode.scope == Below {
      RootedIsPrefix(v.name, inParam);
    }
  }

  // ---- the pruned walk visits in effect everything ----

  lemma ItemAt(e: Entry, k: nat, obj: string, afterObject: bool)
    requires k < |e.items| && WellFormed(e, k, afterObject)
    ensures e.items[k].DmObject? ==>
      && e.prefix <= e.items[k].name && IsObjectName(e.items[k].name) && WellFormed(e, k + 1, true)
      && Listing(e, k, obj) == [ObjectVisit(e.items[k])] + Listing(e, k + 1, e.items[k].name)
    ensures e.items[k].DmParam? ==>
      && afterObject && '.' !in e.items[k].lastname && WellFormed(e, k + 1, true)
      && Listing(e, k, obj) == [ParamVisit(obj, e.items[k])] + Listing(e, k + 1, obj)
    ensures e.items[k].SubEntry? ==>
      && e.prefix <= e.items[k].entry.prefix && WellFormedEntry(e.items[k].entry) && WellFormed(e, k + 1, false)
      && Listing(e, k, obj) == Listing(e.items[k].entry, 0, "") + Listing(e, k + 1, "")
  {
  }

  lemma ListingEnd(e: Entry, k: nat, obj: string)
    requires k >= |e.items|
    ensures Listing(e, k, obj) == []
  {
  }

  lemma FoldFront(c: Ctx, mode: Mode, inParam: string, v: Visit, vs: seq<Visit>)
    requires !c.stop
    ensures Fold(c, mode, inParam, [v] + vs) == Fold(On(c, mode, inParam, v), mode, inParam, vs)
    ensures On(c, mode, inParam, v) == if Wanted(mode, inParam, v) then Do(c, mode, inParam, v) else c
  {
    hide Do, Wanted;
    assert ([v] + vs)[1..] == vs;
  }

  lemma FoldStopped(c: Ctx, mode: Mode, inParam: string, vs: seq<Visit>)
    requires c.stop
    ensures Fold(c, mode, inParam, vs) == c
  {
  }

  // In a table query, a matched entry lies under the path.
  lemma MatchedIsUnder(mode: Mode, inParam: string, prefix: string)
    requires Readable(mode, inParam) && IsObjectName(prefix) && (WholeTree(inParam) || Matches(inParam, prefix))
    requires mode.scope == Everything && prefix <= inParam ==> prefix == inParam
    ensures mode.scope == Everything ==> inParam <= prefix
  {
    if mode.scope == Everything && !WholeTree(inParam) {
      hide Contains;
      ContainsIsPrefix(inParam, prefix);
      ContainsIsPrefix(prefix, inParam);
    }
  }

  lemma RootIsUnder(mode: Mode, inParam: string)
    requires Readable(mode, inParam) && (WholeTree(inParam) || RootMatches(inParam))
    ensures mode.scope == Everything ==> inParam <= DMROOT
  {
    if mode.scope == Everything && !WholeTree(inParam) {
      DotBehindRoot(inParam, inParam);
    }
  }

  lemma DotBehindRoot(path: string, name: string)
    requires IsObject(path) && path <= name && |DMROOT| < |path|
    ensures '.' in name[|DMROOT|..]
  {
    assert name[|DMROOT|..][|path| - 1 - |DMROOT|] == path[|path| - 1] == '.';
  }

  // The root entry lists the root and parameters directly under it.
  lemma {:induction false} RootListing(root: Entry, k: nat, afterObject: bool, obj: string, v: Visit)
    requires WellFormedRoot(root) && WellFormed(root, k, afterObject) && v in Listing(root, k, obj)
    requires afterObject ==> obj == DMROOT
    ensures DMROOT <= v.name && '.' !in v.name[|DMROOT|..] && v.isObject == (v.name == DMROOT)
    decreases |root.items| - k
  {
    hide IsObjectName;
    match root.items[k] {
      case DmObject(name, _) =>
        if v != ObjectVisit(root.items[k]) {
          RootListing(root, k + 1, true, name, v);
        }
      case DmParam(last, _, _, _, _) =>
        assert (DMROOT + last)[|DMROOT|..] == last;
        if v != ParamVisit(obj, root.items[k]) {
          RootListing(root, k + 1, true, obj, v);
        }
      case SubEntry(sub) => assert false;
    }
  }

  lemma RootIsUnwanted(mode: Mode, inParam: string, root: Entry, v: Visit)
    requires Readable(mode, inParam) && !WholeTree(inParam) && !RootMatches(inParam)
    requires WellFormedRoot(root) && v in Listing(root, 0, "")
    ensures !Wanted(mode, inParam, v)
  {
    hide Contains, Listing, WellFormed, OccursAt;
    RootListing(root, 0, false, "", v);
    if mode.scope == Exact {
      if v.name == inParam {
        PrefixOccurs(inParam, DMROOT);
      }
    } else if inParam <= v.name {
      LongerThanRoot(inParam);
      DotBehindRoot(inParam, v.name);
    }
  }

  lemma LongerThanRoot(path: string)
    requires Contains(path, DMROOT) && path != DMROOT
    ensures |DMROOT| < |path|
  {
  }

  // What is left of the walk inside an entry has the effect of visiting everything in it.
  lemma {:induction false} WalkFromIsFold(c: Ctx, obj: string, mode: Mode, inParam: string, e: Entry, k: nat,
      afterObject: bool)
    requires Readable(mode, inParam) && WellFormed(e, k, afterObject)
    requires mode.scope == Everything ==> inParam <= e.prefix
    requires afterObject ==> e.prefix <= obj && IsObjectName(obj)
    ensures WalkFrom(c, obj, mode, inParam, e, k).0 == Fold(c, mode, inParam, Listing(e, k, obj))
    decreases e, |e.items| - k
  {
    hide Contains, IsName, Matches, Tested, On, Do, Readable, Fold, Listing, WellFormed, IsObjectName;
    if c.stop {
      FoldStopped(c, mode, inParam, Listing(e, k, obj));
    } else if k >= |e.items| {
      ListingEnd(e, k, obj);
      FoldNothing(c, mode, inParam, []);
    } else {
      ItemAt(e, k, obj, afterObject);
      match e.items[k] {
        case DmObject(name, _) =>
          var v := ObjectVisit(e.items[k]);
          ObjectNameIsName(name);
          TestedIsWanted(mode, inParam, v);
          FoldFront(c, mode, inParam, v, Listing(e, k + 1, name));
          WalkFromIsFold(Seen(c, mode, inParam, v), name, mode, inParam, e, k + 1, true);
        case DmParam(last, _, _, _, _) =>
          var v := ParamVisit(obj, e.items[k]);
          ParamIsName(obj, last);
          TestedIsWanted(mode, inParam, v);
          FoldFront(c, mode, inParam, v, Listing(e, k + 1, obj));
          WalkFromIsFold(Seen(c, mode, inParam, v), obj, mode, inParam, e, k + 1, true);
        case SubEntry(sub) =>
          WalkIntoIsFold(c, obj, mode, inParam, sub);
          var r := WalkInto(c, obj, mode, inParam, sub);
          FoldAppend(c, mode, inParam, Listing(sub, 0, ""), Listing(e, k + 1, ""));
          WalkFromIsFold(r.0, r.1, mode, inParam, e, k + 1, false);
          ListingIgnores(e, k + 1, "", r.1);
      }
    }
  }

  // So has an entry function, whether it matches or not.
  lemma {:induction false} WalkIntoIsFold(c: Ctx, obj: string, mode: Mode, inParam: string, e: Entry)
    requires Readable(mode, inParam) && WellFormedEntry(e)
    requires mode.scope == Everything && e.prefix <= inParam ==> e.prefix == inParam
    ensures WalkInto(c, obj, mode, inParam, e).0 == Fold(c, mode, inParam, Listing(e, 0, ""))
    decreases e, |e.items| + 1
  {
    hide Contains, IsName, Fold, Listing, WellFormed, WalkFrom, Matches, Readable;
    if WholeTree(inParam) || Matches(inParam, e.prefix) {
      MatchedIsUnder(mode, inParam, e.prefix);
      var start := if WholeTree(inParam) then obj else e.prefix;
      WalkFromIsFold(c, start, mode, inParam, e, 0, false);
      ListingIgnores(e, 0, "", start);
    } else {
      forall v | v in Listing(e, 0, "") ensures !Wanted(mode, inParam, v) {
        SkippedIsUnwanted(mode, inParam, e, v);
      }
      FoldNothing(c, mode, inParam, Listing(e, 0, ""));
    }
  }

  lemma WalkRootIsFold(c: Ctx, obj: string, mode: Mode, inParam: string, root: Entry)
    requires Readable(mode, inParam) && WellFormedRoot(root)
    ensures WalkRoot(c, obj, mode, inParam, root).0 == Fold(c, mode, inParam, Listing(root, 0, ""))
  {
    hide Contains, IsName, Fold, Listing, WellFormed, WalkFrom, RootMatches, Readable;
    if WholeTree(inParam) || RootMatches(inParam) {
      RootIsUnder(mode, inParam);
      WalkFromIsFold(c, obj, mode, inParam, root, 0, false);
      ListingIgnores(root, 0, "", obj);
    } else {
      forall v | v in Listing(root, 0, "") ensures !Wanted(mode, inParam, v) {
        RootIsUnwanted(mode, inParam, root, v);
      }
      FoldNothing(c, mode, inParam, Listing(root, 0, ""));
    }
  }

  lemma {:induction false} WalkTopsIsFold(c: Ctx, obj: string, mode: Mode, inParam: string, tops: seq<Entry>)
    requires Readable(mode, inParam) && forall i :: 0 <= i < |tops| ==> WellFormedEntry(tops[i])
    requires forall i :: 0 <= i < |tops| && mode.scope == Everything && tops[i].prefix <= inParam ==>
      tops[i].prefix == inParam
    ensures WalkTops(c, obj, mode, inParam, tops).0 == Fold(c, mode, inParam, TopListing(tops))
    decreases |tops|
  {
    hide Fold, Listing, WellFormedEntry, Readable, WalkInto;
    if c.stop {
      FoldStopped(c, mode, inParam, TopListing(tops));
    } else if tops == [] {
      FoldNothing(c, mode, inParam, []);
    } else {
      WalkIntoIsFold(c, obj, mode, inParam, tops[0]);
      var r := WalkInto(c, obj, mode, inParam, tops[0]);
      FoldAppend(c, mode, inParam, Listing(tops[0], 0, ""), TopListing(tops[1..]));
      WalkTopsIsFold(r.0, r.1, mode, inParam, tops[1..]);
    }
  }

  // The pruned walk has the effect of visiting the full enumeration, for every path that is "",
  // names one parameter, or has the root in it.
  lemma WalkIsFold(c: Ctx, obj: string, mode: Mode, inParam: string, t: Tree)
    requires Readable(mode, inParam) && WellFormedTree(t)
    requires mode.scope == Everything ==> inParam == "" || inParam in t.prefixes
    ensures Walk(c, obj, mode, inParam, t).0 == Fold(c, mode, inParam, All(t))
  {
    hide Fold, Listing, WellFormedEntry, Readable, WellFormedRoot, IsObjectName, WalkRoot, WalkTops;
    WalkRootIsFold(c, obj, mode, inParam, t.root);
    var r := WalkRoot(c, obj, mode, inParam, t.root);
    WalkTopsIsFold(r.0, r.1, mode, inParam, t.tops);
    FoldAppend(c, mode, inParam, Listing(t.root, 0, ""), TopListing(t.tops));
  }

  // ---- what the reference computes ----

  function InsertAll(list: seq<Param>, ps: seq<Param>): seq<Param>
    decreases |ps|
  {
    if ps == [] then list else InsertAll(Insert(list, ps[0]), ps[1..])
  }

  // Whether a visit ends up in the list.
  predicate Picked(mode: Mode, inParam: string, v: Visit) {
    Wanted(mode, inParam, v) && (if mode.scope == Exact then ListsExact(mode) else Lists(mode, inParam, v))
  }

  // A plain filter of the enumeration.
  function Chosen(mode: Mode, inParam: string, vs: seq<Visit>): seq<Param>
    decreases |vs|
  {
    if vs == [] then []
    else (if Picked(mode, inParam, vs[0]) then [ItemOf(mode, vs[0])] else []) + Chosen(mode, inParam, vs[1..])
  }

  predicate AnyWanted(mode: Mode, inParam: string, vs: seq<Visit>) {
    exists i :: 0 <= i < |vs| && Wanted(mode, inParam, vs[i])
  }

  lemma AnyWantedStep(mode: Mode, inParam: string, vs: seq<Visit>)
    requires vs != []
    ensures AnyWanted(mode, inParam, vs) <==> Wanted(mode, inParam, vs[0]) || AnyWanted(mode, inParam, vs[1..])
  {
    hide Wanted;
    if AnyWanted(mode, inParam, vs[1..]) {
      var i :| 0 <= i < |vs[1..]| && Wanted(mode, inParam, vs[1..][i]);
      assert Wanted(mode, inParam, vs[i + 1]);
    }
    if i :| 0 <= i < |vs| && Wanted(mode, inParam, vs[i]) {
      if i > 0 {
        assert Wanted(mode, inParam, vs[1..][i - 1]);
      }
    }
  }

  lemma {:induction false} InsertPresent(list: seq<Param>, p: Param)
    requires Ascending(list) && HasName(list, p.name)
    ensures Insert(list, p) == list
  {
    if list[0].name != p.name {
      var i :| 0 <= i < |list| && list[i].name == p.name;
      assert Less(list[0].name, list[i].name);
      LessTotal(p.name, list[0].name);
      assert list[1..][i - 1].name == p.name;
      InsertPresent(list[1..], p);
    }
  }

  // Once the one name is in the list, the other visits with this name change nothing.
  lemma {:induction false} ExactOnce(mode: Mode, inParam: string, list: seq<Param>, vs: seq<Visit>)
    requires mode.scope == Exact && Ascending(list) && HasName(list, inParam)
    ensures InsertAll(list, Chosen(mode, inParam, vs)) == list
    decreases |vs|
  {
    hide Ascending, HasName, Insert;
    if vs != [] {
      if Picked(mode, inParam, vs[0]) {
        var p := ItemOf(mode, vs[0]);
        InsertPresent(list, p);
        assert ([p] + Chosen(mode, inParam, vs[1..]))[1..] == Chosen(mode, inParam, vs[1..]);
      } else {
        assert [] + Chosen(mode, inParam, vs[1..]) == Chosen(mode, inParam, vs[1..]);
      }
      ExactOnce(mode, inParam, list, vs[1..]);
    }
  }

  lemma {:induction false} NothingListed(mode: Mode, inParam: string, vs: seq<Visit>)
    requires mode.scope == Exact && !ListsExact(mode)
    ensures Chosen(mode, inParam, vs) == []
    decreases |vs|
  {
    if vs != [] {
      NothingListed(mode, inParam, vs[1..]);
    }
  }

  // The first parameter of that name.
  function FirstParam(vs: seq<Visit>, name: string): Option<Visit>
    decreases |vs|
  {
    if vs == [] then None
    else if !vs[0].isObject && vs[0].name == name then Some(vs[0])
    else FirstParam(vs[1..], name)
  }

  // The walk's result, stops included, is the sorted list of a filter over all visits.
  lemma {:induction false} FoldMeans(c: Ctx, mode: Mode, inParam: string, vs: seq<Visit>)
    requires !c.stop && Ascending(c.list)
    ensures var r := Fold(c, mode, inParam, vs);
      && r.list == InsertAll(c.list, Chosen(mode, inParam, vs))
      && r.stop == (mode.scope == Exact && AnyWanted(mode, inParam, vs))
      && (r.stop ==> r.error == if mode.command.Names? && mode.nextLevel then FAULT_9003 else 0)
      && r.faultcode == if mode.scope == Below && AnyWanted(mode, inParam, vs) then 0 else c.faultcode
    decreases |vs|
  {
    if vs != [] {
      hide Ascending, HasName, Insert, Wanted, Lists, AnyWanted;
      var v, rest := vs[0], vs[1..];
      AnyWantedStep(mode, inParam, vs);
      FoldFront(c, mode, inParam, v, rest);
      assert [v] + rest == vs;
      ChosenFront(mode, inParam, v, rest, c.list);
      InsertMeans(c.list, ItemOf(mode, v));
      if mode.scope == Exact && Wanted(mode, inParam, v) {
        FoldStopped(On(c, mode, inParam, v), mode, inParam, rest);
        if !ListsExact(mode) {
          NothingListed(mode, inParam, vs);
        } else {
          WantedName(mode, inParam, v);
          InsertKeeps(c.list, ItemOf(mode, v));
          ExactOnce(mode, inParam, Insert(c.list, ItemOf(mode, v)), rest);
        }
      } else {
        FoldMeans(On(c, mode, inParam, v), mode, inParam, rest);
      }
    }
  }

  lemma WantedName(mode: Mode, inParam: string, v: Visit)
    requires mode.scope == Exact && Wanted(mode, inParam, v)
    ensures ItemOf(mode, v).name == inParam
  {
  }

  lemma ChosenFront(mode: Mode, inParam: string, v: Visit, rest: seq<Visit>, list: seq<Param>)
    ensures InsertAll(list, Chosen(mode, inParam, [v] + rest))
         == InsertAll(if Picked(mode, inParam, v) then Insert(list, ItemOf(mode, v)) else list,
                      Chosen(mode, inParam, rest))
  {
    hide Picked, Insert;
    var tail := Chosen(mode, inParam, rest);
    assert ([v] + rest)[1..] == rest;
    if Picked(mode, inParam, v) {
      assert ([ItemOf(mode, v)] + tail)[1..] == tail;
    } else {
      assert [] + tail == tail;
    }
  }

  // ---- the two queries and the search of a set command ----

  function ValueMode(t: Tree, inParam: string): Mode {
    var scope :=
      if inParam == "" || inParam in t.prefixes then Everything else if IsObject(inParam) then Below else Exact;
    Mode(Values, scope, false)
  }

  function NameMode(t: Tree, inParam: string, nextLevel: bool): Mode {
    Mode(Names,
         if inParam == "" || (inParam in t.prefixes && !nextLevel) then Everything
         else if IsObject(inParam) || inParam in t.prefixes then Below else Exact,
         nextLevel)
  }

  const SET_MODE := Mode(Update, Exact, false)

  // The context as a command starts with it.
  function Start(mode: Mode, list: seq<Param>): Ctx {
    Ctx(false, 0, if mode.scope == Everything then 0 else FAULT_9005, list, None)
  }

  function Returned(c: Ctx): (int, seq<Param>) {
    (if c.stop then c.error else c.faultcode, c.list)
  }

  // string_to_bool
  function StringToBool(v: string): Option<bool> {
    if v == "1" || HeaderFields.SameName(v, "true") then Some(true)
    else if v == "0" || HeaderFields.SameName(v, "false") then Some(false)
    else None
  }

  function LevelOf(level: Option<string>): Option<bool> {
    if level.Some? then StringToBool(level.value) else None
  }

  // What the source answers to a path: the fault, and the list with what is added to it.
  function ValueResponse(t: Tree, inParam: string, list: seq<Param>, obj: string): (int, seq<Param>) {
    var mode := ValueMode(t, inParam);
    Returned(Walk(Start(mode, list), obj, mode, inParam, t).0)
  }

  function NameResponse(t: Tree, inParam: string, nextLevel: bool, list: seq<Param>, obj: string): (int, seq<Param>) {
    var mode := NameMode(t, inParam, nextLevel);
    if inParam == "" && nextLevel then
      (0, WalkRoot(Ctx(false, 0, FAULT_9005, list, None), obj, mode, inParam, t.root).0.list)
    else Returned(Walk(Start(mode, list), obj, mode, inParam, t).0)
  }

  function Response(t: Tree, names: bool, inparam: string, level: Option<string>, list: seq<Param>, obj: string)
    : (int, seq<Param>)
  {
    if inparam == "." then (FAULT_9005, list)
    else if !names then ValueResponse(t, inparam, list, obj)
    else match LevelOf(level)
      case None => (FAULT_9003, list)
      case Some(nextLevel) => NameResponse(t, inparam, nextLevel, list, obj)
  }

  // The search of a set command: 9005, or 0 and the parameter whose callback goes on.
  function SetSearch(t: Tree, inParam: string, c: Ctx, obj: string): (int, Option<Visit>) {
    if inParam == "" || IsObject(inParam) then (FAULT_9005, None) else
      var r := Walk(c.(found := None), obj, SET_MODE, inParam, t).0;
      (if r.stop then r.error else FAULT_9005, r.found)
  }

  // The reference: what is added, as a filter of the full enumeration, and the fault.
  function Answer(t: Tree, names: bool, inparam: string, level: Option<string>): seq<Param> {
    if inparam == "." then []
    else if !names then Chosen(ValueMode(t, inparam), inparam, All(t))
    else match LevelOf(level)
      case None => []
      case Some(nextLevel) =>
        if inparam == "" && nextLevel then Chosen(Mode(Names, Everything, true), "", Listing(t.root, 0, ""))
        else Chosen(NameMode(t, inparam, nextLevel), inparam, All(t))
  }

  function ValueFault(t: Tree, inParam: string): int {
    if inParam == "" || inParam in t.prefixes || AnyWanted(ValueMode(t, inParam), inParam, All(t)) then 0
      else FAULT_9005
  }

  function NameFault(t: Tree, inParam: string, nextLevel: bool): int {
    if inParam == "" || (inParam in t.prefixes && !nextLevel) then 0
    else if !AnyWanted(NameMode(t, inParam, nextLevel), inParam, All(t)) then FAULT_9005
    else if nextLevel && !IsObject(inParam) then FAULT_9003
    else 0
  }

  function AnswerFault(t: Tree, names: bool, inparam: string, level: Option<string>): int {
    if inparam == "." then FAULT_9005
    else if !names then ValueFault(t, inparam)
    else match LevelOf(level)
      case None => FAULT_9003
      case Some(nextLevel) => NameFault(t, inparam, nextLevel)
  }

  lemma NothingInserted(list: seq<Param>)
    ensures InsertAll(list, []) == list
  {
  }

  // A path to objects has the root in it.
  predicate PathOk(inParam: string) {
    IsObject(inParam) ==> Contains(inParam, DMROOT)
  }

  lemma ModesAreReadable(t: Tree, inParam: string, nextLevel: bool)
    requires WellFormedTree(t) && PathOk(inParam)
    ensures Readable(ValueMode(t, inParam), inParam)
    ensures !(inParam == "" && nextLevel) ==> Readable(NameMode(t, inParam, nextLevel), inParam)
    ensures inParam in t.prefixes ==> IsObject(inParam) && inParam != ""
  {
    hide IsName, Contains, WellFormedRoot, WellFormedEntry;
    if inParam in t.prefixes {
      ObjectNameIsName(inParam);
    }
  }

  lemma ValueResponseIs(t: Tree, inParam: string, list: seq<Param>, obj: string)
    requires WellFormedTree(t) && Ascending(list) && PathOk(inParam)
    ensures ValueResponse(t, inParam, list, obj)
         == (ValueFault(t, inParam), InsertAll(list, Chosen(ValueMode(t, inParam), inParam, All(t))))
  {
    hide All, WellFormedTree, Fold, Chosen, InsertAll, IsObjectName, Ascending, Walk, Readable, PathOk, AnyWanted;
    var mode := ValueMode(t, inParam);
    ModesAreReadable(t, inParam, false);
    WalkIsFold(Start(mode, list), obj, mode, inParam, t);
    FoldMeans(Start(mode, list), mode, inParam, All(t));
  }

  lemma NameResponseIs(t: Tree, inParam: string, nextLevel: bool, list: seq<Param>, obj: string)
    requires WellFormedTree(t) && Ascending(list) && PathOk(inParam) && !(inParam == "" && nextLevel)
    ensures NameResponse(t, inParam, nextLevel, list, obj)
         == (NameFault(t, inParam, nextLevel),
           InsertAll(list, Chosen(NameMode(t, inParam, nextLevel), inParam, All(t))))
  {
    hide All, WellFormedTree, Fold, Chosen, InsertAll, IsObjectName, Ascending, Walk, Readable, PathOk, AnyWanted;
    var mode := NameMode(t, inParam, nextLevel);
    ModesAreReadable(t, inParam, nextLevel);
    WalkIsFold(Start(mode, list), obj, mode, inParam, t);
    FoldMeans(Start(mode, list), mode, inParam, All(t));
  }

  lemma RootResponseIs(t: Tree, list: seq<Param>, obj: string)
    requires WellFormedTree(t) && Ascending(list)
    ensures NameResponse(t, "", true, list, obj)
         == (0, InsertAll(list, Chosen(Mode(Names, Everything, true), "", Listing(t.root, 0, ""))))
  {
    hide Listing, WellFormedRoot, Fold, Chosen, InsertAll, IsObjectName, Ascending, WalkRoot, AnyWanted;
    var mode := NameMode(t, "", true);
    WalkRootIsFold(Ctx(false, 0, FAULT_9005, list, None), obj, mode, "", t.root);
    FoldMeans(Ctx(false, 0, FAULT_9005, list, None), mode, "", Listing(t.root, 0, ""));
  }

  // On a path that names one parameter, is "" or "." or has the root in it, the source answers as
  // the reference does: the sorted filter of the full enumeration, and its fault.
  lemma ResponseIsAnswer(t: Tree, names: bool, inparam: string, level: Option<string>, list: seq<Param>, obj: string)
    requires WellFormedTree(t) && Ascending(list) && (inparam != "." ==> PathOk(inparam))
    ensures Response(t, names, inparam, level, list, obj)
         == (AnswerFault(t, names, inparam, level), InsertAll(list, Answer(t, names, inparam, level)))
  {
    hide All, WellFormedTree, Chosen, InsertAll, Ascending, PathOk, Listing, NameResponse, ValueResponse, NameFault,
      ValueFault;
    NothingInserted(list);
    if inparam == "." {
    } else if !names {
      ValueResponseIs(t, inparam, list, obj);
    } else if LevelOf(level).Some? {
      if inparam == "" && LevelOf(level).value {
        RootResponseIs(t, list, obj);
        assert NameFault(t, "", true) == 0 by { RootFault(t); }
      } else {
        NameResponseIs(t, inparam, LevelOf(level).value, list, obj);
      }
    }
  }

  lemma RootFault(t: Tree)
    ensures NameFault(t, "", true) == 0
  {
  }

  // The parameter that the name stands for; none for "" and for paths to objects.
  function ParamNamed(t: Tree, name: string): Option<Visit> {
    if name == "" || IsObject(name) then None else FirstParam(All(t), name)
  }

  // A set command works on the first parameter of the name in the full enumeration.
  lemma SetSearchIsFirst(t: Tree, inParam: string, c: Ctx, obj: string)
    requires WellFormedTree(t) && !c.stop && c.error == 0
    ensures var v := ParamNamed(t, inParam);
      SetSearch(t, inParam, c, obj) == (if v.Some? then 0 else FAULT_9005, v)
  {
    hide All, WellFormedTree, Fold, Walk;
    if inParam != "" && !IsObject(inParam) {
      WalkIsFold(c.(found := None), obj, SET_MODE, inParam, t);
      FoldFinds(c.(found := None), inParam, All(t));
    }
  }

  lemma {:induction false} FoldFinds(c: Ctx, inParam: string, vs: seq<Visit>)
    requires !c.stop && c.error == 0 && c.found == None
    ensures var r := Fold(c, SET_MODE, inParam, vs);
      r.found == FirstParam(vs, inParam) && r.stop == r.found.Some? && r.error == 0
    decreases |vs|
  {
    if vs != [] && !(!vs[0].isObject && vs[0].name == inParam) {
      FoldFinds(c, inParam, vs[1..]);
    }
  }

  // ---- what the answers mean ----

  lemma {:induction false} TopEntryOf(tops: seq<Entry>, v: Visit) returns (i: nat)
    requires v in TopListing(tops)
    ensures i < |tops| && v in Listing(tops[i], 0, "")
  {
    hide Listing;
    if v in Listing(tops[0], 0, "") {
      i := 0;
    } else {
      var j := TopEntryOf(tops[1..], v);
      i := j + 1;
    }
  }

  lemma AllAreNames(t: Tree, v: Visit)
    requires WellFormedTree(t) && v in All(t)
    ensures IsName(v.name) && v.isObject == IsObject(v.name)
  {
    hide Listing, IsName;
    if v in Listing(t.root, 0, "") {
      ListingUnder(t.root, 0, false, "", v);
    } else {
      var i := TopEntryOf(t.tops, v);
      ListingUnder(t.tops[i], 0, false, "", v);
    }
  }

  // One segment below the path, an object's closing dot not counted.
  predicate IsChild(path: string, name: string) {
    path <= name && name != path && '.' !in name[|path|..|name| - 1]
  }

  // GetParameterNames with NextLevel lists the direct children of the path and nothing else.
  lemma NextLevelIsChildren(t: Tree, path: string, v: Visit)
    requires WellFormedTree(t) && IsObject(path) && v in All(t)
    ensures Picked(NameMode(t, path, true), path, v) <==> IsChild(path, v.name)
  {
    hide All, WellFormedTree, UpToDot, IsName;
    AllAreNames(t, v);
    if path <= v.name {
      if v.isObject {
        ObjectIsChild(path, v.name);
      } else {
        ParamIsChild(path, v.name);
        var rest := v.name[|path|..];
        assert rest == v.name[|path|..|v.name| - 1] + [v.name[|v.name| - 1]];
      }
    }
  }

  predicate DistinctNames(ps: seq<Param>) {
    forall i, j :: 0 <= i < j < |ps| ==> ps[i].name != ps[j].name
  }

  // Any list of answers comes out ascending by strcmp, each name once, and nothing is made up.
  lemma {:induction false} InsertAllMeans(list: seq<Param>, ps: seq<Param>)
    requires Ascending(list)
    ensures Ascending(InsertAll(list, ps))
    ensures forall x :: x in InsertAll(list, ps) ==> x in list || x in ps
    ensures forall n: string :: HasName(InsertAll(list, ps), n) <==> HasName(list, n) || HasName(ps, n)
    decreases |ps|
  {
    hide Ascending, HasName, Insert;
    if ps == [] {
      NoName();
    } else {
      var next := Insert(list, ps[0]);
      InsertMeans(list, ps[0]);
      InsertAllMeans(next, ps[1..]);
      assert ps == [ps[0]] + ps[1..];
      forall n: string ensures HasName(InsertAll(list, ps), n) <==> HasName(list, n) || HasName(ps, n) {
        NamesAfterInsert(list, ps[0], n);
        NamesFront(ps[0], ps[1..], n);
      }
    }
  }

  lemma NoName()
    ensures forall n: string :: !HasName([], n)
  {
  }

  lemma NamesFront(p: Param, ps: seq<Param>, n: string)
    ensures HasName([p] + ps, n) <==> p.name == n || HasName(ps, n)
  {
    if HasName(ps, n) {
      var i :| 0 <= i < |ps| && ps[i].name == n;
      assert ([p] + ps)[i + 1].name == n;
    }
    assert ([p] + ps)[0] == p;
    if i :| 0 <= i < |[p] + ps| && ([p] + ps)[i].name == n {
      assert i > 0 ==> ps[i - 1].name == n;
    }
  }

  lemma {:induction false} NamesAfterInsert(list: seq<Param>, p: Param, n: string)
    ensures HasName(Insert(list, p), n) <==> HasName(list, n) || p.name == n
  {
    hide HasName;
    if list == [] {
      assert [p] == [p] + [];
      NamesFront(p, [], n);
    } else {
      var rest := list[1..];
      assert list == [list[0]] + rest;
      NamesFront(list[0], rest, n);
      NamesFront(p, list, n);
      NamesFront(list[0], Insert(rest, p), n);
      NamesAfterInsert(rest, p, n);
    }
  }

  // With names that differ, the answer holds exactly the chosen entries.
  lemma {:induction false} InsertAllExact(list: seq<Param>, ps: seq<Param>, x: Param)
    requires Ascending(list) && DistinctNames(ps) && forall p :: p in ps ==> !HasName(list, p.name)
    ensures x in InsertAll(list, ps) <==> x in list || x in ps
    decreases |ps|
  {
    hide Ascending, HasName, Insert;
    if ps != [] {
      var next := Insert(list, ps[0]);
      assert ps[0] in ps && ps == [ps[0]] + ps[1..];
      InsertMeans(list, ps[0]);
      forall p | p in ps[1..] ensures !HasName(next, p.name) {
        NamesAfterInsert(list, ps[0], p.name);
        var i :| 0 <= i < |ps[1..]| && ps[1..][i] == p;
        assert ps[0].name != ps[i + 1].name;
        assert p in ps;
      }
      assert DistinctNames(ps[1..]) by {
        assert forall i :: 0 <= i < |ps[1..]| ==> ps[1..][i] == ps[i + 1];
      }
      InsertAllExact(next, ps[1..], x);
    }
  }

  // ---- paths that do not have the root in them ----

  ghost predicate RightAnswers(inparam: string) {
    forall t: Tree, names: bool, level: Option<string>, list: seq<Param>, obj: string ::
      WellFormedTree(t) && Ascending(list) ==>
        Response(t, names, inparam, level, list, obj)
          == (AnswerFault(t, names, inparam, level), InsertAll(list, Answer(t, names, inparam, level)))
  }

  // A tree with one object, whose path below the root is the given one.
  function FragmentTree(path: string): Tree {
    Tree(Entry(DMROOT, [DmObject(DMROOT, "0")]),
         [Entry(DMROOT + path, [DmObject(DMROOT + path, "0"), DmParam("P", "0", "v", "", false)])],
         [DMROOT, DMROOT + path])
  }

  lemma NoRootInside(path: string, i: nat)
    requires !Contains(path, DMROOT) && 0 < i
    ensures !OccursAt(DMROOT + path, DMROOT, i)
  {
    var n := DMROOT + path;
    if OccursAt(n, DMROOT, i) {
      if i < |DMROOT| {
        assert n[i..i + |DMROOT|][|DMROOT| - 1 - i] == n[|DMROOT| - 1] == '.';
        assert DMROOT[|DMROOT| - 1 - i] == '.';
        OnlyLastDot(|DMROOT| - 1 - i);
      } else {
        assert path[i - |DMROOT|..i] == n[i..i + |DMROOT|];
        assert OccursAt(path, DMROOT, i - |DMROOT|);
      }
    }
  }

  lemma OnlyLastDot(i: nat)
    requires i < |DMROOT| - 1
    ensures DMROOT[i] != '.'
  {
  }

  lemma RootPathIsName(path: string)
    requires IsObject(path) && !Contains(path, DMROOT)
    ensures IsObjectName(DMROOT + path)
  {
    forall i | 0 < i <= |DMROOT + path| ensures !OccursAt(DMROOT + path, DMROOT, i) {
      NoRootInside(path, i);
    }
    assert (DMROOT + path)[|DMROOT + path| - 1] == path[|path| - 1];
  }

  // No name starts with such a path.
  lemma NoNameBelow(path: string, name: string)
    requires IsObject(path) && !Contains(path, DMROOT) && DMROOT <= name
    ensures !(path <= name)
  {
    if path <= name {
      if |path| < |DMROOT| {
        assert DMROOT[|path| - 1] == name[|path| - 1] == '.';
        OnlyLastDot(|path| - 1);
      } else {
        assert path[..|DMROOT|] == name[..|DMROOT|] == DMROOT;
        PrefixOccurs(path, DMROOT);
      }
    }
  }

  lemma FragmentTreeIsWellFormed(path: string)
    requires IsObject(path) && !Contains(path, DMROOT)
    ensures WellFormedTree(FragmentTree(path))
  {
    RootPathIsName(path);
    assert IsObjectName(DMROOT) by { RootIsName(); }
    hide Contains, IsName;
    var t := FragmentTree(path);
    var e := t.tops[0];
    assert WellFormed(t.root, 1, true);
    assert WellFormed(e, 2, true);
    assert WellFormed(e, 1, true);
    forall p | p in t.prefixes ensures IsObjectName(p) && (e.prefix <= p ==> e.prefix == p) {
    }
  }

  lemma RootIsName()
    ensures IsObjectName(DMROOT)
  {
  }

  lemma EndContains(a: string, path: string, b: string)
    ensures Contains(a + path + b, path)
  {
    assert (a + path + b)[|a|..|a| + |path|] == path;
    assert OccursAt(a + path + b, path, |a|);
  }

  // GetParameterValues on such a path lists the parameter without a fault, though the reference
  // knows no name below the path.
  lemma FragmentIsListed(path: string)
    requires IsObject(path) && path != "." && !Contains(path, DMROOT)
    ensures Response(FragmentTree(path), false, path, None, [], "")
      == (0, [Param(DMROOT + path + "P", "v", "xsd:string")])
    ensures AnswerFault(FragmentTree(path), false, path, None) == FAULT_9005
    ensures Answer(FragmentTree(path), false, path, None) == []
  {
    FragmentWalked(path);
    FragmentUnwanted(path);
  }

  lemma FragmentMode(path: string)
    requires IsObject(path) && !Contains(path, DMROOT)
    ensures ValueMode(FragmentTree(path), path) == Mode(Values, Below, false) && !WholeTree(path)
  {
    PrefixOccurs(DMROOT, DMROOT);
    assert |DMROOT + path| > |path|;
  }

  lemma FragmentWalked(path: string)
    requires IsObject(path) && path != "." && !Contains(path, DMROOT)
    ensures ValueResponse(FragmentTree(path), path, [], "") == (0, [Param(DMROOT + path + "P", "v", "xsd:string")])
  {
    FragmentMode(path);
    var t, mode := FragmentTree(path), Mode(Values, Below, false);
    var e := t.tops[0];
    EndContains(DMROOT, path, "");
    EndContains(DMROOT, path, "P");
    assert DMROOT + path + "" == DMROOT + path;
    hide Contains;
    var c := Start(mode, []);
    assert WalkRoot(c, "", mode, path, t.root) == (c, "");
    var c1 := Seen(c, mode, path, ObjectVisit(e.items[0]));
    assert c1 == c.(faultcode := 0);
    var v := ParamVisit(DMROOT + path, e.items[1]);
    var c2 := Seen(c1, mode, path, v);
    assert c2 == c1.(list := [Param(DMROOT + path + "P", "v", "xsd:string")]);
    assert WalkFrom(c2, DMROOT + path, mode, path, e, 2) == (c2, DMROOT + path);
    assert WalkFrom(c1, DMROOT + path, mode, path, e, 1) == (c2, DMROOT + path);
    assert WalkFrom(c, DMROOT + path, mode, path, e, 0) == (c2, DMROOT + path);
    assert WalkInto(c, "", mode, path, e) == (c2, DMROOT + path);
    assert t.tops[1..] == [];
    assert WalkTops(c2, DMROOT + path, mode, path, []) == (c2, DMROOT + path);
    assert WalkTops(c, "", mode, path, t.tops) == (c2, DMROOT + path);
  }

  lemma FragmentUnwanted(path: string)
    requires IsObject(path) && !Contains(path, DMROOT)
    ensures ValueFault(FragmentTree(path), path) == FAULT_9005
    ensures Chosen(ValueMode(FragmentTree(path), path), path, All(FragmentTree(path))) == []
  {
    FragmentMode(path);
    FragmentTreeIsWellFormed(path);
    var t := FragmentTree(path);
    forall v | v in All(t) ensures !Wanted(ValueMode(t, path), path, v) {
      AllAreNames(t, v);
      NoNameBelow(path, v.name);
    }
    NothingChosen(ValueMode(t, path), path, All(t));
  }

  lemma {:induction false} NothingChosen(mode: Mode, inParam: string, vs: seq<Visit>)
    requires forall v :: v in vs ==> !Wanted(mode, inParam, v)
    ensures Chosen(mode, inParam, vs) == [] && !AnyWanted(mode, inParam, vs)
    decreases |vs|
  {
    hide Wanted;
    if vs != [] {
      assert vs[0] in vs;
      NothingChosen(mode, inParam, vs[1..]);
    }
  }

  // The source answers a path as the reference does, in every tree, exactly when the path is no
  // path to objects, is ".", or has the root in it.
  lemma RightAnswersIff(inparam: string)
    ensures RightAnswers(inparam) <==> (IsObject(inparam) && inparam != "." ==> Contains(inparam, DMROOT))
  {
    hide Response, Answer, AnswerFault, WellFormedTree, Contains, Ascending, InsertAll;
    if IsObject(inparam) && inparam != "." && !Contains(inparam, DMROOT) {
      FragmentIsListed(inparam);
      FragmentTreeIsWellFormed(inparam);
      EmptyAscends();
      NothingInserted([]);
    } else {
      forall t: Tree, names: bool, level: Option<string>, list: seq<Param>, obj: string
        | WellFormedTree(t) && Ascending(list)
        ensures Response(t, names, inparam, level, list, obj)
             == (AnswerFault(t, names, inparam, level), InsertAll(list, Answer(t, names, inparam, level)))
      {
        ResponseIsAnswer(t, names, inparam, level, list, obj);
      }
    }
  }

  lemma EmptyAscends()
    ensures Ascending([])
  {
  }
}
