/** SetParameterValues: the handler of xml.c over the check and the apply phase of dm/dmentry.c.
    The device is a parameter: D is its configuration, and the data model it gives rise to and
    what the checks and writes of its parameters do are functions of it. */
module SetValues {
  import opened Notifications
  import opened Options
  import opened DataModel
  import opened DataModelWalk

  const FAULT_9008 := 9008

  // check: set_cmd with VALUECHECK; write: set_cmd with VALUESET.
  datatype Device<!D> = Device(tree: D -> Tree, check: (D, string, string) -> int, write: (D, string, string) -> D)

  ghost predicate HasGoodTrees<D(!new)>(dev: Device<D>) {
    forall d: D :: WellFormedTree(dev.tree(d))
  }

  datatype Pair = Pair(name: string, value: string)

  datatype Fault = Fault(name: string, code: int)

  datatype Code = Success | InvalidArguments | RequestDenied | InParameter(fault: int)

  // The name stands for a parameter of the present data model.
  predicate Present<D>(dev: Device<D>, d: D, name: string) {
    ParamNamed(dev.tree(d), name).Some?
  }

  // dm_entry_set_value with VALUECHECK; 0 when the pair may be applied.
  function CheckFault<D>(dev: Device<D>, d: D, p: Pair): int {
    match ParamNamed(dev.tree(d), p.name)
    case None => FAULT_9005
    case Some(v) =>
      if v.permission == "" || v.permission[0] != '1' || !v.hasSet then FAULT_9008
      else dev.check(d, p.name, p.value)
  }

  // ---- the reference ----

  // is_duplicated_parameter: an empty Name element has no text and is not compared.
  predicate Repeated(pairs: seq<Pair>, i: nat)
    requires i < |pairs|
  {
    pairs[i].name != "" && exists j :: i < j < |pairs| && pairs[j].name == pairs[i].name
  }

  predicate AllDifferent(pairs: seq<Pair>) {
    forall i :: 0 <= i < |pairs| ==> !Repeated(pairs, i)
  }

  predicate AllAccepted<D>(dev: Device<D>, d: D, pairs: seq<Pair>) {
    forall i :: 0 <= i < |pairs| ==> CheckFault(dev, d, pairs[i]) == 0
  }

  // The configuration after all pairs have been written in order.
  function WriteAll<D>(dev: Device<D>, d: D, pairs: seq<Pair>): D {
    if pairs == [] then d
    else dev.write(WriteAll(dev, d, pairs[..|pairs| - 1]), pairs[|pairs| - 1].name, pairs[|pairs| - 1].value)
  }

  // The names of the first n pairs are still in the data model when their turn comes.
  predicate StaysUpTo<D>(dev: Device<D>, d: D, pairs: seq<Pair>, n: nat)
    requires n <= |pairs|
  {
    forall i :: 0 <= i < n ==> Present(dev, WriteAll(dev, d, pairs[..i]), pairs[i].name)
  }

  predicate StaysThere<D>(dev: Device<D>, d: D, pairs: seq<Pair>) {
    StaysUpTo(dev, d, pairs, |pairs|)
  }

  // Writes do not add or remove parameters.
  ghost predicate NamesAreStable<D(!new)>(dev: Device<D>) {
    forall d: D, n: string, v: string, x: string :: Present(dev, dev.write(d, n, v), x) == Present(dev, d, x)
  }

  // The faults of the pairs, in order.
  function Faults<D>(dev: Device<D>, d: D, pairs: seq<Pair>): seq<Fault> {
    if pairs == [] then [] else
      var last := pairs[|pairs| - 1];
      Faults(dev, d, pairs[..|pairs| - 1]) +
      (if CheckFault(dev, d, last) != 0 then [Fault(last.name, CheckFault(dev, d, last))] else [])
  }

  ghost predicate IsFaultOf<D>(dev: Device<D>, d: D, pairs: seq<Pair>, f: Fault) {
    f.code != 0 && exists i :: 0 <= i < |pairs| && f == Fault(pairs[i].name, CheckFault(dev, d, pairs[i]))
  }

  lemma FaultOfStep<D>(dev: Device<D>, d: D, pairs: seq<Pair>, last: Pair, f: Fault)
    ensures IsFaultOf(dev, d, pairs + [last], f) <==>
      IsFaultOf(dev, d, pairs, f) || (f == Fault(last.name, CheckFault(dev, d, last)) && f.code != 0)
  {
    hide CheckFault;
    var all := pairs + [last];
    assert all[|pairs|] == last;
    if i :| 0 <= i < |pairs| && f == Fault(pairs[i].name, CheckFault(dev, d, pairs[i])) {
      assert all[i] == pairs[i];
    }
    if i :| 0 <= i < |all| && f == Fault(all[i].name, CheckFault(dev, d, all[i])) {
      assert i < |pairs| ==> all[i] == pairs[i];
    }
  }

  // The faults are those of exactly the pairs that fail ...
  lemma {:induction false} FaultsMean<D>(dev: Device<D>, d: D, pairs: seq<Pair>, f: Fault)
    ensures f in Faults(dev, d, pairs) <==> IsFaultOf(dev, d, pairs, f)
  {
    hide CheckFault, IsFaultOf;
    if pairs != [] {
      var init, last := pairs[..|pairs| - 1], pairs[|pairs| - 1];
      FaultsMean(dev, d, init, f);
      assert pairs == init + [last];
      FaultOfStep(dev, d, init, last, f);
    } else {
      assert IsFaultOf(dev, d, pairs, f) <==> false by { NoPairs(dev, d, f); }
    }
  }

  lemma NoPairs<D>(dev: Device<D>, d: D, f: Fault)
    ensures !IsFaultOf(dev, d, [], f)
  {
  }

  // ... so there are none when all are accepted.
  lemma {:induction false} NoFaults<D>(dev: Device<D>, d: D, pairs: seq<Pair>)
    ensures Faults(dev, d, pairs) == [] <==> AllAccepted(dev, d, pairs)
  {
    hide CheckFault;
    if pairs != [] {
      var init, last := pairs[..|pairs| - 1], pairs[|pairs| - 1];
      NoFaults(dev, d, init);
      assert pairs == init + [last];
    }
  }

  lemma WriteAllStep<D>(dev: Device<D>, d: D, pairs: seq<Pair>, n: nat)
    requires n < |pairs|
    ensures WriteAll(dev, d, pairs[..n + 1]) == dev.write(WriteAll(dev, d, pairs[..n]), pairs[n].name, pairs[n].value)
  {
    assert pairs[..n + 1][..n] == pairs[..n];
  }

  lemma NothingWritten<D>(dev: Device<D>, d: D)
    ensures WriteAll(dev, d, []) == d
  {
  }

  // ---- which parameters may be written ----

  // The parameter that comes first under its name in the full enumeration.
  predicate FirstUnder(vs: seq<Visit>, i: nat, name: string) {
    && i < |vs| && !vs[i].isObject && vs[i].name == name
    && forall j :: 0 <= j < i ==> vs[j].isObject || vs[j].name != name
  }

  predicate NoneUnder(vs: seq<Visit>, name: string) {
    forall j :: 0 <= j < |vs| ==> vs[j].isObject || vs[j].name != name
  }

  // Its permission starts with a 1, and it has a set_cmd.
  predicate Writable(v: Visit) {
    v.permission != "" && v.permission[0] == '1' && v.hasSet
  }

  lemma {:induction false} FirstParamAt(vs: seq<Visit>, i: nat, name: string)
    requires FirstUnder(vs, i, name)
    ensures FirstParam(vs, name) == Some(vs[i])
    decreases i
  {
    if i > 0 {
      assert vs[0].isObject || vs[0].name != name;
      assert forall j :: 0 <= j < i ==> vs[1..][j] == vs[j + 1];
      FirstParamAt(vs[1..], i - 1, name);
    }
  }

  lemma {:induction false} FirstParamNone(vs: seq<Visit>, name: string)
    requires NoneUnder(vs, name)
    ensures FirstParam(vs, name) == None
    decreases |vs|
  {
    if vs != [] {
      assert forall j :: 0 <= j < |vs| - 1 ==> vs[1..][j] == vs[j + 1];
      FirstParamNone(vs[1..], name);
    }
  }

  lemma {:induction false} FirstParamFound(vs: seq<Visit>, name: string) returns (i: nat)
    requires FirstParam(vs, name).Some?
    ensures FirstUnder(vs, i, name)
    decreases |vs|
  {
    if !vs[0].isObject && vs[0].name == name {
      i := 0;
    } else {
      var j := FirstParamFound(vs[1..], name);
      i := j + 1;
      forall l | 0 <= l < i ensures vs[l].isObject || vs[l].name != name {
        assert l > 0 ==> vs[l] == vs[1..][l - 1];
      }
    }
  }

  // A name that stands for no parameter gives 9005; one whose first parameter may not be written
  // gives 9008; of any other the set_cmd decides.
  lemma CheckFaultIs<D>(dev: Device<D>, d: D, p: Pair)
    requires WellFormedTree(dev.tree(d))
    ensures var vs := All(dev.tree(d));
      && (NoneUnder(vs, p.name) ==> CheckFault(dev, d, p) == 9005)
      && forall i: nat :: FirstUnder(vs, i, p.name) ==>
           CheckFault(dev, d, p) == if Writable(vs[i]) then dev.check(d, p.name, p.value) else 9008
  {
    var vs := All(dev.tree(d));
    hide All, WellFormedTree, NoneUnder;
    if NoneUnder(vs, p.name) {
      FirstParamNone(vs, p.name);
    }
    forall i: nat | FirstUnder(vs, i, p.name)
      ensures CheckFault(dev, d, p) == if Writable(vs[i]) then dev.check(d, p.name, p.value) else 9008
    {
      FirstParamAt(vs, i, p.name);
      NamesAreParams(dev.tree(d), i, p.name);
    }
  }

  lemma NamesAreParams(t: Tree, i: nat, name: string)
    requires WellFormedTree(t) && FirstUnder(All(t), i, name)
    ensures name != "" && !IsObject(name)
  {
    hide All, WellFormedTree;
    AllAreNames(t, All(t)[i]);
  }

  // The pair may be applied: the first parameter of its name may be written, and its check agrees.
  ghost predicate MayWrite<D>(dev: Device<D>, d: D, p: Pair) {
    exists i: nat :: FirstUnder(All(dev.tree(d)), i, p.name) && Writable(All(dev.tree(d))[i])
      && dev.check(d, p.name, p.value) == 0
  }

  lemma AcceptedMayWrite<D>(dev: Device<D>, d: D, p: Pair)
    requires WellFormedTree(dev.tree(d)) && CheckFault(dev, d, p) == 0
    ensures MayWrite(dev, d, p)
  {
    var vs := All(dev.tree(d));
    CheckFaultIs(dev, d, p);
    assert FirstParam(vs, p.name).Some?;
    var i := FirstParamFound(vs, p.name);
    hide All, WellFormedTree, CheckFault, FirstUnder, FirstParam;
    assert CheckFault(dev, d, p) == if Writable(vs[i]) then dev.check(d, p.name, p.value) else 9008;
  }

  // The fault list has the pair at k with 9005 when it names no parameter, and with 9008 when the
  // parameter it names may not be written.
  ghost predicate Reported<D>(dev: Device<D>, d: D, pairs: seq<Pair>, faults: seq<Fault>, k: nat)
    requires k < |pairs|
  {
    var vs := All(dev.tree(d));
    && (NoneUnder(vs, pairs[k].name) ==> Fault(pairs[k].name, 9005) in faults)
    && (forall i: nat :: FirstUnder(vs, i, pairs[k].name) && !Writable(vs[i]) ==> Fault(pairs[k].name, 9008) in faults)
  }

  // Some pair names no parameter or one that may not be written.
  ghost predicate Hopeless<D>(dev: Device<D>, d: D, pairs: seq<Pair>) {
    var vs := All(dev.tree(d));
    exists k :: 0 <= k < |pairs|
      && (NoneUnder(vs, pairs[k].name) || exists i: nat :: FirstUnder(vs, i, pairs[k].name) && !Writable(vs[i]))
  }

  lemma FaultsReport<D>(dev: Device<D>, d: D, pairs: seq<Pair>, k: nat)
    requires WellFormedTree(dev.tree(d)) && k < |pairs|
    ensures Reported(dev, d, pairs, Faults(dev, d, pairs), k)
  {
    var p := pairs[k];
    CheckFaultIs(dev, d, p);
    FaultsMean(dev, d, pairs, Fault(p.name, 9005));
    FaultsMean(dev, d, pairs, Fault(p.name, 9008));
    hide All, WellFormedTree, CheckFault, Faults;
  }

  lemma HopelessRefused<D>(dev: Device<D>, d: D, pairs: seq<Pair>)
    requires WellFormedTree(dev.tree(d)) && Hopeless(dev, d, pairs)
    ensures !AllAccepted(dev, d, pairs)
  {
    var vs := All(dev.tree(d));
    hide All, WellFormedTree, CheckFault;
    var k :| 0 <= k < |pairs|
      && (NoneUnder(vs, pairs[k].name) || exists i: nat :: FirstUnder(vs, i, pairs[k].name) && !Writable(vs[i]));
    CheckFaultIs(dev, d, pairs[k]);
  }

  // ---- the handler ----

  class Handler<D(!new)> {
    const dev: Device<D>
    const ctx: DmCtx             // dmctx
    var config: D
    var committed: D
    var parameterKey: string
    var setList: seq<Pair>       // set_list_tmp
    var faultList: seq<Fault>    // list_fault_param
    ghost var writes: seq<Pair>  // every VALUESET so far

    constructor (dev: Device<D>, config: D, parameterKey: string)
      ensures fresh(ctx) && this.dev == dev && this.config == config == this.committed
        && this.parameterKey == parameterKey
      ensures setList == [] && faultList == [] && writes == []
    {
      this.dev, this.config, this.committed, this.parameterKey := dev, config, config, parameterKey;
      setList, faultList, writes := [], [], [];
      ctx := new DmCtx();
    }

    // is_duplicated_parameter
    method IsDuplicated(pairs: seq<Pair>, i: nat) returns (duplicated: bool)
      requires i < |pairs| && pairs[i].name != ""
      ensures duplicated == Repeated(pairs, i)
    {
      var j := i + 1;
      while j < |pairs|
        invariant i < j <= |pairs| && forall k :: i < k < j ==> pairs[k].name != pairs[i].name
      {
        if pairs[j].name == pairs[i].name {
          return true;
        }
        j := j + 1;
      }
      return false;
    }

    // The walk of dm_entry_set_value, up to its callback.
    method Search(name: string) returns (error: int, v: Option<Visit>)
      requires HasGoodTrees(dev)
      modifies ctx
      ensures v == ParamNamed(dev.tree(config), name) && error == if v.Some? then 0 else FAULT_9005
    {
      hide WellFormedTree, ParamNamed;
      ctx.inParam, ctx.stop := name, false;
      ctx.tree := name == "" || name == DMROOT;
      ghost var c, obj := ctx.Now(0), ctx.currentObj;
      error := ctx.DmEntrySetValue(dev.tree(config));
      v := ctx.found;
      SetSearchIsFirst(dev.tree(config), name, c, obj);
    }

    // dm_entry_param_method with CMD_SET_VALUE
    method CheckValue(p: Pair) returns (fault: int)
      requires HasGoodTrees(dev)
      modifies this`setList, this`faultList, ctx
      ensures fault == CheckFault(dev, config, p)
      ensures setList == old(setList) + (if fault == 0 then [p] else [])
      ensures faultList == old(faultList) + (if fault != 0 then [Fault(p.name, fault)] else [])
    {
      var v;
      fault, v := Search(p.name);
      if v.Some? {
        if v.value.permission == "" || v.value.permission[0] != '1' || !v.value.hasSet {
          fault := FAULT_9008;
        } else {
          fault := dev.check(config, p.name, p.value);
          if fault == 0 {
            setList := setList + [p];
          }
        }
      }
      if fault != 0 {
        faultList := faultList + [Fault(p.name, fault)];
      }
    }

    // dm_entry_apply with CMD_SET_VALUE
    method Apply(key: string) returns (fault: int)
      requires HasGoodTrees(dev) && config == committed
      modifies this, ctx
      ensures StaysThere(dev, old(config), old(setList)) ==>
                && fault == 0 && config == committed == WriteAll(dev, old(config), old(setList))
                && writes == old(writes) + old(setList) && parameterKey == key && faultList == old(faultList)
      ensures !StaysThere(dev, old(config), old(setList)) ==>
                fault == FAULT_9005 && config == committed == old(config) && parameterKey == old(parameterKey)
      ensures old(writes) <= writes && forall p :: p in writes[|old(writes)|..] ==> p in old(setList)
      ensures setList == []
    {
      hide HasGoodTrees, WriteAll, ParamNamed;
      fault := 0;
      var n := 0;
      assert setList[..0] == [];
      NothingWritten(dev, config);
      while n < |setList|
        invariant n <= |setList| && setList == old(setList)
        invariant config == WriteAll(dev, old(config), setList[..n]) && committed == old(config)
        invariant StaysUpTo(dev, old(config), setList, n)
        invariant writes == old(writes) + setList[..n] && parameterKey == old(parameterKey)
          && faultList == old(faultList)
      {
        var p := setList[n];
        WriteAllStep(dev, old(config), setList, n);
        var error, v := Search(p.name);
        if v.None? {
          fault := error;
          break;
        }
        config := dev.write(config, p.name, p.value);
        writes := writes + [p];
        n := n + 1;
      }
      if fault != 0 {
        config := committed;
        faultList := faultList + [Fault(setList[n].name, fault)];
      } else {
        assert setList[..n] == setList;
        parameterKey := key;
        committed := config;
      }
      assert writes == old(writes) + setList[..n] && writes[|old(writes)|..] == setList[..n];
      setList := [];
    }

    // The loop of the handler over the request's pairs.
    method CheckPairs(pairs: seq<Pair>) returns (code: Code)
      requires HasGoodTrees(dev) && setList == [] && faultList == []
      modifies this`setList, this`faultList, ctx
      ensures code == if AllDifferent(pairs) && AllAccepted(dev, config, pairs) then Success else InvalidArguments
      ensures AllDifferent(pairs) ==> faultList == Faults(dev, config, pairs)
      ensures code == Success ==> setList == pairs
    {
      hide HasGoodTrees, CheckFault, Repeated, Faults, AllAccepted;
      code := Success;
      var b := 0;
      NoneYet(dev, config);
      assert pairs[..0] == [];
      while b < |pairs|
        invariant b <= |pairs| && forall i :: 0 <= i < b ==> !Repeated(pairs, i)
        invariant faultList == Faults(dev, config, pairs[..b])
        invariant code == if faultList == [] then Success else InvalidArguments
        invariant faultList == [] ==> setList == pairs[..b]
      {
        var p := pairs[b];
        if p.name != "" {
          var duplicated := IsDuplicated(pairs, b);
          if duplicated {
            return InvalidArguments;
          }
        } else {
          EmptyNotRepeated(pairs, b);
        }
        var e := CheckValue(p);
        if e != 0 {
          code := InvalidArguments;
        }
        FaultsStep(dev, config, pairs, b);
        b := b + 1;
      }
      assert pairs[..b] == pairs;
      NoFaults(dev, config, pairs);
    }

    // cwmp_handle_rpc_cpe_set_parameter_values, the request parsed; None is a missing element.
    method SetParameterValues(list: Option<seq<Pair>>, key: Option<string>) returns (code: Code)
      requires HasGoodTrees(dev) && setList == [] && faultList == [] && config == committed
      modifies this, ctx
      ensures code == Outcome(dev, old(config), list, key)
      ensures code == Success ==>
                && config == WriteAll(dev, old(config), list.value)
                && writes == old(writes) + list.value && parameterKey == key.value
                && DifferentNames(writes[|old(writes)|..])
      ensures code != Success ==> config == old(config) && parameterKey == old(parameterKey)
      ensures !code.InParameter? && code != Success ==> writes == old(writes)
      ensures list.Some? && AllDifferent(list.value) && !AllAccepted(dev, old(config), list.value) ==>
                faultList == Faults(dev, old(config), list.value)
      ensures config == committed
      ensures old(writes) <= writes && forall p :: p in writes[|old(writes)|..] ==> MayWrite(dev, old(config), p)
      ensures list.Some? && Hopeless(dev, old(config), list.value) ==>
                code == InvalidArguments && config == old(config) && writes == old(writes)
      ensures list.Some? && AllDifferent(list.value) && Hopeless(dev, old(config), list.value) ==>
                forall k :: 0 <= k < |list.value| ==> Reported(dev, old(config), list.value, faultList, k)
    {
      assert WellFormedTree(dev.tree(config));
      hide HasGoodTrees, WellFormedTree, CheckFault, StaysThere, WriteAll, AllDifferent, AllAccepted, Faults, Hopeless,
        Reported, MayWrite;
      if list.Some? && Hopeless(dev, config, list.value) {
        HopelessRefused(dev, config, list.value);
        forall k | 0 <= k < |list.value|
          ensures Reported(dev, config, list.value, Faults(dev, config, list.value), k)
        {
          FaultsReport(dev, config, list.value, k);
        }
      }
      if list.None? {
        return RequestDenied;
      }
      code := CheckPairs(list.value);
      if code == InvalidArguments {
        return;
      }
      if key.None? {
        return RequestDenied;
      }
      AcceptedOnce(dev, config, setList);
      forall p | p in list.value ensures MayWrite(dev, config, p) {
        EachAccepted(dev, config, list.value, p);
        AcceptedMayWrite(dev, config, p);
      }
      var f := Apply(key.value);
      assert writes == old(writes) + list.value ==> writes[|old(writes)|..] == list.value;
      code := if f != 0 then InParameter(f) else Success;
    }
  }

  // The answer of the handler, test by test.
  function Outcome<D>(dev: Device<D>, d: D, list: Option<seq<Pair>>, key: Option<string>): Code {
    if list.None? then RequestDenied
    else if !AllDifferent(list.value) || !AllAccepted(dev, d, list.value) then InvalidArguments
    else if key.None? then RequestDenied
    else if !StaysThere(dev, d, list.value) then InParameter(FAULT_9005)
    else Success
  }

  // With stable names a request is applied exactly when it is complete, its names differ and
  // every pair passes its check; nothing of any other request is written.
  lemma AllOrNothing<D(!new)>(dev: Device<D>, d: D, list: Option<seq<Pair>>, key: Option<string>)
    requires NamesAreStable(dev) && WellFormedTree(dev.tree(d))
    ensures Outcome(dev, d, list, key) == Success <==>
      list.Some? && key.Some? && DifferentNames(list.value) && forall p :: p in list.value ==> MayWrite(dev, d, p)
    ensures !Outcome(dev, d, list, key).InParameter?
  {
    if list.Some? {
      GoodIff(dev, d, list.value);
    }
    hide AllAccepted, StaysThere, AllDifferent, DifferentNames, MayWrite, WellFormedTree;
    if list.Some? && AllAccepted(dev, d, list.value) {
      CheckedStaysThere(dev, d, list.value);
    }
  }

  // The tests of the handler pass exactly for different names that may all be written.
  lemma GoodIff<D>(dev: Device<D>, d: D, pairs: seq<Pair>)
    requires WellFormedTree(dev.tree(d))
    ensures AllDifferent(pairs) && AllAccepted(dev, d, pairs) <==>
      DifferentNames(pairs) && forall p :: p in pairs ==> MayWrite(dev, d, p)
  {
    forall p ensures CheckFault(dev, d, p) == 0 <==> MayWrite(dev, d, p) {
      MayWriteIff(dev, d, p);
    }
    hide CheckFault, MayWrite, WellFormedTree;
    if AllDifferent(pairs) && AllAccepted(dev, d, pairs) {
      AcceptedOnce(dev, d, pairs);
      forall p | p in pairs ensures MayWrite(dev, d, p) {
        EachAccepted(dev, d, pairs, p);
      }
    }
    if DifferentNames(pairs) && forall p :: p in pairs ==> MayWrite(dev, d, p) {
      forall i | 0 <= i < |pairs| ensures CheckFault(dev, d, pairs[i]) == 0 {
        assert pairs[i] in pairs;
      }
    }
  }

  lemma MayWriteIff<D>(dev: Device<D>, d: D, p: Pair)
    requires WellFormedTree(dev.tree(d))
    ensures CheckFault(dev, d, p) == 0 <==> MayWrite(dev, d, p)
  {
    CheckFaultIs(dev, d, p);
    if CheckFault(dev, d, p) == 0 {
      AcceptedMayWrite(dev, d, p);
    }
    hide CheckFault, All, WellFormedTree;
  }

  lemma EachAccepted<D>(dev: Device<D>, d: D, pairs: seq<Pair>, p: Pair)
    requires AllAccepted(dev, d, pairs) && p in pairs
    ensures CheckFault(dev, d, p) == 0
  {
    var k :| 0 <= k < |pairs| && pairs[k] == p;
    hide CheckFault;
    assert CheckFault(dev, d, pairs[k]) == 0;
  }

  lemma NoneYet<D>(dev: Device<D>, d: D)
    ensures Faults(dev, d, []) == []
  {
  }

  lemma FaultsStep<D>(dev: Device<D>, d: D, pairs: seq<Pair>, b: nat)
    requires b < |pairs|
    ensures Faults(dev, d, pairs[..b + 1]) == Faults(dev, d, pairs[..b]) +
      (if CheckFault(dev, d, pairs[b]) != 0 then [Fault(pairs[b].name, CheckFault(dev, d, pairs[b]))] else [])
  {
    hide CheckFault;
    assert pairs[..b + 1][..b] == pairs[..b];
  }

  lemma EmptyNotRepeated(pairs: seq<Pair>, i: nat)
    requires i < |pairs| && pairs[i].name == ""
    ensures !Repeated(pairs, i)
  {
  }

  predicate DifferentNames(pairs: seq<Pair>) {
    forall i, j :: 0 <= i < j < |pairs| ==> pairs[i].name != pairs[j].name
  }

  // Pairs that pass the duplicate test and the check phase have different names: each parameter
  // is written once.
  lemma AcceptedOnce<D>(dev: Device<D>, d: D, pairs: seq<Pair>)
    requires AllDifferent(pairs) && AllAccepted(dev, d, pairs)
    ensures DifferentNames(pairs)
  {
    forall i, j | 0 <= i < j < |pairs| ensures pairs[i].name != pairs[j].name {
      assert CheckFault(dev, d, pairs[i]) == 0;
      assert !Repeated(pairs, i);
    }
  }

  // ---- when the fault of the apply phase cannot happen ----

  lemma {:induction false} NamesStay<D(!new)>(dev: Device<D>, d: D, pairs: seq<Pair>, name: string)
    requires NamesAreStable(dev)
    ensures Present(dev, WriteAll(dev, d, pairs), name) == Present(dev, d, name)
  {
    hide Present;
    if pairs != [] {
      NamesStay(dev, d, pairs[..|pairs| - 1], name);
    }
  }

  // A request that passed the check phase finds all its names again in the apply phase, as long
  // as writing a parameter does not change which names exist.
  lemma CheckedStaysThere<D(!new)>(dev: Device<D>, d: D, pairs: seq<Pair>)
    requires NamesAreStable(dev) && AllAccepted(dev, d, pairs)
    ensures StaysThere(dev, d, pairs)
  {
    hide NamesAreStable, ParamNamed;
    forall i | 0 <= i < |pairs| ensures Present(dev, WriteAll(dev, d, pairs[..i]), pairs[i].name) {
      assert CheckFault(dev, d, pairs[i]) == 0;
      NamesStay(dev, d, pairs[..i], pairs[i].name);
    }
  }
}
