/** The walk of DataModel.dfy as the source does it: a context that the macros and callbacks update
    in place, with early returns. */
module DataModelWalk {
  import opened Notifications
  import opened ParamList
  import opened Options
  import opened DataModel
  import opened DataModelAnswers

  // struct dmctx, as far as the commands use it; 'mode' stands for method_obj and method_param,
  // and 'found' is the parameter whose callback stopped the walk.
  class DmCtx {
    var stop: bool
    var tree: bool
    var matched: bool
    var faultcode: int
    var nextLevel: bool
    var inParam: string
    var currentObj: string
    var mode: Mode
    var list: seq<Param>
    var found: Option<Visit>

    constructor ()
      ensures list == []
    {
      stop, tree, matched, faultcode, nextLevel, inParam, currentObj := false, false, false, 0, false, "", "";
      mode, list, found := Mode(Values, Everything, false), [], None;
    }

    // What a caller sees after a step that returned this error code.
    ghost function Now(error: int): Ctx
      reads this
    {
      Ctx(stop, if stop then error else 0, faultcode, list, found)
    }

    // The callbacks for objects.
    method MethodObj(permission: string) returns (error: int)
      requires !stop
      modifies this`faultcode, this`list
      ensures Now(error) == Seen(old(Now(0)), mode, inParam, Visit(true, currentObj, permission, "", "", false))
    {
      hide Contains, UpToDot;
      error := 0;
      if mode.scope == Everything {
        if mode.command == Names {
          list := AddInPlace(list, Param(currentObj, permission, ""));
        }
        return;
      }
      if mode.scope == Below && Contains(currentObj, inParam) {
        faultcode := 0;
        if mode.command == Names {
          var nl1 := CheckObjIsNl1(currentObj, inParam, 2);
          if !mode.nextLevel || nl1 {
            list := AddInPlace(list, Param(currentObj, permission, ""));
          }
        }
        return;
      }
      error := FAULT_9005;
    }

    // The callbacks for parameters. Those of a set command go on with the parameter they found.
    method MethodParam(lastname: string, permission: string, value: string, kind: string, hasSet: bool)
      returns (error: int)
      requires !stop
      modifies this`faultcode, this`list, this`stop, this`found
      ensures Now(error)
           == Seen(old(Now(0)), mode, inParam, Visit(false, currentObj + lastname, permission, value, kind, hasSet))
    {
      hide Contains, UpToDot;
      error := 0;
      var fullParam := currentObj + lastname;
      var item := if mode.command == Names then Param(fullParam, permission, "")
      else Param(fullParam, value, if kind != "" then kind else "xsd:string");
      match mode.scope {
        case Everything =>
          if mode.command == Values || (mode.command == Names && !mode.nextLevel) {
            list := AddInPlace(list, item);
          }
        case Exact =>
          if inParam != fullParam {
            return FAULT_9005;
          }
          stop, found := true, Some(Visit(false, fullParam, permission, value, kind, hasSet));
          if mode.command == Names && mode.nextLevel {
            return FAULT_9003;
          }
          if mode.command != Update {
            list := AddInPlace(list, item);
          }
        case Below =>
          if !Contains(fullParam, inParam) {
            return FAULT_9005;
          }
          faultcode := 0;
          var nl1 := CheckObjIsNl1(fullParam, inParam, 1);
          if mode.command == Values || (mode.command == Names && (!mode.nextLevel || nl1)) {
            list := AddInPlace(list, item);
          }
      }
    }

    // IF_MATCH
    method IfMatch(prefix: string)
      modifies this`matched, this`currentObj
      ensures matched == (tree || Matches(inParam, prefix))
      ensures currentObj == if tree then old(currentObj) else prefix
    {
      matched := tree;
      if !tree {
        currentObj := prefix;
        if Contains(inParam, currentObj) || (Contains(currentObj, inParam) && IsObject(inParam)) {
          matched := true;
        }
      }
    }

    // The body of an entry function, in a block that matched.
    method WalkItems(e: Entry) returns (error: int)
      requires !stop && tree == WholeTree(inParam)
      modifies this`stop, this`matched, this`currentObj, this`faultcode, this`list, this`found
      ensures (Now(error), currentObj) == WalkFrom(old(Now(0)), old(currentObj), mode, inParam, e, 0)
      decreases e, 0
    {
      hide Contains, Matches, Seen;
      error := 0;
      var k := 0;
      while k < |e.items|
        invariant k <= |e.items| && !stop
        invariant WalkFrom(old(Now(0)), old(currentObj), mode, inParam, e, 0)
               == WalkFrom(Now(0), currentObj, mode, inParam, e, k)
      {
        match e.items[k] {
          case DmObject(name, permission) =>
            currentObj := name;
            error := MethodObj(permission);
          case DmParam(lastname, permission, value, kind, hasSet) =>
            error := MethodParam(lastname, permission, value, kind, hasSet);
          case SubEntry(sub) =>
            error := WalkEntry(sub);
        }
        if stop {
          return;
        }
        k := k + 1;
      }
      error := 0;
    }

    // An entry function: IF_MATCH and its block.
    method WalkEntry(e: Entry) returns (error: int)
      requires !stop && tree == WholeTree(inParam)
      modifies this`stop, this`matched, this`currentObj, this`faultcode, this`list, this`found
      ensures (Now(error), currentObj) == WalkInto(old(Now(0)), old(currentObj), mode, inParam, e)
      decreases e, 1
    {
      hide Contains, Matches, WalkFrom;
      IfMatch(e.prefix);
      if matched {
        error := WalkItems(e);
        return;
      }
      error := FAULT_9005;
    }

    // IF_MATCH_ROOT and the block of entry_method_root
    method EntryMethodRoot(root: Entry) returns (error: int)
      requires !stop && tree == WholeTree(inParam)
      modifies this`stop, this`matched, this`currentObj, this`faultcode, this`list, this`found
      ensures (Now(error), currentObj) == WalkRoot(old(Now(0)), old(currentObj), mode, inParam, root)
    {
      hide WalkFrom;
      matched := tree;
      if !tree && Contains(inParam, DMROOT) && '.' !in inParam[|DMROOT|..] {
        matched := true;
      }
      hide Contains;
      if matched {
        error := WalkItems(root);
        return;
      }
      error := FAULT_9005;
    }

    // The loop over prefix_methods.
    method WalkTree(t: Tree) returns (error: int)
      requires !stop && tree == WholeTree(inParam)
      modifies this`stop, this`matched, this`currentObj, this`faultcode, this`list, this`found
      ensures (Now(error), currentObj) == Walk(old(Now(0)), old(currentObj), mode, inParam, t)
      ensures !stop ==> error == faultcode
    {
      hide WalkRoot, WalkInto;
      error := EntryMethodRoot(t.root);
      if stop {
        return;
      }
      var i := 0;
      assert t.tops[0..] == t.tops;
      while i < |t.tops|
        invariant i <= |t.tops| && !stop
        invariant Walk(old(Now(0)), old(currentObj), mode, inParam, t)
               == WalkTops(Now(0), currentObj, mode, inParam, t.tops[i..])
      {
        assert t.tops[i..][1..] == t.tops[i + 1..];
        error := WalkEntry(t.tops[i]);
        if stop {
          return;
        }
        i := i + 1;
      }
      error := faultcode;
    }

    // dm_entry_get_value
    method DmEntryGetValue(t: Tree) returns (error: int)
      requires !stop && tree == WholeTree(inParam)
      modifies this
      ensures (error, list) == ValueResponse(t, inParam, old(list), old(currentObj))
      ensures inParam == old(inParam)
    {
      hide Walk;
      faultcode, found := FAULT_9005, None;
      if inParam == "" || inParam in t.prefixes {
        mode := Mode(Values, Everything, false);
        faultcode := 0;
      } else if IsObject(inParam) {
        mode := Mode(Values, Below, false);
      } else {
        mode := Mode(Values, Exact, false);
      }
      error := WalkTree(t);
    }

    // dm_entry_get_name
    method DmEntryGetName(t: Tree) returns (error: int)
      requires !stop && tree == WholeTree(inParam)
      modifies this
      ensures (error, list) == NameResponse(t, inParam, old(nextLevel), old(list), old(currentObj))
      ensures inParam == old(inParam)
    {
      hide Walk, WalkRoot;
      faultcode, found := FAULT_9005, None;
      if inParam == "" && nextLevel {
        mode := Mode(Names, Everything, true);
        error := EntryMethodRoot(t.root);
        return 0;
      }
      if inParam == "" || inParam in t.prefixes {
        if !nextLevel {
          mode := Mode(Names, Everything, false);
          faultcode := 0;
        } else {
          mode := Mode(Names, Below, true);
        }
      } else if IsObject(inParam) {
        mode := Mode(Names, Below, nextLevel);
      } else {
        mode := Mode(Names, Exact, nextLevel);
      }
      error := WalkTree(t);
    }

    // The search of dm_entry_set_value: 9005, or 'found' is the parameter for its callback.
    method DmEntrySetValue(t: Tree) returns (error: int)
      requires !stop && tree == WholeTree(inParam)
      modifies this
      ensures (error, found) == SetSearch(t, old(inParam), old(Now(0)), old(currentObj))
    {
      hide Walk;
      found := None;
      if inParam == "" || IsObject(inParam) {
        return FAULT_9005;
      }
      mode := SET_MODE;
      error := WalkTree(t);
      if !stop {
        error := FAULT_9005;
      }
    }

    // dm_entry_param_method for CMD_GET_VALUE and CMD_GET_NAME; level is its argument for the latter.
    method DmEntryParamMethod(t: Tree, names: bool, inparam: string, level: Option<string>) returns (fault: int)
      modifies this
      ensures (fault, list) == Response(t, names, inparam, level, old(list), old(currentObj))
      ensures old(list) == [] && WellFormedTree(t) && (inparam != "." ==> PathOk(inparam)) ==>
                Right(t, names, inparam, level, fault, list)
    {
      if list == [] && WellFormedTree(t) && (inparam != "." ==> PathOk(inparam)) {
        ResponseIsRight(t, names, inparam, level, currentObj);
      }
      hide ValueResponse, NameResponse, WellFormedTree, PathOk, Right;
      inParam := inparam;
      tree := inParam == "" || inParam == DMROOT;
      stop := false;
      if inParam == "." {
        return FAULT_9005;
      }
      if !names {
        fault := DmEntryGetValue(t);
      } else {
        nextLevel := level.Some? && StringToBool(level.value) == Some(true);
        if level.Some? && StringToBool(level.value).Some? {
          fault := DmEntryGetName(t);
        } else {
          fault := FAULT_9003;
        }
      }
    }
  }
}
