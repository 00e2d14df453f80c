/** What GetParameterValues and GetParameterNames answer, in terms of the full enumeration and of
    nothing else: which names are listed, with which data, and which fault is given. */
module DataModelAnswers {
  import opened Notifications
  import opened ParamList
  import opened Options
  import opened DataModel

  // ---- the promise ----

  // "true" and "false" in any case, "1" and "0".
  predicate SaysTrue(v: string) {
    v == "1" || (|v| == 4 && v[0] in "tT" && v[1] in "rR" && v[2] in "uU" && v[3] in "eE")
  }

  predicate SaysFalse(v: string) {
    v == "0" || (|v| == 5 && v[0] in "fF" && v[1] in "aA" && v[2] in "lL" && v[3] in "sS" && v[4] in "eE")
  }

  // The path is empty, names the object around the visit, or the visit itself.
  predicate Reaches(path: string, name: string) {
    path == "" || path == name || (IsObject(path) && path <= name)
  }

  // Values: every parameter that the path reaches. Names: every object and parameter, or with
  // NextLevel the direct children; the root for an empty path, nothing for a parameter.
  predicate IsAsked(names: bool, path: string, nextLevel: bool, v: Visit) {
    if !names then !v.isObject && Reaches(path, v.name)
    else if !nextLevel then Reaches(path, v.name)
    else if path == "" then v.name == DMROOT
    else IsObject(path) && IsChild(path, v.name)
  }

  predicate IsEntryOf(names: bool, v: Visit, p: Param) {
    && p.name == v.name
    && (names ==> p.data == v.permission && p.kind == "")
    && (!names ==> p.data == v.value && p.kind == if v.kind == "" then "xsd:string" else v.kind)
  }

  // The list has exactly the names asked for, in order, each with the data of a visit.
  ghost predicate RightList(t: Tree, names: bool, path: string, nextLevel: bool, list: seq<Param>) {
    && Ascending(list)
    && (forall n :: HasName(list, n) <==> exists v :: v in All(t) && v.name == n && IsAsked(names, path, nextLevel, v))
    && forall p :: p in list ==> exists v :: v in All(t) && IsAsked(names, path, nextLevel, v) && IsEntryOf(names, v, p)
  }

  // No fault for the whole tree, or when the path reaches something; NextLevel on a parameter is an
  // invalid argument.
  ghost predicate RightFault(t: Tree, names: bool, path: string, nextLevel: bool, fault: int) {
    var reached := exists v :: v in All(t) && Reaches(path, v.name);
    if path == "" || (path in t.prefixes && !nextLevel) then fault == 0
    else if !reached then fault == 9005
    else fault == if nextLevel && !IsObject(path) then 9003 else 0
  }

  ghost predicate Right(t: Tree, names: bool, path: string, level: Option<string>, fault: int, list: seq<Param>) {
    if path == "." then fault == 9005 && list == []
    else if !names then RightList(t, false, path, false, list) && RightFault(t, false, path, false, fault)
    else if level.None? || !(SaysTrue(level.value) || SaysFalse(level.value)) then fault == 9003 && list == []
    else
      RightList(t, true, path, SaysTrue(level.value), list) && RightFault(t, true, path, SaysTrue(level.value), fault)
  }

  // ---- the proof ----

  lemma LevelMeans(v: string)
    ensures StringToBool(v) == if SaysTrue(v) then Some(true) else if SaysFalse(v) then Some(false) else None
  {
    SameTrue(v);
    SameFalse(v);
    hide HeaderFields.SameName;
  }

  lemma SameTrue(v: string)
    ensures HeaderFields.SameName(v, "true") <==>
      |v| == 4 && v[0] in "tT" && v[1] in "rR" && v[2] in "uU" && v[3] in "eE"
  {
    if |v| == 4 {
      assert HeaderFields.SameName(v, "true") <==>
        HeaderFields.Lower(v[0]) == 't' && HeaderFields.Lower(v[1]) == 'r' && HeaderFields.Lower(v[2]) == 'u'
        && HeaderFields.Lower(v[3]) == 'e';
    }
  }

  lemma SameFalse(v: string)
    ensures HeaderFields.SameName(v, "false") <==>
      |v| == 5 && v[0] in "fF" && v[1] in "aA" && v[2] in "lL" && v[3] in "sS" && v[4] in "eE"
  {
    if |v| == 5 {
      assert HeaderFields.SameName(v, "false") <==>
        HeaderFields.Lower(v[0]) == 'f' && HeaderFields.Lower(v[1]) == 'a' && HeaderFields.Lower(v[2]) == 'l'
        && HeaderFields.Lower(v[3]) == 's' && HeaderFields.Lower(v[4]) == 'e';
    }
  }

  lemma {:induction false} ChosenMeans(mode: Mode, inParam: string, vs: seq<Visit>, p: Param)
    ensures p in Chosen(mode, inParam, vs) <==> exists v :: v in vs && Picked(mode, inParam, v) && p == ItemOf(mode, v)
    decreases |vs|
  {
    hide Picked, ItemOf;
    if vs != [] {
      ChosenMeans(mode, inParam, vs[1..], p);
      assert vs == [vs[0]] + vs[1..];
    }
  }

  // The mode picks what is asked for.
  ghost predicate Fitting(mode: Mode, path: string, vs: seq<Visit>, names: bool, nextLevel: bool) {
    && mode.command == (if names then Names else Values)
    && forall v :: v in vs ==> (Picked(mode, path, v) <==> IsAsked(names, path, nextLevel, v))
  }

  lemma EntryOfVisit(mode: Mode, names: bool, v: Visit, p: Param)
    requires mode.command == (if names then Names else Values) && p == ItemOf(mode, v)
    ensures IsEntryOf(names, v, p)
  {
  }

  lemma ItemOfEntry(mode: Mode, v: Visit)
    ensures ItemOf(mode, v).name == v.name
  {
  }

  lemma ChosenIsRight(t: Tree, mode: Mode, path: string, vs: seq<Visit>, names: bool, nextLevel: bool)
    requires Fitting(mode, path, vs, names, nextLevel)
    requires forall v :: v in vs ==> v in All(t)
    requires forall v :: v in All(t) && IsAsked(names, path, nextLevel, v) ==> v in vs
    ensures RightList(t, names, path, nextLevel, InsertAll([], Chosen(mode, path, vs)))
  {
    var chosen := Chosen(mode, path, vs);
    var list := InsertAll([], chosen);
    InsertAllMeans([], chosen);
    NoName();
    hide Chosen, Picked, IsAsked, ItemOf, All, InsertAll, Ascending, IsEntryOf;
    forall n ensures HasName(list, n)
        <==> exists v :: v in All(t) && v.name == n && IsAsked(names, path, nextLevel, v) {
      if HasName(chosen, n) {
        var i :| 0 <= i < |chosen| && chosen[i].name == n;
        ChosenMeans(mode, path, vs, chosen[i]);
        var v :| v in vs && Picked(mode, path, v) && chosen[i] == ItemOf(mode, v);
        ItemOfEntry(mode, v);
      }
      if v :| v in All(t) && v.name == n && IsAsked(names, path, nextLevel, v) {
        ChosenMeans(mode, path, vs, ItemOf(mode, v));
        ItemOfEntry(mode, v);
        var i :| 0 <= i < |chosen| && chosen[i] == ItemOf(mode, v);
        assert HasName(chosen, n);
      }
    }
    forall p | p in list
      ensures exists v :: v in All(t) && IsAsked(names, path, nextLevel, v) && IsEntryOf(names, v, p)
    {
      ChosenMeans(mode, path, vs, p);
      var v :| v in vs && Picked(mode, path, v) && p == ItemOf(mode, v);
      EntryOfVisit(mode, names, v, p);
    }
  }

  lemma ValuesFit(t: Tree, path: string)
    requires WellFormedTree(t)
    ensures Fitting(ValueMode(t, path), path, All(t), false, false)
  {
    PrefixesAreObjects(t, path);
    hide All, WellFormedTree;
    forall v | v in All(t) ensures Picked(ValueMode(t, path), path, v) <==> IsAsked(false, path, false, v) {
      AllAreNames(t, v);
    }
  }

  lemma PrefixesAreObjects(t: Tree, path: string)
    requires WellFormedTree(t)
    ensures path in t.prefixes ==> IsObject(path)
    ensures IsObject(path) ==> path != ""
  {
  }

  lemma NamesFit(t: Tree, path: string)
    requires WellFormedTree(t)
    ensures Fitting(NameMode(t, path, false), path, All(t), true, false)
  {
    PrefixesAreObjects(t, path);
    hide All, WellFormedTree;
    forall v | v in All(t) ensures Picked(NameMode(t, path, false), path, v) <==> IsAsked(true, path, false, v) {
      AllAreNames(t, v);
    }
  }

  lemma ChildrenFit(t: Tree, path: string)
    requires WellFormedTree(t) && path != ""
    ensures Fitting(NameMode(t, path, true), path, All(t), true, true)
  {
    PrefixesAreObjects(t, path);
    hide All, WellFormedTree, IsChild, UpToDot;
    forall v | v in All(t) ensures Picked(NameMode(t, path, true), path, v) <==> IsAsked(true, path, true, v) {
      if IsObject(path) {
        NextLevelIsChildren(t, path, v);
      }
    }
  }

  lemma RootFits(t: Tree)
    requires WellFormedTree(t)
    ensures Fitting(Mode(Names, Everything, true), "", Listing(t.root, 0, ""), true, true)
    ensures forall v :: v in Listing(t.root, 0, "") ==> v in All(t)
    ensures forall v :: v in All(t) && v.name == DMROOT ==> v in Listing(t.root, 0, "")
  {
    var vs := Listing(t.root, 0, "");
    forall v | v in vs ensures v in All(t) && (v.isObject <==> v.name == DMROOT) {
      RootListing(t.root, 0, false, "", v);
    }
    forall v | v in All(t) && v.name == DMROOT ensures v in vs {
      if v !in vs {
        var i := TopEntryOf(t.tops, v);
        ListingUnder(t.tops[i], 0, false, "", v);
      }
    }
  }

  // ---- the faults ----

  // What an answer looks for is what the path reaches.
  lemma WantedReached(t: Tree, mode: Mode, path: string)
    requires WellFormedTree(t) && path != ""
    requires if mode.scope == Exact then !IsObject(path) else IsObject(path)
    ensures AnyWanted(mode, path, All(t)) <==> exists v :: v in All(t) && Reaches(path, v.name)
  {
    hide All, WellFormedTree;
    forall v | v in All(t) ensures Wanted(mode, path, v) <==> Reaches(path, v.name) {
      AllAreNames(t, v);
    }
    hide Wanted, Reaches;
    if v :| v in All(t) && Reaches(path, v.name) {
      var i :| 0 <= i < |All(t)| && All(t)[i] == v;
      assert Wanted(mode, path, All(t)[i]);
    }
  }

  lemma ValueFaultIsRight(t: Tree, path: string)
    requires WellFormedTree(t)
    ensures RightFault(t, false, path, false, ValueFault(t, path))
  {
    PrefixesAreObjects(t, path);
    hide All, WellFormedTree, AnyWanted, Reaches;
    if path != "" {
      WantedReached(t, ValueMode(t, path), path);
    }
  }

  lemma NameFaultIsRight(t: Tree, path: string, nextLevel: bool)
    requires WellFormedTree(t)
    ensures RightFault(t, true, path, nextLevel, NameFault(t, path, nextLevel))
  {
    PrefixesAreObjects(t, path);
    hide All, WellFormedTree, AnyWanted, Reaches;
    if path != "" {
      WantedReached(t, NameMode(t, path, nextLevel), path);
    }
  }

  // ---- the theorem ----

  lemma ListIsRight(t: Tree, names: bool, path: string, nextLevel: bool)
    requires WellFormedTree(t) && (!names ==> !nextLevel)
    ensures var chosen :=
        if !names then Chosen(ValueMode(t, path), path, All(t))
        else if path == "" && nextLevel then Chosen(Mode(Names, Everything, true), "", Listing(t.root, 0, ""))
        else Chosen(NameMode(t, path, nextLevel), path, All(t));
      RightList(t, names, path, nextLevel, InsertAll([], chosen))
  {
    if !names {
      ValuesFit(t, path);
      ChosenIsRight(t, ValueMode(t, path), path, All(t), false, false);
    } else if path == "" && nextLevel {
      RootFits(t);
      ChosenIsRight(t, Mode(Names, Everything, true), "", Listing(t.root, 0, ""), true, true);
    } else if nextLevel {
      ChildrenFit(t, path);
      ChosenIsRight(t, NameMode(t, path, true), path, All(t), true, true);
    } else {
      NamesFit(t, path);
      ChosenIsRight(t, NameMode(t, path, false), path, All(t), true, false);
    }
  }

  // On every path that is no path to objects, is ".", or has the root in it, the two queries list
  // exactly what is asked for and give the right fault.
  lemma ResponseIsRight(t: Tree, names: bool, path: string, level: Option<string>, obj: string)
    requires WellFormedTree(t) && (path != "." ==> PathOk(path))
    ensures var r := Response(t, names, path, level, [], obj); Right(t, names, path, level, r.0, r.1)
  {
    EmptyAscends();
    NothingInserted([]);
    ResponseIsAnswer(t, names, path, level, [], obj);
    if level.Some? {
      LevelMeans(level.value);
    }
    var nextLevel := names && level.Some? && SaysTrue(level.value);
    ListIsRight(t, names, path, nextLevel);
    ValueFaultIsRight(t, path);
    NameFaultIsRight(t, path, nextLevel);
    hide WellFormedTree, Response, RightList, RightFault, Chosen, InsertAll, ValueFault, NameFault, StringToBool,
        SaysTrue,
      SaysFalse, PathOk;
  }
}
