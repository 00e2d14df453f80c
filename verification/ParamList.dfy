/** The sorted parameter lists of dm/dmcwmp.c (add_list_paramameter) and event.c
    (add_dm_parameter_tolist with no data): ascending by strcmp, the first entry for a name kept. */
module ParamList {

  datatype Param = Param(name: string, data: string, kind: string)

  // strcmp(s, t) < 0
  predicate Less(s: string, t: string) {
    if t == "" then false
    else if s == "" then true
    else s[0] < t[0] || (s[0] == t[0] && Less(s[1..], t[1..]))
  }

  lemma {:induction false} LessTotal(s: string, t: string)
    ensures s == t || Less(s, t) || Less(t, s)
    ensures !(Less(s, t) && Less(t, s))
    ensures !Less(s, s)
  {
    if s != "" && t != "" {
      LessTotal(s[1..], t[1..]);
      assert s == [s[0]] + s[1..] && t == [t[0]] + t[1..];
    }
    if s != "" {
      LessTotal(s[1..], s[1..]);
    }
  }

  // s and t differ first at k, where s ends or has the smaller character.
  predicate DiffersAt(s: string, t: string, k: nat) {
    k <= |s| && k < |t| && s[..k] == t[..k] && (k == |s| || s[k] < t[k])
  }

  lemma {:induction false} LessWhen(s: string, t: string, k: nat)
    requires DiffersAt(s, t, k)
    ensures Less(s, t)
    decreases k
  {
    if k > 0 {
      assert s[0] == s[..k][0] == t[..k][0] == t[0];
      assert s[1..][..k - 1] == s[..k][1..] && t[1..][..k - 1] == t[..k][1..];
      LessWhen(s[1..], t[1..], k - 1);
    }
  }

  lemma {:induction false} LessWhere(s: string, t: string) returns (k: nat)
    requires Less(s, t)
    ensures DiffersAt(s, t, k)
  {
    if s == "" || s[0] < t[0] {
      k := 0;
    } else {
      var j := LessWhere(s[1..], t[1..]);
      k := j + 1;
      assert s[..k] == [s[0]] + s[1..][..j] && t[..k] == [t[0]] + t[1..][..j];
    }
  }

  // The first difference decides, and a string that ends earlier comes first.
  lemma LessIff(s: string, t: string)
    ensures Less(s, t) <==> exists k: nat :: DiffersAt(s, t, k)
  {
    if Less(s, t) {
      var k := LessWhere(s, t);
    }
    if k: nat :| DiffersAt(s, t, k) {
      LessWhen(s, t, k);
    }
  }

  lemma {:induction false} LessTransitive(s: string, t: string, u: string)
    requires Less(s, t) && Less(t, u)
    ensures Less(s, u)
  {
    if s != "" && s[0] == t[0] == u[0] {
      LessTransitive(s[1..], t[1..], u[1..]);
    }
  }

  ghost predicate Ascending(list: seq<Param>) {
    forall i, j :: 0 <= i < j < |list| ==> Less(list[i].name, list[j].name)
  }

  function Insert(list: seq<Param>, p: Param): seq<Param> {
    if list == [] then [p]
    else if list[0].name == p.name then list
    else if Less(p.name, list[0].name) then [p] + list
    else [list[0]] + Insert(list[1..], p)
  }

  predicate HasName(list: seq<Param>, name: string) {
    exists i :: 0 <= i < |list| && list[i].name == name
  }

  // An ascending list stays ascending, gains p unless its name was there, and loses nothing.
  lemma {:induction false} InsertMeans(list: seq<Param>, p: Param)
    requires Ascending(list)
    ensures Ascending(Insert(list, p))
    ensures forall x :: x in Insert(list, p) <==> x in list || (x == p && !HasName(list, p.name))
  {
    if list == [] {
    } else if list[0].name == p.name {
      assert HasName(list, p.name);
    } else if Less(p.name, list[0].name) {
      forall i | 0 <= i < |list| ensures Less(p.name, list[i].name) && list[i].name != p.name {
        if i > 0 {
          LessTransitive(p.name, list[0].name, list[i].name);
        }
        LessTotal(p.name, list[i].name);
      }
    } else {
      LessTotal(p.name, list[0].name);
      InsertMeans(list[1..], p);
      var rest := Insert(list[1..], p);
      assert forall x :: x in list <==> x == list[0] || x in list[1..];
      assert HasName(list, p.name) <==> HasName(list[1..], p.name) by {
        if i :| 0 <= i < |list| && list[i].name == p.name {
          assert list[1..][i - 1] == list[i];
        }
      }
      forall j | 0 <= j < |rest| ensures Less(list[0].name, rest[j].name) {
        assert rest[j] in list[1..] || rest[j] == p;
        if rest[j] in list[1..] {
          var k :| 0 <= k < |list[1..]| && list[1..][k] == rest[j];
          assert list[k + 1] == rest[j];
        }
      }
    }
  }

  // Any list keeps its members and has the name of p afterwards.
  lemma {:induction false} InsertKeeps(list: seq<Param>, p: Param)
    ensures forall x :: x in list ==> x in Insert(list, p)
    ensures HasName(Insert(list, p), p.name)
  {
    if list == [] || list[0].name == p.name || Less(p.name, list[0].name) {
      assert Insert(list, p)[0].name == p.name;
    } else {
      InsertKeeps(list[1..], p);
      var i :| 0 <= i < |Insert(list[1..], p)| && Insert(list[1..], p)[i].name == p.name;
      assert Insert(list, p)[i + 1].name == p.name;
      assert list == [list[0]] + list[1..];
    }
  }

  // An ascending list is determined by its members.
  lemma {:induction false} AscendingUnique(a: seq<Param>, b: seq<Param>)
    requires Ascending(a) && Ascending(b)
    requires forall x :: x in a <==> x in b
    ensures a == b
  {
    assert (a != [] ==> a[0] in a) && (b != [] ==> b[0] in b);
    if a == [] || b == [] {
    } else {
      assert a[0] in b && b[0] in a;
      var i :| 0 <= i < |b| && b[i] == a[0];
      var j :| 0 <= j < |a| && a[j] == b[0];
      LessTotal(a[0].name, b[0].name);
      assert a[0] == b[0];
      forall x ensures x in a[1..] <==> x in b[1..] {
        LessTotal(a[0].name, a[0].name);
        TailMembers(a, x);
        TailMembers(b, x);
      }
      AscendingUnique(a[1..], b[1..]);
    }
  }

  lemma TailMembers(a: seq<Param>, x: Param)
    requires a != [] && Ascending(a)
    ensures x in a[1..] <==> x in a && x != a[0]
  {
    LessTotal(a[0].name, a[0].name);
    if x in a && x != a[0] {
      var k :| 0 <= k < |a| && a[k] == x;
      assert a[1..][k - 1] == x;
    }
  }

  // The loop of both functions.
  method AddInPlace(list: seq<Param>, p: Param) returns (r: seq<Param>)
    ensures r == Insert(list, p)
  {
    var i := 0;
    while i < |list|
      invariant i <= |list|
      invariant Insert(list, p) == list[..i] + Insert(list[i..], p)
    {
      if list[i].name == p.name {
        assert list[..i] + list[i..] == list;
        return list;
      } else if Less(p.name, list[i].name) {
        break;
      }
      assert list[i..][1..] == list[i + 1..];
      i := i + 1;
    }
    r := list[..i] + [p] + list[i..];
  }
}
