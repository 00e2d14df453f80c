/** digestauth.c, lookup_sub_value: the scanner for one value in an Authorization header. Strings
    are C strings without their final NUL; a pointer into one is the suffix it points to. */
module HeaderFields {
  import opened Options

  datatype Field = Field(name: string, value: string)

  // strchr as a position; |s| for the null pointer.
  function Find(s: string, c: char): (i: nat)
    ensures i <= |s| && (i < |s| ==> s[i] == c)
    ensures forall k :: 0 <= k < i ==> s[k] != c
  {
    if s == "" || s[0] == c then 0 else 1 + Find(s[1..], c)
  }

  // t is where a pointer into s can point.
  predicate Suffix(t: string, s: string) {
    |t| <= |s| && s[|s| - |t|..] == t
  }

  lemma SuffixTransitive(t: string, u: string, s: string)
    requires Suffix(t, u) && Suffix(u, s)
    ensures Suffix(t, s)
  {
  }

  lemma SuffixShorter(t: string, s: string)
    requires Suffix(t, s)
    ensures |t| <= |s|
  {
  }

  function DropSpaces(s: string): (t: string)
    ensures Suffix(t, s)
    ensures t != "" ==> t[0] != ' '
  {
    if s != "" && s[0] == ' ' then
      SuffixTransitive(DropSpaces(s[1..]), s[1..], s);
      DropSpaces(s[1..])
    else s
  }

  // What follows the next comma and its spaces; "" when there is no comma.
  function AfterComma(s: string): (t: string)
    ensures (|t| < |s| || t == "") && Suffix(t, s)
  {
    var c := Find(s, ',');
    if c == |s| then "" else
      SuffixTransitive(DropSpaces(s[c + 1..]), s[c + 1..], s);
      DropSpaces(s[c + 1..])
  }

  // The value at the front of v, quoted or up to the next comma, and the text behind it.
  function FrontValue(v: string): (r: Option<(string, string)>)
    ensures r.Some? ==> |r.value.0| + |r.value.1| <= |v|
  {
    if v != "" && v[0] == '\"' then
      var close := Find(v[1..], '\"');
      if close == |v| - 1 then None else Some((v[1..][..close], v[1..][close + 1..]))
    else
      var comma := Find(v, ',');
      Some((v[..comma], v[comma..]))
  }

  // The field at the front of s, and the text behind its value.
  function Front(s: string): (r: Option<(Field, string)>)
    ensures r.Some? ==> |r.value.0.name| + 1 + |r.value.0.value| + |r.value.1| <= |s|
  {
    var eq := Find(s, '=');
    if eq == |s| then None else
      var v := DropSpaces(s[eq + 1..]);
      SuffixShorter(v, s[eq + 1..]);
      var value := FrontValue(v);
      if value.None? then None else Some((Field(s[..eq], value.value.0), value.value.1))
  }

  // The name=value fields that a scan of the whole header passes.
  function Fields(s: string): seq<Field>
    decreases |s|
  {
    var front := Front(s);
    if front.None? then [] else
      SuffixShorter(AfterComma(front.value.1), front.value.1);
      [front.value.0] + Fields(AfterComma(front.value.1))
  }

  function Lower(c: char): char {
    if 'A' <= c <= 'Z' then (c as int + 32) as char else c
  }

  predicate SameName(a: string, b: string) {
    |a| == |b| && forall i :: 0 <= i < |a| ==> Lower(a[i]) == Lower(b[i])
  }

  function FirstValue(fields: seq<Field>, key: string): Option<string> {
    if fields == [] then None
    else if SameName(fields[0].name, key) then Some(fields[0].value)
    else FirstValue(fields[1..], key)
  }

  // What fits into a buffer of the given size together with its NUL; "" stands for length 0.
  function Truncated(v: Option<string>, size: nat): string {
    if v.None? || size == 0 then "" else if |v.value| < size then v.value else v.value[..size - 1]
  }

  // Two names that differ at most in the case of ASCII letters.
  lemma SameNameIff(a: string, b: string)
    ensures SameName(a, b) <==>
      |a| == |b| && forall i :: 0 <= i < |a| ==>
        a[i] == b[i] || ('A' <= a[i] <= 'Z' && b[i] as int == a[i] as int + 32)
        || ('A' <= b[i] <= 'Z' && a[i] as int == b[i] as int + 32)
  {
    hide SameName;
    if |a| == |b| {
      forall i | 0 <= i < |a|
        ensures Lower(a[i]) == Lower(b[i]) <==>
          a[i] == b[i] || ('A' <= a[i] <= 'Z' && b[i] as int == a[i] as int + 32)
          || ('A' <= b[i] <= 'Z' && a[i] as int == b[i] as int + 32)
      {
      }
    }
    SameNameMeans(a, b);
  }

  lemma SameNameMeans(a: string, b: string)
    ensures SameName(a, b) <==> |a| == |b| && forall i :: 0 <= i < |a| ==> Lower(a[i]) == Lower(b[i])
  {
  }

  // What fits is given whole; what does not is cut to leave room for the NUL.
  lemma {:induction false} FirstValueIs(fields: seq<Field>, key: string, size: nat, i: nat)
    requires i < |fields| && SameName(fields[i].name, key) && size > 0
    requires forall j :: 0 <= j < i ==> !SameName(fields[j].name, key)
    ensures FirstValue(fields, key) == Some(fields[i].value)
    ensures |Truncated(FirstValue(fields, key), size)| < size
      && Truncated(FirstValue(fields, key), size) <= fields[i].value
    ensures |fields[i].value| < size ==> Truncated(FirstValue(fields, key), size) == fields[i].value
    ensures |fields[i].value| >= size ==> |Truncated(FirstValue(fields, key), size)| == size - 1
    decreases i
  {
    hide SameName;
    if i > 0 {
      assert forall j :: 0 <= j < i ==> fields[1..][j] == fields[j + 1];
      FirstValueIs(fields[1..], key, size, i - 1);
    }
  }

  // One turn of the scan, from ptr = rest: the field there and where the next turn starts.
  method NextField(rest: string) returns (found: bool, field: Field, next: string)
    ensures !found ==> Fields(rest) == []
    ensures found ==> Fields(rest) == [field] + Fields(next) && |next| < |rest|
  {
    hide Suffix, DropSpaces, AfterComma, Find;
    found, field, next := false, Field("", ""), "";
    var eq := Find(rest, '=');
    if eq == |rest| {
      return;
    }
    var q1 := DropSpaces(rest[eq + 1..]);
    var value, qn;
    if q1 == "" || q1[0] != '"' {
      var q2 := Find(q1, ',');
      value, qn := q1[..q2], q1[q2..];
    } else {
      var q2 := Find(q1[1..], '"');
      if q2 == |q1| - 1 {
        return;
      }
      value, qn := q1[1..][..q2], q1[1..][q2 + 1..];
    }
    found, field, next := true, Field(rest[..eq], value), AfterComma(qn);
    SuffixShorter(next, qn);
    SuffixShorter(q1, rest[eq + 1..]);
  }

  lemma NoFields(key: string, size: nat)
    ensures Fields("") == [] && FirstValue([], key) == None && Truncated(None, size) == ""
  {
  }

  // The copy into dest: as much of the value as fits in front of the NUL.
  method Copied(value: string, size: nat) returns (dest: string)
    requires size > 0
    ensures dest == Truncated(Some(value), size)
  {
    var n := if size > |value| + 1 then |value| + 1 else size;
    dest := value[..n - 1];
  }

  lemma FirstValueStep(field: Field, rest: seq<Field>, key: string)
    ensures FirstValue([field] + rest, key) ==
      if SameName(field.name, key) then Some(field.value) else FirstValue(rest, key)
  {
    assert ([field] + rest)[1..] == rest;
  }

  // lookup_sub_value: what it leaves in dest; "" is the return value 0. The scan stops, for
  // ptr moves forward each turn.
  method LookupSubValue(size: nat, data: string, key: string) returns (dest: string)
    ensures dest == Truncated(FirstValue(Fields(data), key), size)
  {
    if size == 0 {
      return "";
    }
    hide Fields, FirstValue, SameName, Truncated;
    var ptr := data;
    while ptr != ""
      invariant FirstValue(Fields(data), key) == FirstValue(Fields(ptr), key)
      decreases |ptr|
    {
      var found, field, next := NextField(ptr);
      if !found {
        NoFields(key, size);
        return "";
      }
      FirstValueStep(field, Fields(next), key);
      if SameName(field.name, key) {
        dest := Copied(field.value, size);
        return;
      }
      ptr := next;
    }
    NoFields(key, size);
    return "";
  }

  // ---- printing a list of fields and scanning it ----

  datatype Entry = Entry(name: string, value: string, quoted: bool, spaces: nat)

  // 'spaces' blanks stand between the entry and the comma before it.
  predicate Printable(e: Entry) {
    && e.name != "" && e.name[0] != ' ' && '=' !in e.name
    && if e.quoted then '"' !in e.value
       else ',' !in e.value && (e.value != "" ==> e.value[0] != ' ' && e.value[0] != '"')
  }

  function Print(e: Entry): string {
    e.name + "=" + (if e.quoted then "\"" + e.value + "\"" else e.value)
  }

  function Spaces(n: nat): (t: string)
    ensures |t| == n && forall i :: 0 <= i < n ==> t[i] == ' '
  {
    seq(n, _ => ' ')
  }

  function PrintAll(entries: seq<Entry>): string
    decreases |entries|, 0
  {
    if entries == [] then "" else Print(entries[0]) + PrintRest(entries[1..])
  }

  function PrintRest(entries: seq<Entry>): string
    decreases |entries|, 1
  {
    if entries == [] then "" else [','] + (Spaces(entries[0].spaces) + PrintAll(entries))
  }

  function FieldsOf(entries: seq<Entry>): (f: seq<Field>)
    ensures |f| == |entries|
    ensures forall i :: 0 <= i < |f| ==> f[i] == Field(entries[i].name, entries[i].value)
  {
    seq(|entries|, i requires 0 <= i < |entries| => Field(entries[i].name, entries[i].value))
  }

  lemma FindAt(a: string, c: char, b: string)
    requires c !in a
    ensures Find(a + [c] + b, c) == |a|
  {
    var s := a + [c] + b;
    var i := Find(s, c);
    assert s[|a|] == c;
    assert forall k :: 0 <= k < |a| ==> s[k] == a[k] && a[k] in a;
  }

  lemma {:induction false} DropSpacesOf(n: nat, t: string)
    requires t != "" ==> t[0] != ' '
    ensures DropSpaces(Spaces(n) + t) == t
    decreases n
  {
    if n == 0 {
      assert Spaces(0) + t == t;
    } else {
      assert (Spaces(n) + t)[1..] == Spaces(n - 1) + t;
      DropSpacesOf(n - 1, t);
    }
  }

  // The text behind an entry, up to where the next one starts.
  lemma AfterCommaRest(entries: seq<Entry>)
    requires forall e :: e in entries ==> Printable(e)
    ensures AfterComma(PrintRest(entries)) == PrintAll(entries)
  {
    hide DropSpaces, Spaces, PrintAll, AfterComma;
    if entries == [] {
      AfterNothing();
    } else {
      PrintAllStart(entries);
      DropSpacesOf(entries[0].spaces, PrintAll(entries));
      AfterFirstComma(Spaces(entries[0].spaces) + PrintAll(entries));
    }
  }

  lemma AfterNothing()
    ensures AfterComma("") == "" == PrintAll([])
  {
  }

  lemma PrintAllStart(entries: seq<Entry>)
    requires entries != [] && Printable(entries[0])
    ensures PrintAll(entries) != "" && PrintAll(entries)[0] != ' '
  {
    hide Print, PrintRest;
    PrintStart(entries[0], PrintRest(entries[1..]));
  }

  lemma PrintStart(e: Entry, tail: string)
    requires Printable(e)
    ensures Print(e) + tail != "" && (Print(e) + tail)[0] != ' '
  {
    assert Print(e)[0] == e.name[0];
  }

  lemma AfterFirstComma(t: string)
    ensures AfterComma([','] + t) == DropSpaces(t)
  {
    hide DropSpaces;
    assert ([','] + t)[1..] == t;
  }

  lemma FrontOf(name: string, body: string)
    requires '=' !in name && DropSpaces(body) == body
    ensures var v := FrontValue(body);
      Front(name + "=" + body) == if v.None? then None else Some((Field(name, v.value.0), v.value.1))
  {
    hide DropSpaces, Find, FrontValue;
    FindAt(name, '=', body);
    assert (name + "=" + body)[|name| + 1..] == body && (name + "=" + body)[..|name|] == name;
  }

  lemma FrontQuoted(value: string, tail: string)
    requires '"' !in value
    ensures FrontValue("\"" + value + "\"" + tail) == Some((value, tail))
  {
    hide Find;
    var body := ("\"" + value + "\"" + tail)[1..];
    assert body == value + "\"" + tail;
    FindAt(value, '"', tail);
    assert body[|value| + 1..] == tail && body[..|value|] == value;
  }

  lemma OneQuoted(e: Entry, tail: string)
    requires Printable(e) && e.quoted
    ensures Fields(Print(e) + tail) == [Field(e.name, e.value)] + Fields(AfterComma(tail))
  {
    hide AfterComma, Find, Front, FrontValue;
    var body := "\"" + e.value + "\"" + tail;
    assert Print(e) + tail == e.name + "=" + body;
    assert DropSpaces(body) == body;
    FrontOf(e.name, body);
    FrontQuoted(e.value, tail);
  }

  lemma FrontUnquoted(name: string, body: string, n: nat)
    requires '=' !in name && DropSpaces(body) == body && (body == "" || body[0] != '"') && n == Find(body, ',')
    ensures Front(name + "=" + body) == Some((Field(name, body[..n]), body[n..]))
  {
    hide Front, DropSpaces, Find;
    FrontOf(name, body);
  }

  lemma OneUnquoted(e: Entry, rest: seq<Entry>)
    requires Printable(e) && !e.quoted
    ensures Fields(Print(e) + PrintRest(rest)) == [Field(e.name, e.value)] + Fields(AfterComma(PrintRest(rest)))
  {
    hide AfterComma, PrintRest, DropSpaces, Find, Front;
    var body := e.value + PrintRest(rest);
    assert Print(e) + PrintRest(rest) == e.name + "=" + body;
    UnquotedBody(e, rest);
    FrontUnquoted(e.name, body, |e.value|);
    assert body[|e.value|..] == PrintRest(rest) && body[..|e.value|] == e.value;
  }

  lemma OneEntry(e: Entry, rest: seq<Entry>)
    requires Printable(e) && forall f :: f in rest ==> Printable(f)
    ensures Fields(Print(e) + PrintRest(rest)) == [Field(e.name, e.value)] + Fields(PrintAll(rest))
  {
    hide Fields, Print, PrintRest, PrintAll, AfterComma, Printable;
    if e.quoted {
      OneQuoted(e, PrintRest(rest));
    } else {
      OneUnquoted(e, rest);
    }
    AfterCommaRest(rest);
  }

  // Scanning a printed list gives the list back, whatever commas and equal signs its quoted
  // values hold.
  lemma {:induction false} FieldsOfPrint(entries: seq<Entry>)
    requires forall e :: e in entries ==> Printable(e)
    ensures Fields(PrintAll(entries)) == FieldsOf(entries)
    decreases |entries|
  {
    hide Fields, Print, PrintRest, AfterComma, Printable;
    if entries == [] {
      NoFields("", 0);
    } else {
      var e, rest := entries[0], entries[1..];
      assert e in entries;
      OneEntry(e, rest);
      FieldsOfPrint(rest);
      assert FieldsOf(entries) == [Field(e.name, e.value)] + FieldsOf(rest);
    }
  }

  lemma UnquotedBody(e: Entry, rest: seq<Entry>)
    requires Printable(e) && !e.quoted
    ensures var body := e.value + PrintRest(rest);
      DropSpaces(body) == body && Find(body, ',') == |e.value| && (body == "" || body[0] != '"')
  {
    var body := e.value + PrintRest(rest);
    if rest == [] {
      assert body == e.value;
    } else {
      FindAt(e.value, ',', PrintRest(rest)[1..]);
      assert body == e.value + "," + PrintRest(rest)[1..];
    }
  }

  // Looking up a name in a printed list: its value, or nothing.
  lemma {:induction false} LookupPrinted(entries: seq<Entry>, key: string)
    requires forall e :: e in entries ==> Printable(e)
    requires forall i, j :: 0 <= i < j < |entries| ==> !SameName(entries[i].name, entries[j].name)
    ensures FirstValue(Fields(PrintAll(entries)), key).None? <==> forall e :: e in entries ==> !SameName(e.name, key)
    ensures forall e :: e in entries && SameName(e.name, key) ==>
      FirstValue(Fields(PrintAll(entries)), key) == Some(e.value)
  {
    FieldsOfPrint(entries);
    FirstOfFields(entries, key);
  }

  lemma {:induction false} FirstOfFields(entries: seq<Entry>, key: string)
    requires forall i, j :: 0 <= i < j < |entries| ==> !SameName(entries[i].name, entries[j].name)
    ensures FirstValue(FieldsOf(entries), key).None? <==> forall e :: e in entries ==> !SameName(e.name, key)
    ensures forall e :: e in entries && SameName(e.name, key) ==> FirstValue(FieldsOf(entries), key) == Some(e.value)
  {
    if entries != [] {
      assert FieldsOf(entries)[1..] == FieldsOf(entries[1..]);
      FirstOfFields(entries[1..], key);
      assert entries == [entries[0]] + entries[1..];
      forall e | e in entries[1..] && SameName(e.name, key) ensures !SameName(entries[0].name, key) {
        var k :| 0 <= k < |entries[1..]| && entries[1..][k] == e;
        assert entries[k + 1] == e;
      }
    }
  }
}
