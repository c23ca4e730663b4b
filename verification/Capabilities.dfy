/** The capability string (gloox/capabilities.cpp:65-130). */
module Capabilities {
  import opened Text
  import opened StringOrder
  import opened DataFormFields
  import opened DataForms

  datatype Identity = Identity(category: string, kind: string, name: string)

  /** category '/' type '/' '/' name: no language. */
  function IdText(i: Identity): string {
    i.category + "/" + i.kind + "/" + "/" + i.name
  }

  /** Every element's results, one after the other. */
  function FlatMap<A, B>(f: A -> seq<B>, s: seq<A>): seq<B> {
    if s == [] then [] else f(s[0]) + FlatMap(f, s[1..])
  }

  function IdTexts(ids: seq<Identity>): seq<string> {
    FlatMap(IdLine, ids)
  }

  function IdLine(i: Identity): seq<string> { [IdText(i)] }

  function Lines(ss: seq<string>): string {
    if ss == [] then "" else ss[0] + "<" + Lines(ss[1..])
  }

  const FORM_TYPE := "FORM_TYPE"

  function FieldValue(f: Field): string {
    if |f.values| > 0 then f.values[0] else ""
  }

  function FormTypes(fs: seq<Field>): string {
    if fs == [] then ""
    else (if fs[0].name == FORM_TYPE then FieldValue(fs[0]) + "<" else "") + FormTypes(fs[1..])
  }

  /** A `std::map`: sorted by key. */
  datatype Entry = Entry(key: string, values: seq<string>)

  /** `insert`, which does nothing if the key is there. */
  function InsertKey(m: seq<Entry>, e: Entry): seq<Entry> {
    if m == [] then [e]
    else if m[0].key == e.key then m
    else if Leq(e.key, m[0].key) then [e] + m
    else [m[0]] + InsertKey(m[1..], e)
  }

  function InsertFields(m: seq<Entry>, fs: seq<Field>): seq<Entry>
    decreases |fs|
  {
    if fs == [] then m
    else InsertFields(if fs[0].name == FORM_TYPE then m else InsertKey(m, Entry(fs[0].name, fs[0].values)), fs[1..])
  }

  function MapText(m: seq<Entry>): string {
    if m == [] then "" else m[0].key + "<" + Lines(m[0].values) + MapText(m[1..])
  }

  function FormText(form: Option<DataForm>): string {
    if form.None? then "" else FormTypes(form.value.fields) + MapText(InsertFields([], form.value.fields))
  }

  /** What `generate` makes. */
  function Generate(ids: seq<Identity>, features: seq<string>, form: Option<DataForm>): string {
    Lines(Sort(IdTexts(ids))) + Lines(Sort(features)) + FormText(form)
  }

  // ---- the loops of the source ----

  method GenerateString(ids: seq<Identity>, features: seq<string>, form: Option<DataForm>) returns (s: string)
    ensures s == Generate(ids, features, form)
  {
    var sl: seq<string> := [];
    var i := 0;
    while i < |ids|
      invariant i <= |ids| && sl + IdTexts(ids[i..]) == IdTexts(ids)
    {
      NextIdentity(sl, ids, i);
      var id := ids[i].category;
      id := id + "/";
      id := id + ids[i].kind;
      id := id + "/";
      id := id + "/";
      id := id + ids[i].name;
      sl := sl + [id];
      i := i + 1;
    }
    assert sl + IdTexts([]) == sl;
    hide Sort, Lines, FormTypes, MapText, InsertFields, IdTexts;
    sl := Sort(sl);
    s := AddLines("", sl);
    assert s == Lines(sl);
    var f := Sort(features);
    s := AddLines(s, f);
    if form.Some? {
      s := AddForm(s, form.value.fields);
    } else {
      assert s + FormText(form) == s;
    }
  }

  lemma NextIdentity(sl: seq<string>, ids: seq<Identity>, i: nat)
    requires i < |ids|
    ensures sl + IdTexts(ids[i..]) == sl + [IdText(ids[i])] + IdTexts(ids[i + 1..])
  {
    assert ids[i..][1..] == ids[i + 1..];
  }

  method AddLines(s: string, ss: seq<string>) returns (t: string)
    ensures t == s + Lines(ss)
  {
    t := s;
    var i := 0;
    while i < |ss|
      invariant i <= |ss| && t + Lines(ss[i..]) == s + Lines(ss)
    {
      assert ss[i..][1..] == ss[i + 1..];
      t := t + ss[i];
      t := t + "<";
      i := i + 1;
    }
  }

  method AddForm(s: string, fields: seq<Field>) returns (t: string)
    ensures t == s + FormTypes(fields) + MapText(InsertFields([], fields))
  {
    hide FORM_TYPE, InsertKey;
    t := s;
    var m: seq<Entry> := [];
    var i := 0;
    while i < |fields|
      invariant i <= |fields| && t + FormTypes(fields[i..]) == s + FormTypes(fields)
      invariant InsertFields(m, fields[i..]) == InsertFields([], fields)
    {
      NextFormField(t, m, fields, i);
      if fields[i].name == FORM_TYPE {
        t := t + FieldValue(fields[i]);
        t := t + "<";
      } else {
        m := InsertKey(m, Entry(fields[i].name, fields[i].values));
      }
      i := i + 1;
    }
    assert t + "" == t;
    hide FormTypes, MapText, InsertFields;
    t := AddMap(t, m);
  }

  lemma NextFormField(t: string, m: seq<Entry>, fields: seq<Field>, i: nat)
    requires i < |fields|
    ensures
      if fields[i].name == FORM_TYPE then
        && t + FormTypes(fields[i..]) == t + FieldValue(fields[i]) + "<" + FormTypes(fields[i + 1..])
        && InsertFields(m, fields[i..]) == InsertFields(m, fields[i + 1..])
      else
        && FormTypes(fields[i..]) == FormTypes(fields[i + 1..])
        && InsertFields(m, fields[i..]) == InsertFields(InsertKey(m, Entry(fields[i].name, fields[i].values)), fields[i + 1..])
  {
    hide FORM_TYPE, InsertKey, FieldValue;
    assert fields[i..][1..] == fields[i + 1..];
  }

  method AddMap(s: string, m: seq<Entry>) returns (t: string)
    ensures t == s + MapText(m)
  {
    t := s;
    var i := 0;
    while i < |m|
      invariant i <= |m| && t + MapText(m[i..]) == s + MapText(m)
    {
      assert m[i..][1..] == m[i + 1..];
      t := t + m[i].key;
      t := t + "<";
      t := AddLines(t, m[i].values);
      i := i + 1;
    }
  }

  // ---- the order does not matter ----

  lemma {:induction false} FlatMapAppend<A, B>(f: A -> seq<B>, a: seq<A>, b: seq<A>)
    ensures FlatMap(f, a + b) == FlatMap(f, a) + FlatMap(f, b)
  {
    if a == [] {
      assert a + b == b;
    } else {
      assert (a + b)[1..] == a[1..] + b;
      FlatMapAppend(f, a[1..], b);
    }
  }

  lemma FlatMapPick<A, B>(f: A -> seq<B>, s: seq<A>, i: nat)
    requires i < |s|
    ensures multiset(FlatMap(f, s)) == multiset(f(s[i])) + multiset(FlatMap(f, s[..i] + s[i + 1..]))
    ensures multiset(s[..i] + s[i + 1..]) == multiset(s) - multiset{s[i]}
  {
    Around(s, i);
    FlatMapAppend(f, s[..i], s[i..]);
    FlatMapAppend(f, s[..i], s[i + 1..]);
    FlatMapHead(f, s[i..]);
    hide FlatMap;
  }

  lemma FlatMapHead<A, B>(f: A -> seq<B>, s: seq<A>)
    requires s != []
    ensures FlatMap(f, s) == f(s[0]) + FlatMap(f, s[1..])
  {
  }

  lemma Around<A>(s: seq<A>, i: nat)
    requires i < |s|
    ensures s == s[..i] + s[i..] && s[i..][0] == s[i] && s[i..][1..] == s[i + 1..]
    ensures multiset(s[..i] + s[i + 1..]) == multiset(s) - multiset{s[i]}
  {
    assert s == s[..i] + [s[i]] + s[i + 1..];
  }

  /** The same elements have the same results. */
  lemma {:induction false} FlatMapPermutation<A, B>(f: A -> seq<B>, a: seq<A>, b: seq<A>)
    requires multiset(a) == multiset(b)
    ensures multiset(FlatMap(f, a)) == multiset(FlatMap(f, b))
    decreases |a|
  {
    SameLength(a, b);
    if a != [] {
      TailMultiset(a);
      var i := Where(b, a[0]);
      FlatMapPick(f, b, i);
      FlatMapPermutation(f, a[1..], b[..i] + b[i + 1..]);
    }
  }

  predicate DistinctNames(fs: seq<Field>) {
    forall i, j | 0 <= i < j < |fs| :: fs[i].name != fs[j].name
  }

  function Entries(fs: seq<Field>): seq<Entry> {
    FlatMap(EntryOf, fs)
  }

  function EntryOf(f: Field): seq<Entry> { if f.name == FORM_TYPE then [] else [Entry(f.name, f.values)] }

  function TypeValues(fs: seq<Field>): seq<string> {
    FlatMap(TypeOf, fs)
  }

  function TypeOf(f: Field): seq<string> { if f.name == FORM_TYPE then [FieldValue(f)] else [] }

  predicate StrictlySorted(m: seq<Entry>)
    decreases |m|
  {
    |m| <= 1 || (Leq(m[0].key, m[1].key) && m[0].key != m[1].key && StrictlySorted(m[1..]))
  }

  lemma {:induction false} InsertKeySorted(m: seq<Entry>, e: Entry)
    requires StrictlySorted(m)
    ensures StrictlySorted(InsertKey(m, e))
    ensures m != [] && InsertKey(m, e)[0].key != m[0].key ==> InsertKey(m, e)[0] == e
    decreases |m|
  {
    if m != [] && m[0].key != e.key {
      LeqTotal(e.key, m[0].key);
      if !Leq(e.key, m[0].key) {
        InsertKeySorted(m[1..], e);
      }
    }
  }

  lemma {:induction false} InsertKeyAdds(m: seq<Entry>, e: Entry)
    requires forall i | 0 <= i < |m| :: m[i].key != e.key
    ensures multiset(InsertKey(m, e)) == multiset(m) + multiset{e}
    decreases |m|
  {
    if m != [] {
      TailMultiset(m);
      InsertKeyAdds(m[1..], e);
    }
  }

  lemma FirstEntry(fs: seq<Field>)
    requires fs != []
    ensures multiset(Entries(fs)) ==
      multiset(Entries(fs[1..])) + if fs[0].name == FORM_TYPE then multiset{} else multiset{Entry(fs[0].name, fs[0].values)}
  {
    FlatMapHead(EntryOf, fs);
    hide FlatMap, FORM_TYPE;
  }

  /** No key is the name of a field. */
  predicate Apart(m: seq<Entry>, fs: seq<Field>) {
    forall i, j | 0 <= i < |m| && 0 <= j < |fs| :: m[i].key != fs[j].name
  }

  /** With distinct names, the map holds the fields. */
  lemma {:induction false} InsertFieldsAdds(m: seq<Entry>, fs: seq<Field>)
    requires StrictlySorted(m) && DistinctNames(fs)
    requires Apart(m, fs)
    ensures StrictlySorted(InsertFields(m, fs))
    ensures multiset(InsertFields(m, fs)) == multiset(m) + multiset(Entries(fs))
    decreases |fs|
  {
    hide InsertKey, StrictlySorted, FORM_TYPE;
    if fs != [] {
      FirstEntry(fs);
      ApartTail(m, fs);
      hide Entries, Apart, DistinctNames;
      if fs[0].name == FORM_TYPE {
        InsertFieldsAdds(m, fs[1..]);
      } else {
        var e := Entry(fs[0].name, fs[0].values);
        InsertKeySorted(m, e);
        InsertKeyAdds(m, e);
        OtherKeys(m, e, fs[1..]);
        InsertFieldsAdds(InsertKey(m, e), fs[1..]);
      }
    }
  }

  lemma ApartTail(m: seq<Entry>, fs: seq<Field>)
    requires fs != [] && Apart(m, fs) && DistinctNames(fs)
    ensures Apart(m, fs[1..]) && DistinctNames(fs[1..])
    ensures Apart([Entry(fs[0].name, fs[0].values)], fs[1..])
  {
  }

  lemma {:induction false} OtherKeys(m: seq<Entry>, e: Entry, fs: seq<Field>)
    requires Apart(m, fs) && Apart([e], fs)
    ensures Apart(InsertKey(m, e), fs)
    decreases |m|
  {
    if m != [] {
      OtherKeys(m[1..], e, fs);
    }
  }

  lemma {:induction false} FirstKey(m: seq<Entry>, i: nat)
    requires StrictlySorted(m) && i < |m|
    ensures Leq(m[0].key, m[i].key)
    ensures m[i].key == m[0].key ==> i == 0
    decreases |m|
  {
    LeqTotal(m[0].key, m[0].key);
    if i > 0 {
      FirstKey(m[1..], i - 1);
      LeqTransitive(m[0].key, m[1].key, m[i].key);
      LeqTotal(m[0].key, m[1].key);
    }
  }

  lemma SameFirst(a: seq<Entry>, b: seq<Entry>)
    requires StrictlySorted(a) && StrictlySorted(b) && multiset(a) == multiset(b) && a != [] && b != []
    ensures a[0] == b[0]
  {
    TailMultiset(a);
    TailMultiset(b);
    var i := Where(b, a[0]);
    var j := Where(a, b[0]);
    FirstKey(b, i);
    FirstKey(a, j);
    LeqTotal(a[0].key, b[0].key);
  }

  lemma {:induction false} MapUnique(a: seq<Entry>, b: seq<Entry>)
    requires StrictlySorted(a) && StrictlySorted(b) && multiset(a) == multiset(b)
    ensures a == b
    decreases |a|
  {
    SameLength(a, b);
    if a != [] {
      SameFirst(a, b);
      TailMultiset(a);
      TailMultiset(b);
      hide Leq;
      MapUnique(a[1..], b[1..]);
    }
  }

  lemma {:induction false} FormTypesLines(fs: seq<Field>)
    ensures FormTypes(fs) == Lines(TypeValues(fs))
  {
    if fs != [] {
      FormTypesLines(fs[1..]);
      if fs[0].name == FORM_TYPE {
        var v := FieldValue(fs[0]);
        assert TypeValues(fs) == [v] + TypeValues(fs[1..]);
      } else {
        assert TypeValues(fs) == TypeValues(fs[1..]);
      }
    }
  }

  lemma {:induction false} OneType(fs: seq<Field>)
    requires DistinctNames(fs)
    ensures |TypeValues(fs)| <= 1
    ensures (forall i | 0 <= i < |fs| :: fs[i].name != FORM_TYPE) ==> TypeValues(fs) == []
  {
    if fs != [] {
      OneType(fs[1..]);
    }
  }

  lemma DistinctPermutation(a: seq<Field>, b: seq<Field>)
    requires multiset(a) == multiset(b) && DistinctNames(a)
    ensures DistinctNames(b)
  {
    forall i, j | 0 <= i < j < |b|
      ensures b[i].name != b[j].name
    {
      Separate(a, b, i, j);
    }
  }

  lemma Separate(a: seq<Field>, b: seq<Field>, i: nat, j: nat)
    requires multiset(a) == multiset(b) && DistinctNames(a) && i < j < |b|
    ensures b[i].name != b[j].name
  {
    assert b == b[..i] + [b[i]] + b[i + 1..j] + [b[j]] + b[j + 1..];
    if b[i] == b[j] {
      assert multiset(b)[b[i]] >= 2;
      Twice(a, b[i]);
    } else {
      assert multiset(a)[b[i]] > 0 && multiset(a)[b[j]] > 0;
      var k := Where(a, b[i]);
      var l := Where(a, b[j]);
    }
  }

  lemma {:induction false} Twice(a: seq<Field>, f: Field)
    requires DistinctNames(a)
    ensures multiset(a)[f] <= 1
  {
    if a != [] {
      TailMultiset(a);
      Twice(a[1..], f);
      if multiset(a[1..])[f] > 0 {
        var k := Where(a[1..], f);
        assert a[k + 1] == f;
      }
    }
  }

  lemma FormPermutation(a: DataForm, b: DataForm)
    requires multiset(a.fields) == multiset(b.fields) && DistinctNames(a.fields)
    ensures FormText(Some(a)) == FormText(Some(b))
  {
    DistinctPermutation(a.fields, b.fields);
    FormTypesLines(a.fields);
    FormTypesLines(b.fields);
    OneType(a.fields);
    OneType(b.fields);
    FlatMapPermutation(TypeOf, a.fields, b.fields);
    AtMostOne(TypeValues(a.fields), TypeValues(b.fields));
    InsertFieldsAdds([], a.fields);
    InsertFieldsAdds([], b.fields);
    FlatMapPermutation(EntryOf, a.fields, b.fields);
    MapUnique(InsertFields([], a.fields), InsertFields([], b.fields));
  }

  lemma AtMostOne<T>(a: seq<T>, b: seq<T>)
    requires multiset(a) == multiset(b) && |a| <= 1
    ensures a == b
  {
    SameLength(a, b);
    if |a| == 1 {
      assert a == [a[0]] && b == [b[0]];
      assert a[0] in multiset(b);
    }
  }

  /** The string does not depend on the order of identities, features and form fields, if no two
      fields have the same name. */
  lemma GeneratePermutation(ids: seq<Identity>, jds: seq<Identity>, fs: seq<string>, gs: seq<string>, a: DataForm, b: DataForm)
    requires multiset(ids) == multiset(jds) && multiset(fs) == multiset(gs)
    requires multiset(a.fields) == multiset(b.fields) && DistinctNames(a.fields)
    ensures Generate(ids, fs, Some(a)) == Generate(jds, gs, Some(b))
    ensures Generate(ids, fs, None) == Generate(jds, gs, None)
  {
    FlatMapPermutation(IdLine, ids, jds);
    SortPermutation(IdTexts(ids), IdTexts(jds));
    SortPermutation(fs, gs);
    FormPermutation(a, b);
    hide FormText, Sort, Lines;
  }

  // ---- reading the string back ----

  /** The texts in front of each '<'; what follows the last one is left out. */
  function SplitLines(s: string, line: string): seq<string>
    decreases |s|
  {
    if s == "" then []
    else if s[0] == '<' then [line] + SplitLines(s[1..], "")
    else SplitLines(s[1..], line + [s[0]])
  }

  predicate NoBracket(s: string) {
    s == "" || (s[0] != '<' && NoBracket(s[1..]))
  }

  predicate NoBrackets(ss: seq<string>) {
    ss == [] || (NoBracket(ss[0]) && NoBrackets(ss[1..]))
  }

  lemma {:induction false} SplitOne(s: string, rest: string, line: string)
    requires NoBracket(s)
    ensures SplitLines(s + "<" + rest, line) == [line + s] + SplitLines(rest, "")
    decreases |s|
  {
    var t := s + "<" + rest;
    if s == "" {
      assert t[1..] == rest && line + "" == line;
    } else {
      assert t[1..] == s[1..] + "<" + rest && t[0] == s[0];
      SplitOne(s[1..], rest, line + [s[0]]);
      assert line + [s[0]] + s[1..] == line + s;
    }
  }

  lemma {:induction false} SplitLinesBack(ss: seq<string>, rest: string)
    requires NoBrackets(ss)
    ensures SplitLines(Lines(ss) + rest, "") == ss + SplitLines(rest, "")
    decreases |ss|
  {
    if ss == [] {
      assert Lines(ss) + rest == rest;
    } else {
      hide NoBracket, SplitLines;
      assert Lines(ss) + rest == ss[0] + "<" + (Lines(ss[1..]) + rest);
      SplitOne(ss[0], Lines(ss[1..]) + rest, "");
      assert "" + ss[0] == ss[0];
      SplitLinesBack(ss[1..], rest);
      assert ss == [ss[0]] + ss[1..];
    }
  }

  lemma {:induction false} InsertNoBracket(x: string, s: seq<string>)
    requires NoBracket(x) && NoBrackets(s)
    ensures NoBrackets(Insert(x, s))
  {
    hide NoBracket, Leq;
    if s != [] {
      InsertNoBracket(x, s[1..]);
    }
  }

  lemma {:induction false} SortNoBracket(s: seq<string>)
    requires NoBrackets(s)
    ensures NoBrackets(Sort(s))
  {
    hide NoBracket, Insert;
    if s != [] {
      SortNoBracket(s[1..]);
      InsertNoBracket(s[0], Sort(s[1..]));
    }
  }

  /** Without a form, and with no '<' in any text, the string lists the sorted identities and then the
      sorted features, and says no less. */
  lemma GenerateBack(ids: seq<Identity>, features: seq<string>)
    requires NoBrackets(IdTexts(ids)) && NoBrackets(features)
    ensures SplitLines(Generate(ids, features, None), "") == Sort(IdTexts(ids)) + Sort(features)
  {
    SortNoBracket(IdTexts(ids));
    SortNoBracket(features);
    hide Sort, NoBrackets, IdTexts;
    SplitLinesBack(Sort(features), "");
    assert Lines(Sort(features)) + "" == Lines(Sort(features));
    assert SplitLines("", "") == [];
    hide SplitLines;
    SplitLinesBack(Sort(IdTexts(ids)), Lines(Sort(features)));
    assert Generate(ids, features, None) == Lines(Sort(IdTexts(ids))) + Lines(Sort(features));
  }

  /** The parts of an identity's text: category, type, an empty language, and the name. */
  function ReadIdentity(s: string): Option<Identity> {
    match Find(s, "/", 0)
    case None => None
    case Some(i) =>
      match Find(s, "/", i + 1)
      case None => None
      case Some(j) => if At(s, "/", j + 1) then Some(Identity(s[..i], s[i + 1..j], s[j + 2..])) else None
  }

  lemma SlashAt(s: string, i: nat)
    ensures At(s, "/", i) <==> i < |s| && s[i] == '/'
  {
  }

  lemma NextSlash(before: string, a: string, after: string)
    requires '/' !in a
    ensures Find(before + a + "/" + after, "/", |before|) == Some(|before| + |a|)
  {
    var s, i := before + a + "/" + after, |before| + |a|;
    assert s[i] == '/';
    SlashAt(s, i);
    forall k | |before| <= k < i
      ensures !At(s, "/", k)
    {
      assert s[k] == a[k - |before|];
      SlashAt(s, k);
    }
    FindIs(s, "/", |before|, i);
  }

  /** An identity can be read off its text if category and type hold no slash. */
  lemma IdTextBack(i: Identity)
    requires '/' !in i.category && '/' !in i.kind
    ensures ReadIdentity(IdText(i)) == Some(i)
  {
    hide At, Find;
    var s := IdText(i);
    var first, rest := i.category + "/", "/" + i.name;
    assert s == "" + i.category + "/" + (i.kind + "/" + rest);
    NextSlash("", i.category, i.kind + "/" + rest);
    assert s == first + i.kind + "/" + rest;
    NextSlash(first, i.kind, rest);
    IdTextParts(i);
    SlashAt(s, |first| + |i.kind| + 1);
  }

  lemma IdTextParts(i: Identity)
    ensures
      var s := IdText(i);
      var m, n := |i.category|, |i.category| + 1 + |i.kind|;
      n + 2 <= |s| && s[..m] == i.category && s[m + 1..n] == i.kind && s[n + 1] == '/' && s[n + 2..] == i.name
  {
  }
}
