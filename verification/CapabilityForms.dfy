/** The form's part of the capability string, said of the fields themselves (gloox/capabilities.cpp:99-128). */
module CapabilityForms {
  import opened Text
  import opened StringOrder
  import opened Capabilities
  import opened DataFormFields
  import opened DataForms

  // ---- what is wanted ----

  /** The first value of every form type, or an empty text. */
  function TypeLines(fs: seq<Field>): seq<string> {
    if fs == [] then []
    else
      (if fs[0].name != "FORM_TYPE" then [] else if fs[0].values == [] then [""] else [fs[0].values[0]])
      + TypeLines(fs[1..])
  }

  /** The names of the other fields, each once, without those that have been seen. */
  function OtherNames(fs: seq<Field>, seen: set<string>): seq<string> {
    if fs == [] then []
    else if fs[0].name == "FORM_TYPE" || fs[0].name in seen then OtherNames(fs[1..], seen)
    else [fs[0].name] + OtherNames(fs[1..], seen + {fs[0].name})
  }

  /** The values of the first field of a name. */
  function ValuesOf(fs: seq<Field>, name: string): seq<string> {
    if fs == [] then [] else if fs[0].name == name then fs[0].values else ValuesOf(fs[1..], name)
  }

  function ByName(names: seq<string>, fs: seq<Field>): seq<string> {
    if names == [] then [] else [names[0]] + ValuesOf(fs, names[0]) + ByName(names[1..], fs)
  }

  /** The form types, and then by ascending name every other field: its name, and all its values. */
  function FormLines(fs: seq<Field>): seq<string> {
    TypeLines(fs) + ByName(Sort(OtherNames(fs, {})), fs)
  }

  // ---- the map ----

  function Look(m: seq<Entry>, k: string): Option<seq<string>> {
    if m == [] then None else if m[0].key == k then Some(m[0].values) else Look(m[1..], k)
  }

  function LookField(fs: seq<Field>, k: string): Option<seq<string>> {
    if fs == [] then None
    else if fs[0].name != "FORM_TYPE" && fs[0].name == k then Some(fs[0].values)
    else LookField(fs[1..], k)
  }

  function Keys(m: seq<Entry>): seq<string> {
    if m == [] then [] else [m[0].key] + Keys(m[1..])
  }

  lemma {:induction false} LookAt(m: seq<Entry>, k: string) returns (i: nat)
    requires Look(m, k).Some?
    ensures i < |m| && m[i].key == k
  {
    if m[0].key == k {
      i := 0;
    } else {
      var j := LookAt(m[1..], k);
      i := j + 1;
    }
  }

  /** What comes in front of the first key of a sorted map is not in it. */
  lemma NotBelow(m: seq<Entry>, k: string)
    requires StrictlySorted(m) && m != [] && Leq(k, m[0].key) && k != m[0].key
    ensures Look(m, k).None?
  {
    if Look(m, k).Some? {
      var i := LookAt(m, k);
      FirstKey(m, i);
      LeqTotal(k, m[0].key);
    }
  }

  lemma {:induction false} InsertKeyLook(m: seq<Entry>, e: Entry, k: string)
    requires StrictlySorted(m)
    ensures Look(InsertKey(m, e), k) ==
      if Look(m, k).Some? then Look(m, k) else if k == e.key then Some(e.values) else None
    decreases |m|
  {
    if m == [] {
      assert [e][1..] == [];
      assert Look([], k) == None;
    } else if m[0].key == e.key {
    } else if Leq(e.key, m[0].key) {
      NotBelow(m, e.key);
      assert ([e] + m)[1..] == m;
    } else {
      hide Leq;
      InsertKeyLook(m[1..], e, k);
      assert ([m[0]] + InsertKey(m[1..], e))[1..] == InsertKey(m[1..], e);
    }
  }

  lemma {:induction false} InsertFieldsLook(m: seq<Entry>, fs: seq<Field>, k: string)
    requires StrictlySorted(m)
    ensures StrictlySorted(InsertFields(m, fs))
    ensures Look(InsertFields(m, fs), k) == if Look(m, k).Some? then Look(m, k) else LookField(fs, k)
    decreases |fs|
  {
    if fs != [] {
      if fs[0].name == "FORM_TYPE" {
        InsertFieldsLook(m, fs[1..], k);
      } else {
        var e := Entry(fs[0].name, fs[0].values);
        InsertKeySorted(m, e);
        InsertKeyLook(m, e, k);
        hide InsertKey, StrictlySorted, Look;
        InsertFieldsLook(InsertKey(m, e), fs[1..], k);
      }
    }
  }

  // ---- its keys ----

  lemma {:induction false} KeysSorted(m: seq<Entry>)
    requires StrictlySorted(m)
    ensures Sorted(Keys(m)) && |Keys(m)| == |m|
    ensures m != [] ==> Keys(m)[0] == m[0].key
    decreases |m|
  {
    hide Leq;
    if m != [] {
      KeysSorted(m[1..]);
      assert Keys(m)[1..] == Keys(m[1..]);
    }
  }

  lemma {:induction false} KeysOnce(m: seq<Entry>, k: string)
    requires StrictlySorted(m)
    ensures multiset(Keys(m))[k] == if Look(m, k).Some? then 1 else 0
    decreases |m|
  {
    if m == [] {
      assert Keys(m) == [];
    } else {
      KeysOnce(m[1..], k);
      assert multiset(Keys(m)) == multiset{m[0].key} + multiset(Keys(m[1..]));
      if m[0].key == k && Look(m[1..], k).Some? {
        var i := LookAt(m[1..], k);
        FirstKey(m, i + 1);
        assert false;
      }
    }
  }

  lemma {:induction false} NamesOnce(fs: seq<Field>, seen: set<string>, k: string)
    ensures multiset(OtherNames(fs, seen))[k] == if k !in seen && LookField(fs, k).Some? then 1 else 0
    decreases |fs|
  {
    if fs == [] {
      assert OtherNames(fs, seen) == [];
    } else if fs[0].name == "FORM_TYPE" || fs[0].name in seen {
      NamesOnce(fs[1..], seen, k);
    } else {
      var n := fs[0].name;
      NamesOnce(fs[1..], seen + {n}, k);
      assert multiset(OtherNames(fs, seen)) == multiset{n} + multiset(OtherNames(fs[1..], seen + {n}));
    }
  }

  /** The keys are the names, sorted. */
  lemma KeysAreNames(fs: seq<Field>)
    ensures Keys(InsertFields([], fs)) == Sort(OtherNames(fs, {}))
  {
    var m, names := InsertFields([], fs), OtherNames(fs, {});
    InsertFieldsLook([], fs, "");
    forall k: string
      ensures multiset(Keys(m))[k] == multiset(names)[k]
    {
      SameCount(fs, k);
    }
    assert multiset(Keys(m)) == multiset(names);
    KeysSorted(m);
    SortSorts(names);
    hide Keys, InsertFields, OtherNames, Sort, Sorted;
    SortedUnique(Keys(m), Sort(names));
  }

  lemma SameCount(fs: seq<Field>, k: string)
    ensures multiset(Keys(InsertFields([], fs)))[k] == multiset(OtherNames(fs, {}))[k]
  {
    InsertFieldsLook([], fs, k);
    assert Look([], k) == None;
    hide InsertFields, Keys, OtherNames, Look, LookField, StrictlySorted;
    KeysOnce(InsertFields([], fs), k);
    NamesOnce(fs, {}, k);
  }

  // ---- its values ----

  lemma {:induction false} LookOwn(m: seq<Entry>, i: nat)
    requires StrictlySorted(m) && i < |m|
    ensures Look(m, m[i].key) == Some(m[i].values)
    decreases |m|
  {
    if i > 0 {
      FirstKey(m, i);
      LookOwn(m[1..], i - 1);
    }
  }

  lemma {:induction false} FieldValues(fs: seq<Field>, k: string)
    requires LookField(fs, k).Some?
    ensures LookField(fs, k) == Some(ValuesOf(fs, k))
  {
    if fs[0].name != k {
      FieldValues(fs[1..], k);
    } else if fs[0].name == "FORM_TYPE" {
      NoType(fs[1..]);
    }
  }

  lemma {:induction false} NoType(fs: seq<Field>)
    ensures LookField(fs, "FORM_TYPE").None?
  {
    if fs != [] {
      NoType(fs[1..]);
    }
  }

  predicate HoldsFields(m: seq<Entry>, fs: seq<Field>) {
    forall i | 0 <= i < |m| :: m[i].values == ValuesOf(fs, m[i].key)
  }

  lemma InsertedHolds(fs: seq<Field>)
    ensures HoldsFields(InsertFields([], fs), fs)
  {
    var m := InsertFields([], fs);
    forall i | 0 <= i < |m|
      ensures m[i].values == ValuesOf(fs, m[i].key)
    {
      var k := m[i].key;
      InsertFieldsLook([], fs, k);
      assert Look([], k) == None;
      LookOwn(m, i);
      hide InsertFields, Look, LookField, ValuesOf;
      FieldValues(fs, k);
    }
  }

  // ---- the text ----

  lemma {:induction false} LinesAppend(a: seq<string>, b: seq<string>)
    ensures Lines(a + b) == Lines(a) + Lines(b)
  {
    if a == [] {
      assert a + b == b;
      assert "" + Lines(b) == Lines(b);
    } else {
      assert (a + b)[1..] == a[1..] + b;
      LinesAppend(a[1..], b);
      assert a[0] + "<" + (Lines(a[1..]) + Lines(b)) == a[0] + "<" + Lines(a[1..]) + Lines(b);
    }
  }

  lemma {:induction false} MapTextLines(m: seq<Entry>, fs: seq<Field>)
    requires HoldsFields(m, fs)
    ensures MapText(m) == Lines(ByName(Keys(m), fs))
    decreases |m|
  {
    if m != [] {
      assert m[0].values == ValuesOf(fs, m[0].key);
      RestHolds(m, fs);
      MapTextLines(m[1..], fs);
      assert Keys(m)[1..] == Keys(m[1..]);
      EntryLines(m[0].key, m[0].values, ByName(Keys(m[1..]), fs));
      hide ValuesOf, Lines;
    }
  }

  lemma RestHolds(m: seq<Entry>, fs: seq<Field>)
    requires HoldsFields(m, fs) && m != []
    ensures HoldsFields(m[1..], fs)
  {
    hide ValuesOf;
    assert forall i | 0 <= i < |m| - 1 :: m[1..][i] == m[i + 1];
  }

  lemma EntryLines(key: string, values: seq<string>, rest: seq<string>)
    ensures Lines([key] + values + rest) == key + "<" + Lines(values) + Lines(rest)
  {
    var all := [key] + values + rest;
    assert all[1..] == values + rest;
    LinesAppend(values, rest);
    assert Lines(all) == key + "<" + Lines(values + rest);
    hide Lines;
    assert key + "<" + (Lines(values) + Lines(rest)) == key + "<" + Lines(values) + Lines(rest);
  }

  lemma {:induction false} TypesAreLines(fs: seq<Field>)
    ensures FormTypes(fs) == Lines(TypeLines(fs))
  {
    if fs != [] {
      TypesAreLines(fs[1..]);
      var rest := TypeLines(fs[1..]);
      if fs[0].name == "FORM_TYPE" {
        var v := if fs[0].values == [] then "" else fs[0].values[0];
        assert TypeLines(fs) == [v] + rest && ([v] + rest)[1..] == rest;
      } else {
        assert TypeLines(fs) == rest;
      }
    }
  }

  /** Whatever fields a form has, equal names included: its text is these lines. */
  lemma FormTextIs(form: DataForm)
    ensures FormText(Some(form)) == Lines(FormLines(form.fields))
  {
    var fs := form.fields;
    TypesAreLines(fs);
    InsertedHolds(fs);
    KeysAreNames(fs);
    hide InsertFields, HoldsFields, Keys, Sort, TypeLines, FormTypes, MapText, ByName, OtherNames, Lines;
    MapTextLines(InsertFields([], fs), fs);
    LinesAppend(TypeLines(fs), ByName(Sort(OtherNames(fs, {})), fs));
  }

  /** Identities, features and form, each line ended by '<'. */
  lemma GenerateIs(ids: seq<Identity>, features: seq<string>, form: Option<DataForm>)
    ensures Generate(ids, features, form) ==
      Lines(Sort(IdTexts(ids)) + Sort(features) + if form.None? then [] else FormLines(form.value.fields))
  {
    var a, b := Sort(IdTexts(ids)), Sort(features);
    LinesAppend(a, b);
    if form.Some? {
      FormTextIs(form.value);
      LinesAppend(a + b, FormLines(form.value.fields));
    } else {
      assert a + b + [] == a + b;
      assert Lines(a) + Lines(b) + "" == Lines(a) + Lines(b);
    }
    hide Sort, IdTexts, Lines, FormLines, FormText;
  }

  // ---- reading it back ----

  /** No '<' in names and values. */
  predicate PlainFields(fs: seq<Field>) {
    fs == [] || (NoBracket(fs[0].name) && NoBrackets(fs[0].values) && PlainFields(fs[1..]))
  }

  lemma {:induction false} PlainAppend(a: seq<string>, b: seq<string>)
    requires NoBrackets(a) && NoBrackets(b)
    ensures NoBrackets(a + b)
  {
    hide NoBracket;
    if a == [] {
      assert a + b == b;
    } else {
      assert (a + b)[1..] == a[1..] + b;
      PlainAppend(a[1..], b);
    }
  }

  lemma {:induction false} PlainTypes(fs: seq<Field>)
    requires PlainFields(fs)
    ensures NoBrackets(TypeLines(fs))
  {
    if fs != [] {
      PlainTypes(fs[1..]);
      if fs[0].name == "FORM_TYPE" {
        var v := if fs[0].values == [] then "" else fs[0].values[0];
        assert NoBracket(v) && [v][1..] == [] && NoBrackets([v]);
        PlainAppend([v], TypeLines(fs[1..]));
      } else {
        assert TypeLines(fs) == TypeLines(fs[1..]);
      }
    }
  }

  lemma {:induction false} PlainNames(fs: seq<Field>, seen: set<string>)
    requires PlainFields(fs)
    ensures NoBrackets(OtherNames(fs, seen))
    decreases |fs|
  {
    hide NoBracket;
    if fs != [] {
      PlainNames(fs[1..], seen);
      PlainNames(fs[1..], seen + {fs[0].name});
    }
  }

  lemma {:induction false} PlainValues(fs: seq<Field>, name: string)
    requires PlainFields(fs)
    ensures NoBrackets(ValuesOf(fs, name))
  {
    hide NoBracket;
    if fs != [] {
      PlainValues(fs[1..], name);
    }
  }

  lemma {:induction false} PlainByName(names: seq<string>, fs: seq<Field>)
    requires PlainFields(fs) && NoBrackets(names)
    ensures NoBrackets(ByName(names, fs))
  {
    hide NoBracket;
    if names != [] {
      PlainByName(names[1..], fs);
      PlainValues(fs, names[0]);
      assert [names[0]][1..] == [];
      PlainAppend([names[0]], ValuesOf(fs, names[0]));
      PlainAppend([names[0]] + ValuesOf(fs, names[0]), ByName(names[1..], fs));
    }
  }

  lemma PlainForm(fs: seq<Field>)
    requires PlainFields(fs)
    ensures NoBrackets(FormLines(fs))
  {
    PlainTypes(fs);
    PlainNames(fs, {});
    SortNoBracket(OtherNames(fs, {}));
    PlainByName(Sort(OtherNames(fs, {})), fs);
    hide NoBrackets, TypeLines, ByName, Sort, OtherNames;
    PlainAppend(TypeLines(fs), ByName(Sort(OtherNames(fs, {})), fs));
  }

  /** With no '<' in any text, the string gives back the sorted identities, the sorted features, and of
      the form the first value of its form type and then, by ascending name, each other field's name
      and all its values. */
  lemma GenerateFormBack(ids: seq<Identity>, features: seq<string>, form: DataForm)
    requires NoBrackets(IdTexts(ids)) && NoBrackets(features) && PlainFields(form.fields)
    ensures SplitLines(Generate(ids, features, Some(form)), "") ==
      Sort(IdTexts(ids)) + Sort(features) + FormLines(form.fields)
  {
    SortNoBracket(IdTexts(ids));
    SortNoBracket(features);
    PlainForm(form.fields);
    GenerateIs(ids, features, Some(form));
    hide Sort, NoBrackets, IdTexts, FormLines, Generate, PlainFields;
    var a, b, c := Sort(IdTexts(ids)), Sort(features), FormLines(form.fields);
    PlainAppend(a, b);
    PlainAppend(a + b, c);
    SplitLinesBack(a + b + c, "");
    assert SplitLines("", "") == [] && Lines(a + b + c) + "" == Lines(a + b + c);
    hide SplitLines, Lines;
    assert a + b + c + [] == a + b + c;
  }
}
