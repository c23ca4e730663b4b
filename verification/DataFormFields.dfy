/** The fields of data forms: printing, parsing, and what the two make of each other
    (gloox/dataformfield.cpp). */
module DataFormFields {
  import opened Text
  import opened StringOrder
  import opened Tags

  datatype FieldType =
    | TypeBoolean | TypeFixed | TypeHidden | TypeJidMulti | TypeJidSingle
    | TypeListMulti | TypeListSingle | TypeTextMulti | TypeTextPrivate | TypeTextSingle
    | TypeNone | TypeInvalid

  /** `util::lookup` in both directions. */
  function FieldTypeName(k: FieldType): string {
    match k
    case TypeBoolean => "boolean" case TypeFixed => "fixed" case TypeHidden => "hidden"
    case TypeJidMulti => "jid-multi" case TypeJidSingle => "jid-single"
    case TypeListMulti => "list-multi" case TypeListSingle => "list-single"
    case TypeTextMulti => "text-multi" case TypeTextPrivate => "text-private"
    case TypeTextSingle => "text-single" case TypeNone => "" case TypeInvalid => ""
  }

  function FieldTypeOf(name: string): FieldType {
    if name == "boolean" then TypeBoolean else if name == "fixed" then TypeFixed
    else if name == "hidden" then TypeHidden else if name == "jid-multi" then TypeJidMulti
    else if name == "jid-single" then TypeJidSingle else if name == "list-multi" then TypeListMulti
    else if name == "list-single" then TypeListSingle else if name == "text-multi" then TypeTextMulti
    else if name == "text-private" then TypeTextPrivate else if name == "text-single" then TypeTextSingle
    else if name == "" then TypeNone else TypeInvalid
  }

  predicate Multi(k: FieldType) {
    k == TypeTextMulti || k == TypeListMulti || k == TypeJidMulti
  }

  predicate Listed(k: FieldType) {
    k == TypeListSingle || k == TypeListMulti
  }

  datatype Choice = Choice(caption: string, value: string)

  /** The options are a multimap: its order is by label, and by age under one label. */
  datatype Field = Field(
    kind: FieldType,
    name: string,
    caption: string,
    desc: string,
    required: bool,
    values: seq<string>,
    options: seq<Choice>)

  /** `insert`: behind all that is not greater. */
  function InsertChoice(m: seq<Choice>, c: Choice): seq<Choice> {
    if m == [] || !Leq(m[0].caption, c.caption) then [c] + m else [m[0]] + InsertChoice(m[1..], c)
  }

  function InsertAll(m: seq<Choice>, cs: seq<Choice>): seq<Choice>
    decreases |cs|
  {
    if cs == [] then m else InsertAll(InsertChoice(m, cs[0]), cs[1..])
  }

  predicate Ordered(m: seq<Choice>)
    decreases |m|
  {
    |m| <= 1 || (Leq(m[0].caption, m[1].caption) && Ordered(m[1..]))
  }

  // ---- printing ----

  function PrintChoice(c: Choice): Tag {
    AddChild(AddAttribute(Tag("option", [], "", []), "label", c.caption), Some(TextTag("value", c.value)))
  }

  function PrintChoices(cs: seq<Choice>): seq<Tag> {
    if cs == [] then [] else [PrintChoice(cs[0])] + PrintChoices(cs[1..])
  }

  function PrintValues(values: seq<string>): seq<Tag> {
    if values == [] then [] else [TextTag("value", values[0])] + PrintValues(values[1..])
  }

  /** A boolean has one value, "0" or "1". */
  function BooleanValue(values: seq<string>): string {
    if values == [] || values[0] == "false" || values[0] == "0" then "0" else "1"
  }

  /** The values as they are printed. */
  function Printed(k: FieldType, values: seq<string>): seq<string> {
    if Multi(k) then values
    else if k == TypeBoolean then [BooleanValue(values)]
    else if values == [] then []
    else [values[0]]
  }

  function PrintHead(f: Field): Tag {
    AddAttribute(AddAttribute(AddAttribute(Tag("field", [], "", []), "type", FieldTypeName(f.kind)), "var", f.name),
      "label", f.caption)
  }

  function PrintRequired(f: Field): seq<Tag> {
    if f.required then [TextTag("required", "")] else []
  }

  function PrintDesc(f: Field): seq<Tag> {
    if f.desc == "" then [] else [TextTag("desc", f.desc)]
  }

  function PrintOptions(f: Field): seq<Tag> {
    if Listed(f.kind) then PrintChoices(f.options) else []
  }

  /** `DataFormField::tag` */
  function PrintField(f: Field): Option<Tag> {
    if f.kind == TypeInvalid then None
    else
      Some(PrintHead(f).(
        children := PrintRequired(f) + PrintDesc(f) + PrintOptions(f) + PrintValues(Printed(f.kind, f.values))))
  }

  // ---- parsing ----

  function ParseHead(t: Tag): Field {
    var kind := FindAttribute(t.attributes, "type");
    Field(
      if kind == "" then (if t.name != "" then TypeNone else TypeInvalid) else FieldTypeOf(kind),
      FindAttribute(t.attributes, "var"), FindAttribute(t.attributes, "label"), "", false, [], [])
  }

  /** One child of a field. */
  function Absorb(f: Field, t: Tag): Field {
    if t.name == "desc" then f.(desc := t.cdata)
    else if t.name == "required" then f.(required := true)
    else if t.name == "value" then f.(values := if Multi(f.kind) then f.values + [t.cdata] else [t.cdata])
    else if t.name == "option" then
      var v := FindChild(t.children, "value");
      if v.None? then f
      else f.(options := InsertChoice(f.options, Choice(FindAttribute(t.attributes, "label"), v.value.cdata)))
    else f
  }

  function AbsorbAll(f: Field, ts: seq<Tag>): Field
    decreases |ts|
  {
    if ts == [] then f else AbsorbAll(Absorb(f, ts[0]), ts[1..])
  }

  /** `DataFormField( const Tag* )` */
  function ParseField(t: Tag): Field {
    AbsorbAll(ParseHead(t), t.children)
  }

  // ---- the round trip of a field ----

  function CleanAll(ss: seq<string>): (c: seq<string>)
    ensures |c| == |ss|
  {
    if ss == [] then [] else [Clean(ss[0])] + CleanAll(ss[1..])
  }

  function CleanChoices(cs: seq<Choice>): (c: seq<Choice>)
    ensures |c| == |cs|
  {
    if cs == [] then [] else [Choice(Clean(cs[0].caption), Clean(cs[0].value))] + CleanChoices(cs[1..])
  }

  /** What arrives: texts without their invalid characters' strings, the values that the type
      admits, and options only with a list. */
  function Normalized(f: Field): Field {
    Field(f.kind, Clean(f.name), Clean(f.caption), Clean(f.desc), f.required,
      CleanAll(Printed(f.kind, f.values)),
      if Listed(f.kind) then InsertAll([], CleanChoices(f.options)) else [])
  }

  lemma {:induction false} AbsorbAppend(f: Field, a: seq<Tag>, b: seq<Tag>)
    ensures AbsorbAll(f, a + b) == AbsorbAll(AbsorbAll(f, a), b)
    decreases |a|
  {
    if a == [] {
      assert a + b == b;
    } else {
      assert (a + b)[1..] == a[1..] + b;
      AbsorbAppend(Absorb(f, a[0]), a[1..], b);
    }
  }

  lemma AbsorbChoice(f: Field, c: Choice)
    ensures Absorb(f, PrintChoice(c)) == f.(options := InsertChoice(f.options, Choice(Clean(c.caption), Clean(c.value))))
  {
    AddFind(Tag("option", [], "", []), "label", c.caption, "label");
  }

  lemma {:induction false} AbsorbChoices(f: Field, cs: seq<Choice>)
    ensures AbsorbAll(f, PrintChoices(cs)) == f.(options := InsertAll(f.options, CleanChoices(cs)))
    decreases |cs|
  {
    if cs != [] {
      AbsorbChoice(f, cs[0]);
      hide Absorb, PrintChoice, InsertChoice;
      AbsorbChoices(f.(options := InsertChoice(f.options, Choice(Clean(cs[0].caption), Clean(cs[0].value)))), cs[1..]);
    }
  }

  lemma {:induction false} AbsorbValues(f: Field, values: seq<string>)
    requires Multi(f.kind) || (|values| <= 1 && f.values == [])
    ensures AbsorbAll(f, PrintValues(values)) == f.(values := f.values + CleanAll(values))
    decreases |values|
  {
    if values != [] {
      if |values| == 1 {
        assert values[1..] == [];
      } else {
        AbsorbValues(f.(values := f.values + [Clean(values[0])]), values[1..]);
      }
      assert f.values + [Clean(values[0])] + CleanAll(values[1..]) == f.values + CleanAll(values);
    }
  }

  lemma HeadBack(f: Field)
    requires f.kind != TypeInvalid
    ensures ParseHead(PrintHead(f)) == Field(f.kind, Clean(f.name), Clean(f.caption), "", false, [], [])
  {
    var t := Tag("field", [], "", []);
    var u := AddAttribute(t, "type", FieldTypeName(f.kind));
    var v := AddAttribute(u, "var", f.name);
    TypeBack(f.kind);
    ReadBack(t, "type", FieldTypeName(f.kind), "var", f.name, "label", f.caption);
    hide AddAttribute, FieldTypeName, FieldTypeOf;
    assert PrintHead(f).name == "field" by { SameName(f); }
  }

  lemma SameName(f: Field)
    ensures PrintHead(f).name == "field"
  {
  }

  lemma TypeBack(k: FieldType)
    requires k != TypeInvalid
    ensures FieldTypeOf(FieldTypeName(k)) == k
    ensures Clean(FieldTypeName(k)) == FieldTypeName(k)
    ensures FieldTypeName(k) == "" <==> k == TypeNone
  {
    TypeNameBack(k);
    TypeNameClean(k);
    hide FieldTypeName, FieldTypeOf, Clean;
  }

  lemma TypeNameBack(k: FieldType)
    requires k != TypeInvalid
    ensures FieldTypeOf(FieldTypeName(k)) == k
    ensures FieldTypeName(k) == "" <==> k == TypeNone
  {
  }

  lemma TypeNameClean(k: FieldType)
    ensures Clean(FieldTypeName(k)) == FieldTypeName(k)
  {
  }

  /** Three attributes of different names, on an element that has none. */
  lemma ReadBack(t: Tag, a: string, x: string, b: string, y: string, c: string, z: string)
    requires t.attributes == [] && a != "" && b != "" && c != "" && a != b && b != c && a != c
    ensures
      var u := AddAttribute(AddAttribute(AddAttribute(t, a, x), b, y), c, z).attributes;
      FindAttribute(u, a) == Clean(x) && FindAttribute(u, b) == Clean(y) && FindAttribute(u, c) == Clean(z)
  {
    var u := AddAttribute(t, a, x);
    var v := AddAttribute(u, b, y);
    forall n | n in {a, b, c}
      ensures FindAttribute(AddAttribute(v, c, z).attributes, n) == if n == a then Clean(x) else if n == b then Clean(y) else Clean(z)
    {
      AddFind(t, a, x, n);
      AddFind(u, b, y, n);
      AddFind(v, c, z, n);
      hide AddAttribute, Clean;
    }
  }

  /** Printing and parsing normalises. */
  lemma ParsePrintField(f: Field)
    requires f.kind != TypeInvalid
    ensures ParseField(PrintField(f).value) == Normalized(f)
  {
    var a, b, c, d := PrintRequired(f), PrintDesc(f), PrintOptions(f), PrintValues(Printed(f.kind, f.values));
    var f0 := Field(f.kind, Clean(f.name), Clean(f.caption), "", false, [], []);
    HeadBack(f);
    HeadChildren(f);
    AbsorbAppend(f0, a + b + c, d);
    AbsorbAppend(f0, a + b, c);
    AbsorbAppend(f0, a, b);
    AbsorbRequired(f0, f);
    var f1 := f0.(required := f.required);
    AbsorbDesc(f1, f);
    var f2 := f1.(desc := Clean(f.desc));
    AbsorbOptions(f2, f);
    var f3 := f2.(options := Normalized(f).options);
    AbsorbValues(f3, Printed(f.kind, f.values));
    hide AbsorbAll, PrintHead, ParseHead, PrintRequired, PrintDesc, PrintOptions, PrintValues, CleanAll, Clean;
  }

  lemma HeadChildren(f: Field)
    requires f.kind != TypeInvalid
    ensures
      var t := PrintField(f).value;
      && t.children == PrintRequired(f) + PrintDesc(f) + PrintOptions(f) + PrintValues(Printed(f.kind, f.values))
      && ParseHead(t) == ParseHead(PrintHead(f))
  {
  }

  lemma AbsorbRequired(g: Field, f: Field)
    requires !g.required
    ensures AbsorbAll(g, PrintRequired(f)) == g.(required := f.required)
  {
  }

  lemma AbsorbDesc(g: Field, f: Field)
    requires g.desc == ""
    ensures AbsorbAll(g, PrintDesc(f)) == g.(desc := Clean(f.desc))
  {
  }

  lemma AbsorbOptions(g: Field, f: Field)
    requires g.options == []
    ensures AbsorbAll(g, PrintOptions(f)) == g.(options := Normalized(f).options)
  {
    AbsorbChoices(g, f.options);
    hide PrintChoices, CleanChoices, CleanAll;
  }

  // ---- the fields that come back as they were ----

  predicate AllValid(ss: seq<string>) {
    ss == [] || (ValidXml(ss[0]) && AllValid(ss[1..]))
  }

  predicate ValidChoices(cs: seq<Choice>) {
    cs == [] || (ValidXml(cs[0].caption) && ValidXml(cs[0].value) && ValidChoices(cs[1..]))
  }

  predicate NormalValues(k: FieldType, values: seq<string>) {
    && AllValid(values)
    && (k == TypeBoolean ==> values == ["0"] || values == ["1"])
    && (Multi(k) || |values| <= 1)
  }

  /** Texts that XML admits; as many values as the type says, "0" or "1" for a boolean; options in
      their order, and only with a list. */
  predicate Normal(f: Field) {
    && ValidXml(f.name) && ValidXml(f.caption) && ValidXml(f.desc)
    && NormalValues(f.kind, f.values)
    && if Listed(f.kind) then ValidChoices(f.options) && Ordered(f.options) else f.options == []
  }

  lemma CleanIff(s: string)
    ensures Clean(s) == s <==> ValidXml(s)
    ensures Clean(Clean(s)) == Clean(s)
  {
  }

  lemma SameCons<T>(x: T, rest: seq<T>, s: seq<T>)
    requires s != []
    ensures [x] + rest == s <==> x == s[0] && rest == s[1..]
  {
    assert ([x] + rest)[0] == x && ([x] + rest)[1..] == rest;
    assert s == [s[0]] + s[1..];
  }

  lemma {:induction false} CleanAllIff(ss: seq<string>)
    ensures CleanAll(ss) == ss <==> AllValid(ss)
  {
    if ss != [] {
      CleanIff(ss[0]);
      CleanAllIff(ss[1..]);
      assert CleanAll(ss) == [Clean(ss[0])] + CleanAll(ss[1..]);
      SameCons(Clean(ss[0]), CleanAll(ss[1..]), ss);
      hide Clean, ValidXml, CleanAll;
    }
  }

  lemma {:induction false} CleanChoicesIff(cs: seq<Choice>)
    ensures CleanChoices(cs) == cs <==> ValidChoices(cs)
  {
    if cs != [] {
      CleanIff(cs[0].caption);
      CleanIff(cs[0].value);
      CleanChoicesIff(cs[1..]);
      var c := Choice(Clean(cs[0].caption), Clean(cs[0].value));
      assert CleanChoices(cs) == [c] + CleanChoices(cs[1..]);
      SameCons(c, CleanChoices(cs[1..]), cs);
      hide Clean, ValidXml, CleanChoices;
    }
  }

  lemma {:induction false} InsertOrdered(m: seq<Choice>, c: Choice)
    requires Ordered(m)
    ensures Ordered(InsertChoice(m, c))
    decreases |m|
  {
    if m != [] && Leq(m[0].caption, c.caption) {
      InsertOrdered(m[1..], c);
    } else if m != [] {
      LeqTotal(c.caption, m[0].caption);
    }
  }

  lemma {:induction false} InsertAllOrdered(m: seq<Choice>, cs: seq<Choice>)
    requires Ordered(m)
    ensures Ordered(InsertAll(m, cs))
    decreases |cs|
  {
    if cs != [] {
      InsertOrdered(m, cs[0]);
      InsertAllOrdered(InsertChoice(m, cs[0]), cs[1..]);
    }
  }

  /** What fits behind the last goes there. */
  lemma {:induction false} InsertLast(m: seq<Choice>, c: Choice, rest: seq<Choice>)
    requires Ordered(m + [c] + rest)
    ensures InsertChoice(m, c) == m + [c]
    decreases |m|
  {
    if m != [] {
      var all := m + [c] + rest;
      assert all[1..] == m[1..] + [c] + rest;
      InsertLast(m[1..], c, rest);
      FirstLeast(all, |m|);
      assert [m[0]] + (m[1..] + [c]) == m + [c];
    }
  }

  lemma {:induction false} FirstLeast(m: seq<Choice>, i: nat)
    requires Ordered(m) && i < |m|
    ensures Leq(m[0].caption, m[i].caption)
    decreases |m|
  {
    LeqTotal(m[0].caption, m[0].caption);
    if i > 0 {
      FirstLeast(m[1..], i - 1);
      LeqTransitive(m[0].caption, m[1].caption, m[i].caption);
    }
  }

  lemma {:induction false} InsertAllSame(m: seq<Choice>, cs: seq<Choice>)
    requires Ordered(m + cs)
    ensures InsertAll(m, cs) == m + cs
    decreases |cs|
  {
    if cs == [] {
      assert m + cs == m;
    } else {
      assert m + [cs[0]] + cs[1..] == m + cs;
      InsertLast(m, cs[0], cs[1..]);
      InsertAllSame(m + [cs[0]], cs[1..]);
    }
  }

  /** Printing and parsing keeps the order exactly if there is one. */
  lemma InsertAllIff(cs: seq<Choice>)
    ensures InsertAll([], cs) == cs <==> Ordered(cs)
  {
    InsertAllOrdered([], cs);
    assert [] + cs == cs;
    if Ordered(cs) {
      InsertAllSame([], cs);
    }
  }

  lemma {:induction false} InsertAllLength(m: seq<Choice>, cs: seq<Choice>)
    ensures |InsertAll(m, cs)| == |m| + |cs|
    decreases |cs|
  {
    if cs != [] {
      InsertLength(m, cs[0]);
      InsertAllLength(InsertChoice(m, cs[0]), cs[1..]);
    }
  }

  lemma {:induction false} InsertLength(m: seq<Choice>, c: Choice)
    ensures |InsertChoice(m, c)| == |m| + 1
  {
    if m != [] {
      InsertLength(m[1..], c);
    }
  }

  lemma NormalValuesIff(k: FieldType, values: seq<string>)
    requires k != TypeInvalid
    ensures CleanAll(Printed(k, values)) == values <==> NormalValues(k, values)
  {
    CleanAllIff(Printed(k, values));
    ZeroOne();
    assert |Printed(k, values)| <= 1 || Multi(k);
    if values != [] && !Multi(k) && k != TypeBoolean && |values| == 1 {
      assert Printed(k, values) == values;
    }
    if k == TypeBoolean && |values| == 1 {
      assert values == [values[0]];
    }
    hide CleanAll, AllValid;
  }

  lemma ZeroOne()
    ensures CleanAll(["0"]) == ["0"] && CleanAll(["1"]) == ["1"]
    ensures AllValid(["0"]) && AllValid(["1"])
  {
  }

  /** A field comes back as it was exactly if it is normal. */
  lemma FieldRoundTripIff(f: Field)
    requires f.kind != TypeInvalid
    ensures ParseField(PrintField(f).value) == f <==> Normal(f)
  {
    ParsePrintField(f);
    CleanIff(f.name);
    CleanIff(f.caption);
    CleanIff(f.desc);
    NormalValuesIff(f.kind, f.values);
    OptionsIff(f.options);
    hide Clean, CleanAll, CleanChoices, InsertAll, ValidXml, NormalValues, ParseField, PrintField, Ordered, ValidChoices;
  }

  lemma {:induction false} InsertValid(m: seq<Choice>, c: Choice)
    requires ValidChoices(m) && ValidXml(c.caption) && ValidXml(c.value)
    ensures ValidChoices(InsertChoice(m, c))
  {
    hide ValidXml;
    if m != [] {
      InsertValid(m[1..], c);
    }
  }

  lemma {:induction false} InsertAllValid(m: seq<Choice>, cs: seq<Choice>)
    requires ValidChoices(m)
    ensures ValidChoices(InsertAll(m, CleanChoices(cs)))
    decreases |cs|
  {
    hide ValidXml, ValidChoices, Clean;
    if cs != [] {
      var c := Choice(Clean(cs[0].caption), Clean(cs[0].value));
      InsertValid(m, c);
      InsertAllValid(InsertChoice(m, c), cs[1..]);
    }
  }

  lemma OptionsIff(cs: seq<Choice>)
    ensures InsertAll([], CleanChoices(cs)) == cs <==> ValidChoices(cs) && Ordered(cs)
  {
    InsertAllValid([], cs);
    InsertAllOrdered([], CleanChoices(cs));
    CleanChoicesIff(cs);
    InsertAllIff(cs);
    hide CleanChoices, ValidChoices, Ordered, InsertAll;
  }

  // ---- printing again ----

  /** The field prints to the same element after a round trip. */
  predicate PrintsAgain(f: Field) {
    ValidXml(f.desc) && (Listed(f.kind) ==> Ordered(CleanChoices(f.options)))
  }

  lemma HeadAgain(f: Field)
    ensures PrintHead(Normalized(f)) == PrintHead(f)
  {
    CleanIff(f.name);
    CleanIff(f.caption);
    hide Clean;
  }

  lemma {:induction false} ValuesAgain(values: seq<string>)
    ensures PrintValues(CleanAll(values)) == PrintValues(values)
  {
    if values != [] {
      CleanIff(values[0]);
      ValuesAgain(values[1..]);
      hide Clean;
      assert CleanAll(values)[1..] == CleanAll(values[1..]);
    }
  }

  lemma PrintedAgain(k: FieldType, values: seq<string>)
    requires k != TypeInvalid
    ensures PrintValues(Printed(k, CleanAll(Printed(k, values)))) == PrintValues(Printed(k, values))
  {
    ValuesAgain(Printed(k, values));
    ZeroOne();
    SomePrinted(k, values);
    hide CleanAll, PrintValues;
  }

  lemma SomePrinted(k: FieldType, values: seq<string>)
    ensures k != TypeBoolean ==> Printed(k, CleanAll(Printed(k, values))) == CleanAll(Printed(k, values))
    ensures k == TypeBoolean ==> Printed(k, values) == ["0"] || Printed(k, values) == ["1"]
    ensures Printed(TypeBoolean, ["0"]) == ["0"] && Printed(TypeBoolean, ["1"]) == ["1"]
  {
    var p := CleanAll(Printed(k, values));
    if |p| == 1 {
      assert p == [p[0]];
    }
    hide CleanAll;
  }

  lemma {:induction false} ChoicesAgain(cs: seq<Choice>)
    ensures PrintChoices(CleanChoices(cs)) == PrintChoices(cs)
  {
    if cs != [] {
      ChoiceAgain(cs[0]);
      ChoicesAgain(cs[1..]);
      hide PrintChoice, Clean;
      assert CleanChoices(cs)[1..] == CleanChoices(cs[1..]);
    }
  }

  lemma ChoiceAgain(c: Choice)
    ensures PrintChoice(Choice(Clean(c.caption), Clean(c.value))) == PrintChoice(c)
  {
    CleanIff(c.caption);
    CleanIff(c.value);
    hide Clean;
  }

  /** An option can be read off its element. */
  lemma {:induction false} ChoicesDiffer(a: seq<Choice>, b: seq<Choice>)
    requires PrintChoices(a) == PrintChoices(b)
    ensures CleanChoices(a) == CleanChoices(b)
  {
    if a != [] && b != [] {
      var f := Field(TypeListMulti, "", "", "", false, [], []);
      AbsorbChoice(f, a[0]);
      AbsorbChoice(f, b[0]);
      assert PrintChoices(a)[0] == PrintChoice(a[0]) && PrintChoices(b)[0] == PrintChoice(b[0]);
      assert PrintChoices(a)[1..] == PrintChoices(a[1..]) && PrintChoices(b)[1..] == PrintChoices(b[1..]);
      hide PrintChoice, Absorb, Clean;
      assert InsertChoice([], Choice(Clean(a[0].caption), Clean(a[0].value))) == [Choice(Clean(a[0].caption), Clean(a[0].value))];
      ChoicesDiffer(a[1..], b[1..]);
    }
  }

  lemma {:induction false} CleanChoicesTwice(cs: seq<Choice>)
    ensures CleanChoices(CleanChoices(cs)) == CleanChoices(cs)
    ensures ValidChoices(CleanChoices(cs))
  {
    if cs != [] {
      CleanIff(cs[0].caption);
      CleanIff(cs[0].value);
      hide Clean, ValidXml;
      CleanChoicesTwice(cs[1..]);
      assert CleanChoices(cs)[1..] == CleanChoices(cs[1..]);
    }
  }

  lemma OptionsAgainIff(cs: seq<Choice>)
    ensures PrintChoices(InsertAll([], CleanChoices(cs))) == PrintChoices(cs) <==> Ordered(CleanChoices(cs))
  {
    var clean := CleanChoices(cs);
    var m := InsertAll([], clean);
    ChoicesAgain(cs);
    InsertAllIff(clean);
    InsertAllValid([], cs);
    CleanChoicesIff(m);
    CleanChoicesTwice(cs);
    hide PrintChoices, CleanChoices, InsertAll, Ordered, ValidChoices;
    if PrintChoices(m) == PrintChoices(cs) {
      ChoicesDiffer(m, clean);
    }
  }

  lemma {:induction false} ChoicesLength(cs: seq<Choice>)
    ensures |PrintChoices(cs)| == |cs|
  {
    if cs != [] {
      ChoicesLength(cs[1..]);
    }
  }

  /** Four parts make the same whole, the last being the same and two of them as long. */
  lemma SameParts(a: seq<Tag>, b: seq<Tag>, c: seq<Tag>, y: seq<Tag>, z: seq<Tag>, d: seq<Tag>)
    requires |c| == |z|
    ensures a + b + c + d == a + y + z + d <==> b == y && c == z
  {
    if a + b + c + d == a + y + z + d {
      assert |b| == |y|;
      assert b == (a + b + c + d)[|a|..|a| + |b|];
      assert y == (a + y + z + d)[|a|..|a| + |b|];
      assert c == (a + b + c + d)[|a| + |b|..|a| + |b| + |c|];
      assert z == (a + y + z + d)[|a| + |b|..|a| + |b| + |c|];
    }
  }

  /** Print, parse, and print again: the same element exactly if no text was dropped that leaves an
      element behind, and no option changed its place. */
  lemma PrintsAgainIff(f: Field)
    requires f.kind != TypeInvalid
    ensures PrintField(ParseField(PrintField(f).value)) == PrintField(f) <==> PrintsAgain(f)
  {
    ParsePrintField(f);
    var g := Normalized(f);
    HeadAgain(f);
    PrintedAgain(f.kind, f.values);
    OptionsAgain(f);
    DescAgain(f);
    SameParts(PrintRequired(f), PrintDesc(g), PrintOptions(g), PrintDesc(f), PrintOptions(f), PrintValues(Printed(f.kind, f.values)));
    SameField(f, g);
    hide PrintHead, PrintDesc, PrintOptions, PrintValues, Printed, Clean, CleanAll, CleanChoices, InsertAll, ValidXml, PrintField, ParseField;
  }

  lemma SameField(f: Field, g: Field)
    requires f.kind == g.kind != TypeInvalid && f.required == g.required && PrintHead(f) == PrintHead(g)
    requires PrintValues(Printed(f.kind, f.values)) == PrintValues(Printed(g.kind, g.values))
    ensures
      var v := PrintValues(Printed(f.kind, f.values));
      PrintField(g) == PrintField(f) <==>
        PrintRequired(f) + PrintDesc(g) + PrintOptions(g) + v == PrintRequired(f) + PrintDesc(f) + PrintOptions(f) + v
  {
    hide PrintHead, PrintDesc, PrintOptions, PrintValues, Printed;
  }

  lemma DescAgain(f: Field)
    ensures PrintDesc(Normalized(f)) == PrintDesc(f) <==> ValidXml(f.desc)
  {
    CleanIff(f.desc);
    if !ValidXml(f.desc) {
      assert f.desc != "";
    }
  }

  lemma OptionsAgain(f: Field)
    ensures |PrintOptions(Normalized(f))| == |PrintOptions(f)|
    ensures PrintOptions(Normalized(f)) == PrintOptions(f) <==> (Listed(f.kind) ==> Ordered(CleanChoices(f.options)))
  {
    OptionsAgainIff(f.options);
    ChoicesLength(f.options);
    ChoicesLength(InsertAll([], CleanChoices(f.options)));
    InsertAllLength([], CleanChoices(f.options));
    hide PrintChoices, CleanChoices, InsertAll, Ordered;
  }
}
