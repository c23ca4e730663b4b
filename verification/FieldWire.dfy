/** Fields of data forms on the wire: the elements that they become, and what is read from any
    element, child by child (gloox/dataformfield.cpp:39-126). */
module FieldWire {
  import opened Text
  import opened StringOrder
  import opened Tags
  import opened DataFormFields

  // ---- values of a field ----

  /** The types of several values (XEP-0004, section 3.3). */
  predicate Multiple(k: FieldType) {
    k == TypeTextMulti || k == TypeListMulti || k == TypeJidMulti
  }

  /** The texts are those of the elements, one by one. */
  predicate SameTexts(ts: seq<Tag>, texts: seq<string>) {
    |ts| == |texts| && forall i | 0 <= i < |ts| :: ts[i].cdata == texts[i]
  }

  lemma {:induction false} ValuesNamed(values: seq<string>, name: string)
    ensures name == "value" ==>
      && |Named(PrintValues(values), name)| == |values|
      && forall i | 0 <= i < |values| :: Named(PrintValues(values), name)[i].cdata == Clean(values[i])
    ensures name != "value" ==> Named(PrintValues(values), name) == []
  {
    if values != [] {
      ValuesNamed(values[1..], name);
      var ts := PrintValues(values);
      hide Clean;
      assert ts[0] == TextTag("value", values[0]) && ts[1..] == PrintValues(values[1..]);
      assert Named(ts, name) == (if name == "value" then [ts[0]] else []) + Named(ts[1..], name);
      hide Named, PrintValues;
    }
  }

  lemma {:induction false} ChoicesNamed(cs: seq<Choice>, name: string)
    ensures Named(PrintChoices(cs), name) == if name == "option" then PrintChoices(cs) else []
    ensures |PrintChoices(cs)| == |cs| && forall i | 0 <= i < |cs| :: PrintChoices(cs)[i] == PrintChoice(cs[i])
  {
    if cs != [] {
      ChoicesNamed(cs[1..], name);
      var ts := PrintChoices(cs);
      assert ts[0] == PrintChoice(cs[0]) && ts[1..] == PrintChoices(cs[1..]);
      assert ts[0].name == "option";
      hide PrintChoice;
      assert Named(ts, name) == (if name == "option" then [ts[0]] else []) + Named(ts[1..], name);
      hide Named, PrintChoices;
    }
  }

  /** The children of a printed field, by their names. */
  lemma FieldNamed(f: Field, name: string)
    requires f.kind != TypeInvalid
    ensures Named(PrintField(f).value.children, name) ==
      Named(PrintRequired(f), name) + Named(PrintDesc(f), name) + Named(PrintOptions(f), name)
        + Named(PrintValues(Printed(f.kind, f.values)), name)
  {
    var a, b, c, d := PrintRequired(f), PrintDesc(f), PrintOptions(f), PrintValues(Printed(f.kind, f.values));
    HeadChildren(f);
    hide PrintField, PrintRequired, PrintDesc, PrintOptions, PrintValues, Named;
    NamedAppend(a + b + c, d, name);
    NamedAppend(a + b, c, name);
    NamedAppend(a, b, name);
  }

  lemma RequiredNamed(f: Field, name: string)
    ensures Named(PrintRequired(f), name) == if f.required && name == "required" then [Tag("required", [], "", [])] else []
  {
    assert [TextTag("required", "")][1..] == [];
  }

  lemma DescNamed(f: Field, name: string)
    ensures Named(PrintDesc(f), name) == if f.desc != "" && name == "desc" then [Tag("desc", [], Clean(f.desc), [])] else []
  {
    hide Clean;
    assert [TextTag("desc", f.desc)][1..] == [];
  }

  lemma NamedValues(f: Field)
    requires f.kind != TypeInvalid
    ensures Named(PrintField(f).value.children, "value") == Named(PrintValues(Printed(f.kind, f.values)), "value")
  {
    FieldNamed(f, "value");
    RequiredNamed(f, "value");
    DescNamed(f, "value");
    ChoicesNamed(f.options, "value");
    hide Named, PrintField, PrintRequired, PrintDesc, PrintChoices, PrintValues;
    OptionsNamed(f, "value");
  }

  lemma OptionsNamed(f: Field, name: string)
    ensures Named(PrintOptions(f), name) == if name == "option" && Listed(f.kind) then PrintChoices(f.options) else []
  {
    ChoicesNamed(f.options, name);
    hide PrintChoices;
  }

  /** All the values of a field of several; one value, "0" or "1", of a boolean; else the first. */
  lemma FieldValues(f: Field)
    requires f.kind != TypeInvalid
    ensures
      var values := Named(PrintField(f).value.children, "value");
      if Multiple(f.kind) then
        |values| == |f.values| && forall i | 0 <= i < |f.values| && i < |values| :: values[i].cdata == Clean(f.values[i])
      else if f.kind == TypeBoolean then
        SameTexts(values, [if f.values != [] && f.values[0] != "false" && f.values[0] != "0" then "1" else "0"])
      else SameTexts(values, if f.values == [] then [] else [Clean(f.values[0])])
  {
    NamedValues(f);
    ValuesNamed(Printed(f.kind, f.values), "value");
    hide Named, PrintField, PrintValues;
    OneClean();
    hide Clean;
  }

  lemma OneClean()
    ensures Clean("0") == "0" && Clean("1") == "1"
  {
  }

  lemma NamedRequired(f: Field)
    requires f.kind != TypeInvalid
    ensures Named(PrintField(f).value.children, "required") == if f.required then [Tag("required", [], "", [])] else []
  {
    FieldNamed(f, "required");
    hide Named, PrintField, PrintDesc, PrintOptions, PrintValues;
    DescNamed(f, "required");
    OptionsNamed(f, "required");
    ValuesNamed(Printed(f.kind, f.values), "required");
    RequiredNamed(f, "required");
    hide PrintRequired;
  }

  lemma NamedDesc(f: Field)
    requires f.kind != TypeInvalid
    ensures Named(PrintField(f).value.children, "desc") == if f.desc != "" then [Tag("desc", [], Clean(f.desc), [])] else []
  {
    FieldNamed(f, "desc");
    hide Named, PrintField, PrintDesc, PrintOptions, PrintValues, PrintRequired, Clean;
    DescNamed(f, "desc");
    OptionsNamed(f, "desc");
    ValuesNamed(Printed(f.kind, f.values), "desc");
    RequiredNamed(f, "desc");
  }

  lemma NamedOptions(f: Field)
    requires f.kind != TypeInvalid
    ensures Named(PrintField(f).value.children, "option") ==
      if f.kind == TypeListSingle || f.kind == TypeListMulti then PrintChoices(f.options) else []
  {
    FieldNamed(f, "option");
    hide Named, PrintField, PrintDesc, PrintOptions, PrintValues, PrintRequired;
    DescNamed(f, "option");
    OptionsNamed(f, "option");
    ValuesNamed(Printed(f.kind, f.values), "option");
    RequiredNamed(f, "option");
  }

  /** An option has its label, if there is one, and the value in an element. */
  lemma OptionElement(c: Choice)
    ensures
      var t := PrintChoice(c);
      && t.name == "option" && t.cdata == "" && t.children == [Tag("value", [], Clean(c.value), [])]
      && t.attributes == if Clean(c.caption) == "" then [] else [Attribute("label", c.caption)]
  {
    hide Clean;
  }

  /** The options of a list, in their order; no other field has any. */
  lemma FieldOptions(f: Field)
    requires f.kind != TypeInvalid
    ensures
      var options := Named(PrintField(f).value.children, "option");
      if f.kind == TypeListSingle || f.kind == TypeListMulti
      then |options| == |f.options| && forall i | 0 <= i < |f.options| && i < |options| :: options[i] == PrintChoice(f.options[i])
      else options == []
  {
    NamedOptions(f);
    ChoicesNamed(f.options, "option");
    hide Named, PrintField, PrintChoices, PrintChoice;
  }

  // ---- what is read from a field ----

  function LastText(ts: seq<Tag>): seq<string> {
    if ts == [] then [] else [ts[|ts| - 1].cdata]
  }

  function LastOf(ts: seq<Tag>): string {
    if ts == [] then "" else ts[|ts| - 1].cdata
  }

  function AllTexts(ts: seq<Tag>): (texts: seq<string>)
    ensures |texts| == |ts|
  {
    seq(|ts|, i requires 0 <= i < |ts| => ts[i].cdata)
  }

  lemma NamedSnoc(ts: seq<Tag>, t: Tag, name: string)
    ensures Named(ts + [t], name) == Named(ts, name) + if t.name == name then [t] else []
  {
    NamedAppend(ts, [t], name);
    assert [t][1..] == [];
  }

  lemma AbsorbSnoc(f: Field, ts: seq<Tag>, t: Tag)
    ensures AbsorbAll(f, ts + [t]) == Absorb(AbsorbAll(f, ts), t)
  {
    AbsorbAppend(f, ts, [t]);
    hide Absorb;
    assert AbsorbAll(AbsorbAll(f, ts), [t]) == AbsorbAll(Absorb(AbsorbAll(f, ts), t), []);
  }

  /** One child more. */
  lemma AbsorbedHead(g: Field, t: Tag)
    ensures
      var h := Absorb(g, t);
      && h.kind == g.kind && h.name == g.name && h.caption == g.caption
      && h.desc == (if t.name == "desc" then t.cdata else g.desc)
      && h.required == (g.required || t.name == "required")
      && h.values == (if t.name != "value" then g.values
           else if Multiple(g.kind) then g.values + [t.cdata]
           else [t.cdata])
  {
    hide InsertChoice, FindChild, FindAttribute;
  }

  lemma MoreTexts(ts: seq<Tag>, t: Tag)
    ensures AllTexts(ts + [t]) == AllTexts(ts) + [t.cdata] && LastText(ts + [t]) == [t.cdata] && ts + [] == ts
  {
  }

  lemma {:induction false} AbsorbedValues(f: Field, ts: seq<Tag>)
    requires f.values == []
    ensures
      var g := AbsorbAll(f, ts);
      && g.kind == f.kind && g.name == f.name && g.caption == f.caption
      && g.values == if Multiple(f.kind) then AllTexts(Named(ts, "value")) else LastText(Named(ts, "value"))
    decreases |ts|
  {
    if ts != [] {
      var us, t := ts[..|ts| - 1], ts[|ts| - 1];
      assert us + [t] == ts;
      AbsorbedValues(f, us);
      hide AbsorbAll, Named, Absorb, AllTexts, LastText;
      AbsorbSnoc(f, us, t);
      AbsorbedHead(AbsorbAll(f, us), t);
      NamedSnoc(us, t, "value");
      MoreTexts(Named(us, "value"), t);
    }
  }

  lemma {:induction false} AbsorbedMarks(f: Field, ts: seq<Tag>)
    requires f.desc == "" && !f.required
    ensures AbsorbAll(f, ts).desc == LastOf(Named(ts, "desc"))
    ensures AbsorbAll(f, ts).required == (Named(ts, "required") != [])
    decreases |ts|
  {
    if ts != [] {
      var us, t := ts[..|ts| - 1], ts[|ts| - 1];
      assert us + [t] == ts;
      AbsorbedMarks(f, us);
      hide AbsorbAll, Named, Absorb;
      AbsorbSnoc(f, us, t);
      AbsorbedHead(AbsorbAll(f, us), t);
      NamedSnoc(us, t, "desc");
      NamedSnoc(us, t, "required");
    }
  }

  /** A field has what the element says: all the texts of its values or the last, the last description,
      and the mark. */
  lemma FieldRead(t: Tag)
    ensures
      var f, values := ParseField(t), Named(t.children, "value");
      && f.name == FindAttribute(t.attributes, "var") && f.caption == FindAttribute(t.attributes, "label")
      && f.values == (if Multiple(f.kind) then AllTexts(values) else LastText(values))
      && f.desc == LastOf(Named(t.children, "desc"))
      && f.required == (Named(t.children, "required") != [])
  {
    AbsorbedValues(ParseHead(t), t.children);
    AbsorbedMarks(ParseHead(t), t.children);
    hide AbsorbAll, Named, FindAttribute, FieldTypeOf;
  }

  // ---- options ----

  /** The values that a label has, in their order. */
  function Under(cs: seq<Choice>, caption: string): seq<string> {
    if cs == [] then [] else (if cs[0].caption == caption then [cs[0].value] else []) + Under(cs[1..], caption)
  }

  /** What the elements offer: a label, and the first value in them; one without a value does not count. */
  function Offered(ts: seq<Tag>): seq<Choice> {
    if ts == [] then []
    else
      var values := Named(ts[0].children, "value");
      (if values == [] then [] else [Choice(FindAttribute(ts[0].attributes, "label"), values[0].cdata)]) + Offered(ts[1..])
  }

  lemma {:induction false} InsertUnder(m: seq<Choice>, c: Choice, caption: string)
    requires Ordered(m)
    ensures Under(InsertChoice(m, c), caption) == Under(m, caption) + if c.caption == caption then [c.value] else []
    decreases |m|
  {
    if m == [] || !Leq(m[0].caption, c.caption) {
      NoneUnder(m, c.caption);
      hide Leq, Ordered;
      assert ([c] + m)[1..] == m;
      if c.caption == caption {
        assert Under(m, caption) == [];
      }
    } else {
      InsertUnder(m[1..], c, caption);
      hide Leq, Ordered;
      var rest := InsertChoice(m[1..], c);
      assert ([m[0]] + rest)[1..] == rest;
    }
  }

  /** Behind a greater label no smaller one comes. */
  lemma {:induction false} NoneUnder(m: seq<Choice>, caption: string)
    requires Ordered(m) && (m == [] || !Leq(m[0].caption, caption))
    ensures Under(m, caption) == []
    decreases |m|
  {
    if m != [] {
      LeqTotal(caption, caption);
      if |m| > 1 && Leq(m[1].caption, caption) {
        LeqTransitive(m[0].caption, m[1].caption, caption);
      }
      hide Leq;
      NoneUnder(m[1..], caption);
    }
  }

  /** Sorting by label keeps what each label has, in its order. */
  lemma {:induction false} InsertAllUnder(m: seq<Choice>, cs: seq<Choice>, caption: string)
    requires Ordered(m)
    ensures Under(InsertAll(m, cs), caption) == Under(m, caption) + Under(cs, caption)
    decreases |cs|
  {
    if cs != [] {
      InsertOrdered(m, cs[0]);
      InsertUnder(m, cs[0], caption);
      hide Ordered, InsertChoice;
      InsertAllUnder(InsertChoice(m, cs[0]), cs[1..], caption);
    }
  }

  lemma {:induction false} AbsorbedOptions(f: Field, ts: seq<Tag>)
    ensures AbsorbAll(f, ts).options == InsertAll(f.options, Offered(Named(ts, "option")))
    decreases |ts|
  {
    if ts != [] {
      var t, us := ts[0], Named(ts[1..], "option");
      AbsorbedOption(f, t);
      hide Absorb;
      AbsorbedOptions(Absorb(f, t), ts[1..]);
      assert Named(ts, "option") == (if t.name == "option" then [t] else []) + us;
      hide InsertChoice, FindAttribute, Named, AbsorbAll;
      if t.name == "option" {
        NextOffered(t, us);
        if Named(t.children, "value") != [] {
          MoreChoices(f.options, Choice(FindAttribute(t.attributes, "label"), Named(t.children, "value")[0].cdata), Offered(us));
        } else {
          assert [] + Offered(us) == Offered(us);
        }
      } else {
        assert [] + us == us;
      }
      hide Offered, InsertAll;
      assert AbsorbAll(f, ts) == AbsorbAll(Absorb(f, t), ts[1..]) by { AbsorbAhead(f, ts); }
    }
  }

  lemma AbsorbAhead(f: Field, ts: seq<Tag>)
    requires ts != []
    ensures AbsorbAll(f, ts) == AbsorbAll(Absorb(f, ts[0]), ts[1..])
  {
    hide Absorb;
  }

  lemma NextOffered(t: Tag, ts: seq<Tag>)
    ensures Offered([t] + ts) == (if Named(t.children, "value") == [] then [] else
      [Choice(FindAttribute(t.attributes, "label"), Named(t.children, "value")[0].cdata)]) + Offered(ts)
  {
    assert ([t] + ts)[1..] == ts;
  }

  lemma MoreChoices(m: seq<Choice>, c: Choice, cs: seq<Choice>)
    ensures InsertAll(m, [c] + cs) == InsertAll(InsertChoice(m, c), cs)
  {
    hide InsertChoice;
    assert ([c] + cs)[1..] == cs;
  }

  lemma AbsorbedOption(f: Field, t: Tag)
    ensures
      var values := Named(t.children, "value");
      Absorb(f, t).options ==
        if t.name == "option" && values != [] then
          InsertChoice(f.options, Choice(FindAttribute(t.attributes, "label"), values[0].cdata))
        else f.options
  {
    FindChildIsFirst(t.children, "value");
    hide InsertChoice, FindAttribute, FindChild, Named;
  }

  /** The options that a field offers are sorted by label; each label keeps its values in their order. */
  lemma OptionsRead(t: Tag, caption: string)
    ensures Ordered(ParseField(t).options)
    ensures Under(ParseField(t).options, caption) == Under(Offered(Named(t.children, "option")), caption)
  {
    AbsorbedOptions(ParseHead(t), t.children);
    assert ParseHead(t).options == [];
    assert Ordered([]) && Under([], caption) == [];
    InsertAllOrdered([], Offered(Named(t.children, "option")));
    InsertAllUnder([], Offered(Named(t.children, "option")), caption);
    hide AbsorbAll, ParseHead, InsertAll, Offered, Under, Ordered, Named;
  }

  // ---- types ----

  /** The types of fields and their names (XEP-0004, section 3.3). */
  const FIELD_TYPES: seq<(string, FieldType)> := [
    ("boolean", TypeBoolean), ("fixed", TypeFixed), ("hidden", TypeHidden), ("jid-multi", TypeJidMulti),
    ("jid-single", TypeJidSingle), ("list-multi", TypeListMulti), ("list-single", TypeListSingle),
    ("text-multi", TypeTextMulti), ("text-private", TypeTextPrivate), ("text-single", TypeTextSingle)
  ]

  lemma NamesInTable(name: string, k: FieldType)
    requires k != TypeNone && k != TypeInvalid
    ensures (name, k) in FIELD_TYPES <==> name == FieldTypeName(k)
  {
    forall i | 0 <= i < |FIELD_TYPES|
      ensures FIELD_TYPES[i].0 == FieldTypeName(FIELD_TYPES[i].1)
    {
    }
    assert exists i | 0 <= i < 10 :: FIELD_TYPES[i].1 == k by { KindInTable(k); }
    hide FIELD_TYPES, FieldTypeName;
  }

  lemma KindInTable(k: FieldType)
    requires k != TypeNone && k != TypeInvalid
    ensures exists i | 0 <= i < 10 :: FIELD_TYPES[i].1 == k
  {
    var i := match k
      case TypeBoolean => 0 case TypeFixed => 1 case TypeHidden => 2 case TypeJidMulti => 3 case TypeJidSingle => 4
      case TypeListMulti => 5 case TypeListSingle => 6 case TypeTextMulti => 7 case TypeTextPrivate => 8 case _ => 9;
    assert FIELD_TYPES[i].1 == k;
  }

  lemma NameOfType(name: string)
    ensures FieldTypeOf(name) != TypeNone && FieldTypeOf(name) != TypeInvalid ==> FieldTypeName(FieldTypeOf(name)) == name
  {
  }

  /** A type has its name, and a name its type. */
  lemma TypesInTable(name: string, k: FieldType)
    requires k != TypeNone && k != TypeInvalid
    ensures (name, k) in FIELD_TYPES <==> name == FieldTypeName(k)
    ensures (name, k) in FIELD_TYPES <==> k == FieldTypeOf(name)
  {
    hide FIELD_TYPES, FieldTypeName, FieldTypeOf;
    NamesInTable(name, k);
    TypeNameBack(k);
    NameOfType(name);
  }

  /** The attributes of a printed field. */
  lemma FieldHead(f: Field)
    requires f.kind != TypeInvalid
    ensures
      var a := PrintField(f).value;
      && a.name == "field" && a.cdata == ""
      && FindAttribute(a.attributes, "var") == Clean(f.name) && FindAttribute(a.attributes, "label") == Clean(f.caption)
      && if f.kind == TypeNone then FindAttribute(a.attributes, "type") == ""
         else (FindAttribute(a.attributes, "type"), f.kind) in FIELD_TYPES
  {
    HeadParts(f);
    TypeBack(f.kind);
    hide Clean, AddAttribute, FIELD_TYPES;
    if f.kind != TypeNone {
      TypesInTable(FieldTypeName(f.kind), f.kind);
    }
    hide FieldTypeName, FieldTypeOf;
    ReadBack(Tag("field", [], "", []), "type", FieldTypeName(f.kind), "var", f.name, "label", f.caption);
    hide PrintField, FindAttribute;
  }

  lemma HeadParts(f: Field)
    requires f.kind != TypeInvalid
    ensures PrintField(f).value.name == "field" && PrintField(f).value.cdata == ""
    ensures PrintField(f).value.attributes == PrintHead(f).attributes
  {
    SameName(f);
  }

  /** The type that is read is the one of the name; without a name, the field has none. */
  lemma TypeRead(t: Tag, k: FieldType)
    requires k != TypeNone && k != TypeInvalid
    ensures ParseField(t).kind == k <==> (FindAttribute(t.attributes, "type"), k) in FIELD_TYPES
    ensures t.name != "" ==> (ParseField(t).kind == TypeNone <==> FindAttribute(t.attributes, "type") == "")
  {
    AbsorbedValues(ParseHead(t), t.children);
    hide AbsorbAll, FindAttribute, FIELD_TYPES;
    TypesInTable(FindAttribute(t.attributes, "type"), k);
    NoneOf(FindAttribute(t.attributes, "type"));
    hide FieldTypeOf, FieldTypeName;
  }

  lemma NoneOf(name: string)
    ensures FieldTypeOf(name) == TypeNone <==> name == ""
  {
  }
}
