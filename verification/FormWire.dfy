/** Data forms on the wire: the element that a form becomes, and what is read from any element, child
    by child (gloox/dataform.cpp:57-145). */
module FormWire {
  import opened Text
  import opened Tags
  import opened DataFormFields
  import opened DataForms
  import opened FieldWire

  /** The types of forms and their names (XEP-0004, section 3.1). */
  const FORM_TYPES: seq<(string, FormType)> := [("form", Form), ("submit", Submit), ("cancel", Cancel), ("result", Result)]

  lemma FormsInTable(name: string, k: FormType)
    requires k != Invalid
    ensures (name, k) in FORM_TYPES <==> name == FormTypeName(k)
    ensures (name, k) in FORM_TYPES <==> k == FormTypeOf(name)
  {
    forall i | 0 <= i < |FORM_TYPES|
      ensures FORM_TYPES[i].0 == FormTypeName(FORM_TYPES[i].1)
    {
    }
  }

  lemma FormHead(f: DataForm)
    requires f.kind != Invalid
    ensures
      var a := PrintForm(f).value;
      && a.name == "x" && a.cdata == "" && FindAttribute(a.attributes, "xmlns") == "jabber:x:data"
      && (FindAttribute(a.attributes, "type"), f.kind) in FORM_TYPES
  {
    var t := Tag("x", [], "", []);
    FormNames(f.kind);
    FormParts(f);
    FormName(f.kind);
    hide AddAttribute, FORM_TYPES, FormTypeOf;
    FormsInTable(FormTypeName(f.kind), f.kind);
    hide FormTypeName, Clean;
    AddFind(t, XMLNS, XMLNS_X_DATA, XMLNS);
    AddFind(AddAttribute(t, XMLNS, XMLNS_X_DATA), "type", FormTypeName(f.kind), XMLNS);
    AddFind(AddAttribute(t, XMLNS, XMLNS_X_DATA), "type", FormTypeName(f.kind), "type");
    hide FindAttribute, PrintForm;
  }

  lemma FormParts(f: DataForm)
    requires f.kind != Invalid
    ensures PrintForm(f).value.attributes == PrintFormHead(f.kind).attributes
    ensures PrintForm(f).value.name == "x" && PrintForm(f).value.cdata == ""
  {
  }

  /** The type that is read is the one of the name, or that of a form to fill in without a name. */
  lemma KindRead(t: Tag, k: FormType)
    requires k != Invalid
    ensures
      var name := FindAttribute(t.attributes, "type");
      ParseForm(t).kind == k <==>
        && t.name == "x" && FindAttribute(t.attributes, "xmlns") == "jabber:x:data"
        && ((name, k) in FORM_TYPES || (name == "" && k == Form))
  {
    var kind := ParseKind(t);
    AbsorbedKind(NO_FORM.(kind := kind), t.children);
    hide AbsorbForms, FindAttribute, FORM_TYPES;
    FormsInTable(FindAttribute(t.attributes, "type"), k);
    NoFormName(k);
    hide FormTypeName, FormTypeOf;
  }

  lemma NoFormName(k: FormType)
    ensures FormTypeOf("") == Invalid
  {
  }

  // ---- the children that are printed ----

  lemma {:induction false} TextsNamed(texts: seq<string>, of: string, name: string)
    ensures Named(PrintTexts(of, texts), name) == if name == of then PrintTexts(of, texts) else []
    ensures |PrintTexts(of, texts)| == |texts| && forall i | 0 <= i < |texts| :: PrintTexts(of, texts)[i] == Tag(of, [], Clean(texts[i]), [])
  {
    if texts != [] {
      TextsNamed(texts[1..], of, name);
      var ts := PrintTexts(of, texts);
      hide Clean;
      assert ts[0] == Tag(of, [], Clean(texts[0]), []) && ts[1..] == PrintTexts(of, texts[1..]);
      assert Named(ts, name) == (if name == of then [ts[0]] else []) + Named(ts[1..], name);
      hide Named, PrintTexts;
    }
  }

  /** Fields that can be printed. */
  function Printable(fs: seq<Field>): seq<Field> {
    if fs == [] then [] else (if fs[0].kind != TypeInvalid then [fs[0]] else []) + Printable(fs[1..])
  }

  /** The elements are those of the fields that can be printed, one by one. */
  predicate FieldElements(ts: seq<Tag>, fs: seq<Field>) {
    && |ts| == |Printable(fs)|
    && forall i | 0 <= i < |ts| && i < |Printable(fs)| :: PrintField(Printable(fs)[i]) == Some(ts[i])
  }

  lemma {:induction false} FieldsNamed(fs: seq<Field>, name: string)
    ensures Named(PrintFields(fs), name) == if name == "field" then PrintFields(fs) else []
  {
    hide PrintField, Normalized;
    if fs != [] {
      FieldsNamed(fs[1..], name);
      if fs[0].kind == TypeInvalid {
        NoField(fs);
      } else {
        FirstField(fs);
        FieldName(fs[0]);
        var ts := PrintFields(fs);
        assert Named(ts, name) == (if name == "field" then [ts[0]] else []) + Named(ts[1..], name);
        hide Named, PrintFields, NormalizedFields;
      }
    }
  }

  lemma {:induction false} FieldsOneByOne(fs: seq<Field>)
    ensures FieldElements(PrintFields(fs), fs)
  {
    hide PrintField, Normalized;
    if fs != [] {
      FieldsOneByOne(fs[1..]);
      var rest := Printable(fs[1..]);
      if fs[0].kind == TypeInvalid {
        NoField(fs);
        assert Printable(fs) == [] + rest == rest;
      } else {
        FirstField(fs);
        assert Printable(fs) == [fs[0]] + rest;
        hide Printable;
        OneMore(PrintFields(fs)[0], PrintFields(fs[1..]), fs[0], rest);
      }
      hide PrintFields, NormalizedFields;
    }
  }

  lemma OneMore(t: Tag, ts: seq<Tag>, f: Field, fs: seq<Field>)
    requires PrintField(f) == Some(t) && |ts| == |fs| && forall i | 0 <= i < |ts| && i < |fs| :: PrintField(fs[i]) == Some(ts[i])
    ensures forall i | 0 <= i <= |ts| && i <= |fs| :: PrintField(([f] + fs)[i]) == Some(([t] + ts)[i])
  {
    hide PrintField;
  }

  lemma {:induction false} ItemsNamed(items: seq<seq<Field>>, name: string)
    ensures Named(PrintItems(items), name) == if name == "item" then PrintItems(items) else []
    ensures |PrintItems(items)| == |items| && forall i | 0 <= i < |items| :: FieldElements(PrintItems(items)[i].children, items[i])
  {
    hide FieldElements, PrintFields;
    if items != [] {
      ItemsNamed(items[1..], name);
      FieldsOneByOne(items[0]);
      var ts := PrintItems(items);
      assert ts[0] == Tag("item", [], "", PrintFields(items[0])) && ts[1..] == PrintItems(items[1..]);
      assert Named(ts, name) == (if name == "item" then [ts[0]] else []) + Named(ts[1..], name);
      hide Named, PrintItems;
    }
  }

  lemma FormNamed(f: DataForm, name: string)
    requires f.kind != Invalid
    ensures Named(PrintForm(f).value.children, name) ==
      Named(PrintTitle(f.title), name) + Named(PrintTexts("instructions", f.instructions), name)
        + Named(PrintFields(f.fields), name) + Named(PrintReported(f.reported), name) + Named(PrintItems(f.items), name)
  {
    FormChildren(f);
    hide PrintForm, PrintFormHead, PrintTitle, PrintTexts, PrintFields, PrintReported, PrintItems, Named;
    var a, b, c, d, e := PrintTitle(f.title), PrintTexts("instructions", f.instructions), PrintFields(f.fields),
      PrintReported(f.reported), PrintItems(f.items);
    NamedAppend(a + b + c + d, e, name);
    NamedAppend(a + b + c, d, name);
    NamedAppend(a + b, c, name);
    NamedAppend(a, b, name);
  }

  lemma TitleNamed(title: string, name: string)
    ensures Named(PrintTitle(title), name) == if title != "" && name == "title" then [Tag("title", [], Clean(title), [])] else []
  {
    hide Clean;
    assert [TextTag("title", title)][1..] == [];
  }

  lemma ReportedNamed(reported: Option<seq<Field>>, name: string)
    ensures Named(PrintReported(reported), name) ==
      if reported.Some? && name == "reported" then [Tag("reported", [], "", PrintFields(reported.value))] else []
  {
    hide PrintFields;
    if reported.Some? {
      assert [PrintContainer("reported", reported.value)][1..] == [];
    }
  }

  lemma Alone(ts: seq<Tag>)
    ensures ts + [] == ts && [] + ts == ts
  {
  }

  lemma FormTitle(f: DataForm)
    requires f.kind != Invalid
    ensures Named(PrintForm(f).value.children, "title") == if f.title != "" then [Tag("title", [], Clean(f.title), [])] else []
  {
    hide PrintForm, Named, PrintTitle, PrintTexts, PrintFields, PrintReported, PrintItems, Clean;
    FormNamed(f, "title");
    TitleNamed(f.title, "title");
    TextsNamed(f.instructions, "instructions", "title");
    FieldsNamed(f.fields, "title");
    ReportedNamed(f.reported, "title");
    ItemsNamed(f.items, "title");
    hide FieldElements;
    Alone(if f.title != "" then [Tag("title", [], Clean(f.title), [])] else []);
  }

  lemma FormInstructions(f: DataForm)
    requires f.kind != Invalid
    ensures Named(PrintForm(f).value.children, "instructions") == PrintTexts("instructions", f.instructions)
  {
    hide PrintForm, Named, PrintTitle, PrintTexts, PrintFields, PrintReported, PrintItems, Clean;
    FormNamed(f, "instructions");
    TitleNamed(f.title, "instructions");
    TextsNamed(f.instructions, "instructions", "instructions");
    FieldsNamed(f.fields, "instructions");
    ReportedNamed(f.reported, "instructions");
    ItemsNamed(f.items, "instructions");
    hide FieldElements;
    Alone(PrintTexts("instructions", f.instructions));
  }

  lemma FormFields(f: DataForm)
    requires f.kind != Invalid
    ensures Named(PrintForm(f).value.children, "field") == PrintFields(f.fields)
  {
    hide PrintForm, Named, PrintTitle, PrintTexts, PrintFields, PrintReported, PrintItems, Clean;
    FormNamed(f, "field");
    TitleNamed(f.title, "field");
    TextsNamed(f.instructions, "instructions", "field");
    FieldsNamed(f.fields, "field");
    ReportedNamed(f.reported, "field");
    ItemsNamed(f.items, "field");
    hide FieldElements;
    Alone(PrintFields(f.fields));
  }

  lemma FormReport(f: DataForm)
    requires f.kind != Invalid
    ensures Named(PrintForm(f).value.children, "reported") == if f.reported.Some? then [Tag("reported", [], "", PrintFields(f.reported.value))] else []
  {
    hide PrintForm, Named, PrintTitle, PrintTexts, PrintFields, PrintReported, PrintItems, Clean;
    FormNamed(f, "reported");
    TitleNamed(f.title, "reported");
    TextsNamed(f.instructions, "instructions", "reported");
    FieldsNamed(f.fields, "reported");
    ReportedNamed(f.reported, "reported");
    ItemsNamed(f.items, "reported");
    hide FieldElements;
    Alone(if f.reported.Some? then [Tag("reported", [], "", PrintFields(f.reported.value))] else []);
  }

  lemma FormItems(f: DataForm)
    requires f.kind != Invalid
    ensures Named(PrintForm(f).value.children, "item") == PrintItems(f.items)
  {
    hide PrintForm, Named, PrintTitle, PrintTexts, PrintFields, PrintReported, PrintItems, Clean;
    FormNamed(f, "item");
    TitleNamed(f.title, "item");
    TextsNamed(f.instructions, "instructions", "item");
    FieldsNamed(f.fields, "item");
    ReportedNamed(f.reported, "item");
    ItemsNamed(f.items, "item");
    hide FieldElements;
    Alone(PrintItems(f.items));
  }

  /** The element that a form becomes, child by child. */
  lemma FormElement(f: DataForm)
    requires f.kind != Invalid
    ensures
      var ts := PrintForm(f).value.children;
      && Named(ts, "title") == (if f.title != "" then [Tag("title", [], Clean(f.title), [])] else [])
      && |Named(ts, "instructions")| == |f.instructions|
      && (forall i | 0 <= i < |f.instructions| && i < |Named(ts, "instructions")| ::
           Named(ts, "instructions")[i] == Tag("instructions", [], Clean(f.instructions[i]), []))
      && FieldElements(Named(ts, "field"), f.fields)
    ensures
      var reported := Named(PrintForm(f).value.children, "reported");
      if f.reported.None? then reported == [] else |reported| == 1 && FieldElements(reported[0].children, f.reported.value)
    ensures
      var items := Named(PrintForm(f).value.children, "item");
      |items| == |f.items| && forall i | 0 <= i < |f.items| && i < |items| :: FieldElements(items[i].children, f.items[i])
  {
    hide PrintForm, Named, PrintTexts, PrintFields, PrintItems, Clean, FieldElements;
    FormTitle(f);
    FormInstructions(f);
    FormFields(f);
    FormReport(f);
    FormItems(f);
    TextsNamed(f.instructions, "instructions", "instructions");
    FieldsOneByOne(f.fields);
    if f.reported.Some? {
      FieldsOneByOne(f.reported.value);
    }
    ItemsNamed(f.items, "item");
  }

  // ---- what is read ----

  lemma AbsorbFormSnoc(f: DataForm, ts: seq<Tag>, t: Tag)
    ensures AbsorbForms(f, ts + [t]) == AbsorbForm(AbsorbForms(f, ts), t)
  {
    AbsorbFormsAppend(f, ts, [t]);
    hide AbsorbForm;
    assert AbsorbForms(AbsorbForms(f, ts), [t]) == AbsorbForms(AbsorbForm(AbsorbForms(f, ts), t), []);
  }

  lemma {:induction false} AbsorbedKind(f: DataForm, ts: seq<Tag>)
    ensures AbsorbForms(f, ts).kind == f.kind
    decreases |ts|
  {
    if ts != [] {
      AbsorbFormKind(f, ts[0]);
      hide AbsorbForm;
      AbsorbedKind(AbsorbForm(f, ts[0]), ts[1..]);
    }
  }

  lemma AbsorbFormKind(f: DataForm, t: Tag)
    ensures AbsorbForm(f, t).kind == f.kind
  {
    hide ParseField, ParseFields;
  }

  /** The fields are those of the elements, one by one. */
  predicate ReadFrom(fs: seq<Field>, ts: seq<Tag>) {
    |fs| == |ts| && forall i | 0 <= i < |fs| && i < |ts| :: fs[i] == ParseField(ts[i])
  }

  lemma {:induction false} FieldsRead(ts: seq<Tag>)
    ensures ReadFrom(ParseFields(ts), ts)
  {
    hide ParseField;
    if ts != [] {
      FieldsRead(ts[1..]);
    }
  }

  predicate ItemsReadFrom(items: seq<seq<Field>>, ts: seq<Tag>) {
    |items| == |ts| && forall i | 0 <= i < |items| && i < |ts| :: ReadFrom(items[i], ts[i].children)
  }

  /** One child more. */
  lemma AbsorbedOne(g: DataForm, t: Tag)
    ensures
      var h := AbsorbForm(g, t);
      && h.title == (if t.name == "title" then t.cdata else g.title)
      && h.instructions == (if t.name == "instructions" then g.instructions + [t.cdata] else g.instructions)
      && h.fields == (if t.name == "field" then g.fields + [ParseField(t)] else g.fields)
      && h.reported == (if t.name == "reported" && g.reported.None? then Some(ParseFields(t.children)) else g.reported)
      && h.items == (if t.name == "item" then g.items + [ParseFields(t.children)] else g.items)
  {
    hide ParseField, ParseFields;
  }

  lemma {:induction false} AbsorbedFormTexts(f: DataForm, ts: seq<Tag>)
    requires f.title == "" && f.instructions == []
    ensures AbsorbForms(f, ts).title == LastOf(Named(ts, "title"))
    ensures AbsorbForms(f, ts).instructions == AllTexts(Named(ts, "instructions"))
    decreases |ts|
  {
    if ts != [] {
      var us, t := ts[..|ts| - 1], ts[|ts| - 1];
      assert us + [t] == ts;
      AbsorbedFormTexts(f, us);
      hide AbsorbForms, Named, AbsorbForm, AllTexts, ParseField, ParseFields;
      AbsorbFormSnoc(f, us, t);
      AbsorbedOne(AbsorbForms(f, us), t);
      NamedSnoc(us, t, "title");
      NamedSnoc(us, t, "instructions");
      MoreTexts(Named(us, "instructions"), t);
    }
  }

  lemma MoreFields(fs: seq<Field>, ts: seq<Tag>, t: Tag)
    requires ReadFrom(fs, ts)
    ensures ReadFrom(fs + [ParseField(t)], ts + [t]) && ts + [] == ts
  {
    hide ParseField;
  }

  lemma MoreRead(items: seq<seq<Field>>, ts: seq<Tag>, t: Tag)
    requires ItemsReadFrom(items, ts)
    ensures ItemsReadFrom(items + [ParseFields(t.children)], ts + [t]) && ts + [] == ts
  {
    FieldsRead(t.children);
    hide ReadFrom, ParseFields;
  }

  lemma {:induction false} AbsorbedFormFields(f: DataForm, ts: seq<Tag>)
    requires f.fields == [] && f.items == []
    ensures ReadFrom(AbsorbForms(f, ts).fields, Named(ts, "field"))
    ensures ItemsReadFrom(AbsorbForms(f, ts).items, Named(ts, "item"))
    decreases |ts|
  {
    if ts != [] {
      var us, t := ts[..|ts| - 1], ts[|ts| - 1];
      assert us + [t] == ts;
      AbsorbedFormFields(f, us);
      hide AbsorbForms, Named, AbsorbForm, ParseField, ParseFields, ReadFrom, ItemsReadFrom;
      AbsorbFormSnoc(f, us, t);
      AbsorbedOne(AbsorbForms(f, us), t);
      NamedSnoc(us, t, "field");
      NamedSnoc(us, t, "item");
      MoreFields(AbsorbForms(f, us).fields, Named(us, "field"), t);
      MoreRead(AbsorbForms(f, us).items, Named(us, "item"), t);
    }
  }

  lemma {:induction false} AbsorbedFormReported(f: DataForm, ts: seq<Tag>)
    requires f.reported.None?
    ensures
      var reported := Named(ts, "reported");
      AbsorbForms(f, ts).reported == if reported == [] then None else Some(ParseFields(reported[0].children))
    decreases |ts|
  {
    if ts != [] {
      var us, t := ts[..|ts| - 1], ts[|ts| - 1];
      assert us + [t] == ts;
      AbsorbedFormReported(f, us);
      hide AbsorbForms, Named, AbsorbForm, ParseField, ParseFields;
      AbsorbFormSnoc(f, us, t);
      AbsorbedOne(AbsorbForms(f, us), t);
      NamedSnoc(us, t, "reported");
    }
  }

  /** A form has what the element says: the last title, all instructions, fields and items, and the
      first report. */
  lemma FormRead(t: Tag)
    requires ParseForm(t).kind != Invalid
    ensures
      var f, ts := ParseForm(t), t.children;
      && f.title == LastOf(Named(ts, "title"))
      && f.instructions == AllTexts(Named(ts, "instructions"))
      && ReadFrom(f.fields, Named(ts, "field"))
      && (f.reported.Some? <==> Named(ts, "reported") != [])
      && (f.reported.Some? && Named(ts, "reported") != [] ==> ReadFrom(f.reported.value, Named(ts, "reported")[0].children))
      && ItemsReadFrom(f.items, Named(ts, "item"))
  {
    var f0 := NO_FORM.(kind := ParseKind(t));
    AbsorbedFormTexts(f0, t.children);
    AbsorbedFormFields(f0, t.children);
    AbsorbedFormReported(f0, t.children);
    hide AbsorbForms, Named, ParseKind, ParseFields, ReadFrom, ItemsReadFrom, AllTexts;
    if Named(t.children, "reported") != [] {
      FieldsRead(Named(t.children, "reported")[0].children);
    }
  }
}
