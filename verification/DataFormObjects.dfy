/** The objects behind data forms: constructors and `tag` methods with the loops of the source. */
module DataFormObjects {
  import opened Text
  import opened Tags
  import Fields = DataFormFields
  import Forms = DataForms

  class DataFormField {
    var kind: Fields.FieldType
    var name: string
    var caption: string
    var desc: string
    var required: bool
    var values: seq<string>
    var options: seq<Fields.Choice>

    function State(): Fields.Field
      reads this
    {
      Fields.Field(kind, name, caption, desc, required, values, options)
    }

    /** `DataFormField( const Tag* )` */
    constructor FromTag(t: Tag)
      ensures State() == Fields.ParseField(t)
    {
      kind, name, caption, desc, required, values, options := Fields.TypeInvalid, "", "", "", false, [], [];
      new;
      var typeName := FindAttribute(t.attributes, "type");
      if typeName == "" {
        if t.name != "" {
          kind := Fields.TypeNone;
        }
      } else {
        kind := Fields.FieldTypeOf(typeName);
      }
      if HasAttribute(t.attributes, "var") {
        name := FindAttribute(t.attributes, "var");
      }
      if HasAttribute(t.attributes, "label") {
        caption := FindAttribute(t.attributes, "label");
      }
      AbsentAttribute(t.attributes, "var");
      AbsentAttribute(t.attributes, "label");
      hide Fields.Absorb;
      var i := 0;
      while i < |t.children|
        invariant i <= |t.children|
        invariant Fields.AbsorbAll(State(), t.children[i..]) == Fields.ParseField(t)
      {
        AbsorbNext(State(), t.children, i);
        Child(t.children[i]);
        i := i + 1;
      }
    }

    method Child(t: Tag)
      modifies this
      ensures State() == Fields.Absorb(old(State()), t)
    {
      if t.name == "desc" {
        desc := t.cdata;
      } else if t.name == "required" {
        required := true;
      } else if t.name == "value" {
        if kind == Fields.TypeTextMulti || kind == Fields.TypeListMulti || kind == Fields.TypeJidMulti {
          AddValue(t.cdata);
        } else {
          SetValue(t.cdata);
        }
      } else if t.name == "option" {
        var v := FindChild(t.children, "value");
        if v.Some? {
          options := Fields.InsertChoice(options, Fields.Choice(FindAttribute(t.attributes, "label"), v.value.cdata));
        }
      }
    }

    method SetValue(value: string)
      modifies `values
      ensures values == [value]
    {
      values := [];
      AddValue(value);
    }

    method AddValue(value: string)
      modifies `values
      ensures values == old(values) + [value]
    {
      values := values + [value];
    }

    /** `tag` */
    method ToTag() returns (r: Option<Tag>)
      ensures r == Fields.PrintField(State())
    {
      if kind == Fields.TypeInvalid { return None; }
      hide AddAttribute, Fields.PrintChoice, Fields.PrintHead, TextTag;
      Head(State());
      var field := Tag("field", [], "", []);
      field := AddAttribute(field, "type", Fields.FieldTypeName(kind));
      field := AddAttribute(field, "var", name);
      field := AddAttribute(field, "label", caption);
      ghost var parts := Fields.PrintRequired(State()) + Fields.PrintDesc(State());
      if required {
        field := field.(children := field.children + [TextTag("required", "")]);
      }
      if desc != "" {
        field := field.(children := field.children + [TextTag("desc", desc)]);
      }
      assert field == Fields.PrintHead(State()).(children := parts);
      var children := AddValues(field.children);
      return Some(field.(children := children));
    }

    /** The options and the values, as the type says. */
    method AddValues(parts: seq<Tag>) returns (children: seq<Tag>)
      requires kind != Fields.TypeInvalid && parts == Fields.PrintRequired(State()) + Fields.PrintDesc(State())
      ensures Fields.PrintField(State()) == Some(Fields.PrintHead(State()).(children := children))
    {
      hide Fields.PrintField, Fields.PrintHead, Fields.PrintChoice, Fields.PrintRequired, Fields.PrintDesc, TextTag;
      Children(State(), parts);
      children := parts;
      if kind == Fields.TypeListSingle || kind == Fields.TypeListMulti {
        var added := Options();
        children := children + added;
      } else if kind == Fields.TypeBoolean {
        if |values| == 0 || values[0] == "false" || values[0] == "0" {
          children := children + [TextTag("value", "0")];
        } else {
          children := children + [TextTag("value", "1")];
        }
      }
      if kind == Fields.TypeTextMulti || kind == Fields.TypeListMulti || kind == Fields.TypeJidMulti {
        var added := Values();
        children := children + added;
      }
      if |values| > 0 && !(kind == Fields.TypeTextMulti || kind == Fields.TypeListMulti
                           || kind == Fields.TypeBoolean || kind == Fields.TypeJidMulti) {
        children := children + [TextTag("value", values[0])];
      }
    }

    /** The loop over the options. */
    method Options() returns (added: seq<Tag>)
      ensures added == Fields.PrintChoices(options)
    {
      added := [];
      var i := 0;
      while i < |options|
        invariant i <= |options| && added + Fields.PrintChoices(options[i..]) == Fields.PrintChoices(options)
      {
        var option := AddAttribute(Tag("option", [], "", []), "label", options[i].caption);
        option := AddChild(option, Some(TextTag("value", options[i].value)));
        assert option == Fields.PrintChoice(options[i]);
        NextChoice(added, options, i);
        added := added + [option];
        i := i + 1;
      }
    }

    /** The loop over the values. */
    method Values() returns (added: seq<Tag>)
      ensures added == Fields.PrintValues(values)
    {
      added := [];
      var i := 0;
      while i < |values|
        invariant i <= |values| && added + Fields.PrintValues(values[i..]) == Fields.PrintValues(values)
      {
        NextValue(added, values, i);
        added := added + [TextTag("value", values[i])];
        i := i + 1;
      }
    }
  }

  lemma {:induction false} AbsentAttribute(attributes: seq<Attribute>, name: string)
    ensures !HasAttribute(attributes, name) ==> FindAttribute(attributes, name) == ""
  {
    if attributes != [] {
      AbsentAttribute(attributes[1..], name);
    }
  }

  lemma AbsorbNext(f: Fields.Field, ts: seq<Tag>, i: nat)
    requires i < |ts|
    ensures Fields.AbsorbAll(f, ts[i..]) == Fields.AbsorbAll(Fields.Absorb(f, ts[i]), ts[i + 1..])
  {
    hide Fields.Absorb;
    assert ts[i..][1..] == ts[i + 1..];
  }

  lemma NextChoice(added: seq<Tag>, cs: seq<Fields.Choice>, i: nat)
    requires i < |cs|
    ensures added + Fields.PrintChoices(cs[i..]) == added + [Fields.PrintChoice(cs[i])] + Fields.PrintChoices(cs[i + 1..])
  {
    hide Fields.PrintChoice;
    assert cs[i..][1..] == cs[i + 1..];
  }

  lemma NextValue(added: seq<Tag>, values: seq<string>, i: nat)
    requires i < |values|
    ensures added + Fields.PrintValues(values[i..]) == added + [TextTag("value", values[i])] + Fields.PrintValues(values[i + 1..])
  {
    hide TextTag;
    assert values[i..][1..] == values[i + 1..];
  }

  lemma Head(f: Fields.Field)
    ensures Fields.PrintHead(f).children == []
    ensures
      Fields.PrintHead(f) ==
        AddAttribute(AddAttribute(AddAttribute(Tag("field", [], "", []), "type", Fields.FieldTypeName(f.kind)), "var", f.name),
          "label", f.caption)
  {
  }

  /** The children, type by type. */
  lemma Children(f: Fields.Field, parts: seq<Tag>)
    requires f.kind != Fields.TypeInvalid && parts == Fields.PrintRequired(f) + Fields.PrintDesc(f)
    ensures
      var values := f.values;
      Fields.PrintField(f) == Some(Fields.PrintHead(f).(children :=
        if f.kind == Fields.TypeListMulti then parts + Fields.PrintChoices(f.options) + Fields.PrintValues(values)
        else if f.kind == Fields.TypeListSingle then
          if values == [] then parts + Fields.PrintChoices(f.options)
          else parts + Fields.PrintChoices(f.options) + [TextTag("value", values[0])]
        else if f.kind == Fields.TypeBoolean then parts + [TextTag("value", Fields.BooleanValue(values))]
        else if Fields.Multi(f.kind) then parts + Fields.PrintValues(values)
        else if values == [] then parts
        else parts + [TextTag("value", values[0])]))
  {
    hide Fields.PrintHead, Fields.PrintRequired, Fields.PrintDesc, Fields.PrintChoices, TextTag, Fields.BooleanValue;
    OneValue(Fields.BooleanValue(f.values));
    if f.values != [] {
      OneValue(f.values[0]);
    }
    hide Fields.PrintValues;
    assert parts + [] == parts;
    assert parts + Fields.PrintChoices(f.options) + [] == parts + Fields.PrintChoices(f.options);
  }

  lemma OneValue(v: string)
    ensures Fields.PrintValues([v]) == [TextTag("value", v)]
    ensures Fields.PrintValues([]) == []
  {
    assert Fields.PrintValues([v]) == [TextTag("value", v)] + Fields.PrintValues([v][1..]);
  }

  class DataForm {
    var kind: Forms.FormType
    var title: string
    var instructions: seq<string>
    var fields: seq<Fields.Field>
    var reported: Option<seq<Fields.Field>>
    var items: seq<seq<Fields.Field>>

    function State(): Forms.DataForm
      reads this
    {
      Forms.DataForm(kind, title, instructions, fields, reported, items)
    }

    /** `DataForm( const Tag* )` */
    constructor FromTag(t: Tag)
      ensures State() == Forms.ParseForm(t)
    {
      kind, title, instructions, fields, reported, items := Forms.Invalid, "", [], [], None, [];
      new;
      var parsed := Parse(t);
    }

    method Parse(t: Tag) returns (r: bool)
      requires State() == Forms.NO_FORM
      modifies this
      ensures State() == Forms.ParseForm(t) && (r <==> Forms.ParseKind(t) != Forms.Invalid)
    {
      if FindAttribute(t.attributes, XMLNS) != Forms.XMLNS_X_DATA || t.name != "x" { return false; }
      var typeName := FindAttribute(t.attributes, "type");
      if typeName == "" {
        kind := Forms.Form;
      } else {
        kind := Forms.FormTypeOf(typeName);
        if kind == Forms.Invalid { return false; }
      }
      hide Forms.AbsorbForm;
      var i := 0;
      while i < |t.children|
        invariant i <= |t.children|
        invariant Forms.AbsorbForms(State(), t.children[i..]) == Forms.ParseForm(t)
      {
        AbsorbNextForm(State(), t.children, i);
        Child(t.children[i]);
        i := i + 1;
      }
      return true;
    }

    method Child(t: Tag)
      modifies this
      ensures State() == Forms.AbsorbForm(old(State()), t)
    {
      if t.name == "title" {
        title := t.cdata;
      } else if t.name == "instructions" {
        instructions := instructions + [t.cdata];
      } else if t.name == "field" {
        var f := new DataFormField.FromTag(t);
        fields := fields + [f.State()];
      } else if t.name == "reported" {
        if reported.None? {
          var fs := Container(t.children);
          reported := Some(fs);
        }
      } else if t.name == "item" {
        var fs := Container(t.children);
        items := items + [fs];
      }
    }

    /** The loop of `DataFormItem( const Tag* )` and `DataFormReported( Tag* )`. */
    static method Container(ts: seq<Tag>) returns (fs: seq<Fields.Field>)
      ensures fs == Forms.ParseFields(ts)
    {
      fs := [];
      var i := 0;
      while i < |ts|
        invariant i <= |ts| && fs + Forms.ParseFields(ts[i..]) == Forms.ParseFields(ts)
      {
        NextField(fs, ts, i);
        var f := new DataFormField.FromTag(ts[i]);
        fs := fs + [f.State()];
        i := i + 1;
      }
    }

    /** `tag` */
    method ToTag() returns (r: Option<Tag>)
      ensures r == Forms.PrintForm(State())
    {
      if kind == Forms.Invalid { return None; }
      hide Forms.PrintFields, Forms.PrintTexts, Forms.PrintItems, Forms.PrintFormHead, Forms.PrintForm, TextTag, AddAttribute;
      FormHead(kind);
      var x := AddAttribute(Tag("x", [], "", []), XMLNS, Forms.XMLNS_X_DATA);
      x := AddAttribute(x, "type", Forms.FormTypeName(kind));
      var titles, report := [], [];
      if title != "" {
        titles := [TextTag("title", title)];
      }
      var texts := Instructions();
      var printed := PrintAll(fields);
      if reported.Some? {
        var inner := PrintAll(reported.value);
        report := [Tag("reported", [], "", inner)];
      }
      var printedItems := Items();
      FormShape(State(), titles + texts + printed + report + printedItems);
      return Some(x.(children := titles + texts + printed + report + printedItems));
    }

    method Instructions() returns (added: seq<Tag>)
      ensures added == Forms.PrintTexts("instructions", instructions)
    {
      added := [];
      var i := 0;
      while i < |instructions|
        invariant i <= |instructions|
        invariant added + Forms.PrintTexts("instructions", instructions[i..]) == Forms.PrintTexts("instructions", instructions)
      {
        NextText(added, "instructions", instructions, i);
        added := added + [TextTag("instructions", instructions[i])];
        i := i + 1;
      }
    }

    method Items() returns (added: seq<Tag>)
      ensures added == Forms.PrintItems(items)
    {
      added := [];
      var i := 0;
      while i < |items|
        invariant i <= |items| && added + Forms.PrintItems(items[i..]) == Forms.PrintItems(items)
      {
        NextItem(added, items, i);
        var printed := PrintAll(items[i]);
        added := added + [Tag("item", [], "", printed)];
        i := i + 1;
      }
    }

    /** The loop over the fields of a form, an item or a report; `addChild` leaves out null. */
    static method PrintAll(fs: seq<Fields.Field>) returns (added: seq<Tag>)
      ensures added == Forms.PrintFields(fs)
    {
      hide Fields.PrintField;
      added := [];
      var i := 0;
      while i < |fs|
        invariant i <= |fs| && added + Forms.PrintFields(fs[i..]) == Forms.PrintFields(fs)
      {
        NextPrinted(added, fs, i);
        var child := Fields.PrintField(fs[i]);
        if child.Some? {
          added := added + [child.value];
        }
        i := i + 1;
      }
    }
  }

  lemma AbsorbNextForm(f: Forms.DataForm, ts: seq<Tag>, i: nat)
    requires i < |ts|
    ensures Forms.AbsorbForms(f, ts[i..]) == Forms.AbsorbForms(Forms.AbsorbForm(f, ts[i]), ts[i + 1..])
  {
    hide Forms.AbsorbForm;
    assert ts[i..][1..] == ts[i + 1..];
  }

  lemma NextField(fs: seq<Fields.Field>, ts: seq<Tag>, i: nat)
    requires i < |ts|
    ensures fs + Forms.ParseFields(ts[i..]) == fs + [Fields.ParseField(ts[i])] + Forms.ParseFields(ts[i + 1..])
  {
    hide Fields.ParseField;
    assert ts[i..][1..] == ts[i + 1..];
  }

  lemma NextText(added: seq<Tag>, name: string, ss: seq<string>, i: nat)
    requires i < |ss|
    ensures added + Forms.PrintTexts(name, ss[i..]) == added + [TextTag(name, ss[i])] + Forms.PrintTexts(name, ss[i + 1..])
  {
    hide TextTag;
    assert ss[i..][1..] == ss[i + 1..];
  }

  lemma NextItem(added: seq<Tag>, items: seq<seq<Fields.Field>>, i: nat)
    requires i < |items|
    ensures added + Forms.PrintItems(items[i..]) ==
      added + [Tag("item", [], "", Forms.PrintFields(items[i]))] + Forms.PrintItems(items[i + 1..])
  {
    hide Forms.PrintFields;
    assert items[i..][1..] == items[i + 1..];
  }

  lemma NextPrinted(added: seq<Tag>, fs: seq<Fields.Field>, i: nat)
    requires i < |fs|
    ensures added + Forms.PrintFields(fs[i..]) ==
      (match Fields.PrintField(fs[i]) case None => added case Some(t) => added + [t]) + Forms.PrintFields(fs[i + 1..])
  {
    hide Fields.PrintField;
    assert fs[i..][1..] == fs[i + 1..];
  }

  lemma FormHead(kind: Forms.FormType)
    ensures Forms.PrintFormHead(kind).children == []
    ensures Forms.PrintFormHead(kind) ==
      AddAttribute(AddAttribute(Tag("x", [], "", []), XMLNS, Forms.XMLNS_X_DATA), "type", Forms.FormTypeName(kind))
  {
  }

  lemma FormShape(f: Forms.DataForm, added: seq<Tag>)
    requires f.kind != Forms.Invalid
    requires
      added ==
        (if f.title == "" then [] else [TextTag("title", f.title)]) + Forms.PrintTexts("instructions", f.instructions)
        + Forms.PrintFields(f.fields)
        + (if f.reported.None? then [] else [Tag("reported", [], "", Forms.PrintFields(f.reported.value))])
        + Forms.PrintItems(f.items)
    ensures Forms.PrintForm(f) == Some(Forms.PrintFormHead(f.kind).(children := added))
  {
    hide Forms.PrintFormHead, Forms.PrintTexts, Forms.PrintFields, Forms.PrintItems, TextTag;
  }
}
