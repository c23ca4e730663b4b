/** Data forms (gloox/dataform.cpp, dataformitem.cpp, dataformreported.cpp): the round trip of a
    whole form. */
module DataForms {
  import opened Text
  import opened Tags
  import opened DataFormFields

  const XMLNS_X_DATA := "jabber:x:data"

  datatype FormType = Form | Submit | Cancel | Result | Invalid

  function FormTypeName(k: FormType): string {
    match k case Form => "form" case Submit => "submit" case Cancel => "cancel" case Result => "result" case Invalid => ""
  }

  function FormTypeOf(name: string): FormType {
    if name == "form" then Form else if name == "submit" then Submit
    else if name == "cancel" then Cancel else if name == "result" then Result else Invalid
  }

  datatype DataForm = DataForm(
    kind: FormType,
    title: string,
    instructions: seq<string>,
    fields: seq<Field>,
    reported: Option<seq<Field>>,
    items: seq<seq<Field>>)

  const NO_FORM := DataForm(Invalid, "", [], [], None, [])

  // ---- printing ----

  /** Fields of no valid type are left out. */
  function PrintFields(fs: seq<Field>): seq<Tag> {
    if fs == [] then []
    else (match PrintField(fs[0]) case None => [] case Some(t) => [t]) + PrintFields(fs[1..])
  }

  function PrintContainer(name: string, fs: seq<Field>): Tag {
    Tag(name, [], "", PrintFields(fs))
  }

  function PrintTexts(name: string, ss: seq<string>): seq<Tag> {
    if ss == [] then [] else [TextTag(name, ss[0])] + PrintTexts(name, ss[1..])
  }

  function PrintItems(items: seq<seq<Field>>): seq<Tag> {
    if items == [] then [] else [PrintContainer("item", items[0])] + PrintItems(items[1..])
  }

  function PrintTitle(title: string): seq<Tag> {
    if title == "" then [] else [TextTag("title", title)]
  }

  function PrintReported(reported: Option<seq<Field>>): seq<Tag> {
    if reported.None? then [] else [PrintContainer("reported", reported.value)]
  }

  function PrintFormHead(kind: FormType): Tag {
    AddAttribute(AddAttribute(Tag("x", [], "", []), XMLNS, XMLNS_X_DATA), "type", FormTypeName(kind))
  }

  /** `DataForm::tag` */
  function PrintForm(f: DataForm): Option<Tag> {
    if f.kind == Invalid then None
    else
      Some(PrintFormHead(f.kind).(
        children := PrintTitle(f.title) + PrintTexts("instructions", f.instructions) + PrintFields(f.fields)
          + PrintReported(f.reported) + PrintItems(f.items)))
  }

  // ---- parsing ----

  /** `DataFormItem( const Tag* )` and `DataFormReported( Tag* )`: a child is a field, whatever its name. */
  function ParseFields(ts: seq<Tag>): seq<Field> {
    if ts == [] then [] else [ParseField(ts[0])] + ParseFields(ts[1..])
  }

  /** One child of a form; a second `reported` is ignored. */
  function AbsorbForm(f: DataForm, t: Tag): DataForm {
    if t.name == "title" then f.(title := t.cdata)
    else if t.name == "instructions" then f.(instructions := f.instructions + [t.cdata])
    else if t.name == "field" then f.(fields := f.fields + [ParseField(t)])
    else if t.name == "reported" then
      if f.reported.None? then f.(reported := Some(ParseFields(t.children))) else f
    else if t.name == "item" then f.(items := f.items + [ParseFields(t.children)])
    else f
  }

  function AbsorbForms(f: DataForm, ts: seq<Tag>): DataForm
    decreases |ts|
  {
    if ts == [] then f else AbsorbForms(AbsorbForm(f, ts[0]), ts[1..])
  }

  /** The type, or `Invalid` where `parse` returns false. */
  function ParseKind(t: Tag): FormType {
    if FindAttribute(t.attributes, XMLNS) != XMLNS_X_DATA || t.name != "x" then Invalid
    else
      var kind := FindAttribute(t.attributes, "type");
      if kind == "" then Form else FormTypeOf(kind)
  }

  /** `DataForm( const Tag* )` */
  function ParseForm(t: Tag): DataForm {
    var kind := ParseKind(t);
    if kind == Invalid then NO_FORM else AbsorbForms(NO_FORM.(kind := kind), t.children)
  }

  // ---- the round trip ----

  function NormalizedFields(fs: seq<Field>): seq<Field> {
    if fs == [] then []
    else (if fs[0].kind == TypeInvalid then [] else [Normalized(fs[0])]) + NormalizedFields(fs[1..])
  }

  function NormalizedItems(items: seq<seq<Field>>): seq<seq<Field>> {
    if items == [] then [] else [NormalizedFields(items[0])] + NormalizedItems(items[1..])
  }

  function NormalizedForm(f: DataForm): DataForm {
    DataForm(f.kind, Clean(f.title), CleanAll(f.instructions), NormalizedFields(f.fields),
      match f.reported { case None => None case Some(fs) => Some(NormalizedFields(fs)) },
      NormalizedItems(f.items))
  }

  lemma {:induction false} AbsorbFormsAppend(f: DataForm, a: seq<Tag>, b: seq<Tag>)
    ensures AbsorbForms(f, a + b) == AbsorbForms(AbsorbForms(f, a), b)
    decreases |a|
  {
    if a == [] {
      assert a + b == b;
    } else {
      assert (a + b)[1..] == a[1..] + b;
      hide AbsorbForm;
      AbsorbFormsAppend(AbsorbForm(f, a[0]), a[1..], b);
    }
  }

  lemma {:induction false} AbsorbTexts(f: DataForm, ss: seq<string>)
    ensures AbsorbForms(f, PrintTexts("instructions", ss)) == f.(instructions := f.instructions + CleanAll(ss))
    decreases |ss|
  {
    if ss != [] {
      assert AbsorbForm(f, TextTag("instructions", ss[0])) == f.(instructions := f.instructions + [Clean(ss[0])]);
      hide AbsorbForm, TextTag, Clean;
      AbsorbTexts(f.(instructions := f.instructions + [Clean(ss[0])]), ss[1..]);
      assert f.instructions + [Clean(ss[0])] + CleanAll(ss[1..]) == f.instructions + CleanAll(ss);
    }
  }

  lemma FieldName(f: Field)
    requires f.kind != TypeInvalid
    ensures PrintField(f).Some? && PrintField(f).value.name == "field"
  {
    SameName(f);
  }

  /** A field that prints, at the front. */
  lemma FirstField(fs: seq<Field>)
    requires fs != [] && fs[0].kind != TypeInvalid
    ensures PrintField(fs[0]).Some? && PrintFields(fs) == [PrintField(fs[0]).value] + PrintFields(fs[1..])
    ensures PrintFields(fs)[0] == PrintField(fs[0]).value && PrintFields(fs)[1..] == PrintFields(fs[1..])
    ensures NormalizedFields(fs) == [Normalized(fs[0])] + NormalizedFields(fs[1..])
    ensures NormalizedFields(fs)[0] == Normalized(fs[0]) && NormalizedFields(fs)[1..] == NormalizedFields(fs[1..])
  {
    FieldName(fs[0]);
    hide PrintField, Normalized;
  }

  lemma NoField(fs: seq<Field>)
    requires fs != [] && fs[0].kind == TypeInvalid
    ensures PrintFields(fs) == PrintFields(fs[1..]) && NormalizedFields(fs) == NormalizedFields(fs[1..])
  {
  }

  lemma AbsorbField(f: DataForm, g: Field)
    requires g.kind != TypeInvalid
    ensures PrintField(g).Some? && AbsorbForm(f, PrintField(g).value) == f.(fields := f.fields + [Normalized(g)])
  {
    FieldName(g);
    ParsePrintField(g);
    hide PrintField, ParseField, Normalized;
  }

  lemma {:induction false} AbsorbFields(f: DataForm, fs: seq<Field>)
    ensures AbsorbForms(f, PrintFields(fs)) == f.(fields := f.fields + NormalizedFields(fs))
    decreases |fs|
  {
    hide AbsorbForm, Normalized, PrintField;
    if fs != [] {
      if fs[0].kind == TypeInvalid {
        NoField(fs);
        hide PrintFields, NormalizedFields;
        AbsorbFields(f, fs[1..]);
      } else {
        FirstField(fs);
        AbsorbField(f, fs[0]);
        hide PrintFields, NormalizedFields;
        AbsorbFields(f.(fields := f.fields + [Normalized(fs[0])]), fs[1..]);
        assert f.fields + [Normalized(fs[0])] + NormalizedFields(fs[1..]) == f.fields + NormalizedFields(fs);
      }
    } else {
      assert f.fields + [] == f.fields;
    }
  }

  lemma {:induction false} ParsePrintFields(fs: seq<Field>)
    ensures ParseFields(PrintFields(fs)) == NormalizedFields(fs)
  {
    hide Normalized, PrintField, ParseField;
    if fs != [] {
      ParsePrintFields(fs[1..]);
      if fs[0].kind == TypeInvalid {
        NoField(fs);
      } else {
        FirstField(fs);
        ParsePrintField(fs[0]);
      }
      hide PrintFields, NormalizedFields;
    }
  }

  lemma AbsorbItem(f: DataForm, item: seq<Field>)
    ensures AbsorbForm(f, PrintContainer("item", item)) == f.(items := f.items + [NormalizedFields(item)])
  {
    ParsePrintFields(item);
    hide PrintFields, ParseFields, NormalizedFields;
  }

  lemma MoreItems(f: DataForm, x: seq<Field>, rest: seq<seq<Field>>)
    ensures f.(items := f.items + [x]).(items := f.items + [x] + rest) == f.(items := f.items + ([x] + rest))
  {
    assert f.items + [x] + rest == f.items + ([x] + rest);
  }

  lemma {:induction false} AbsorbItems(f: DataForm, items: seq<seq<Field>>)
    ensures AbsorbForms(f, PrintItems(items)) == f.(items := f.items + NormalizedItems(items))
    decreases |items|
  {
    hide AbsorbForm, PrintContainer, NormalizedFields;
    if items != [] {
      AbsorbItem(f, items[0]);
      var g, rest := f.(items := f.items + [NormalizedFields(items[0])]), items[1..];
      assert PrintItems(items)[1..] == PrintItems(rest);
      assert AbsorbForms(f, PrintItems(items)) == AbsorbForms(g, PrintItems(rest));
      assert NormalizedItems(items) == [NormalizedFields(items[0])] + NormalizedItems(rest);
      hide AbsorbForms, PrintItems, NormalizedItems;
      AbsorbItems(g, rest);
      MoreItems(f, NormalizedFields(items[0]), NormalizedItems(rest));
    } else {
      assert f.items + [] == f.items;
    }
  }

  lemma AbsorbReported(f: DataForm, reported: Option<seq<Field>>)
    requires f.reported.None?
    ensures AbsorbForms(f, PrintReported(reported)) ==
      f.(reported := match reported case None => None case Some(fs) => Some(NormalizedFields(fs)))
  {
    if reported.Some? {
      ParsePrintFields(reported.value);
      var t := PrintContainer("reported", reported.value);
      hide NormalizedFields, PrintFields;
      assert AbsorbForm(f, t) == f.(reported := Some(NormalizedFields(reported.value)));
      assert AbsorbForms(f, [t]) == AbsorbForms(AbsorbForm(f, t), []);
    }
  }

  lemma AbsorbTitle(f: DataForm, title: string)
    requires f.title == ""
    ensures AbsorbForms(f, PrintTitle(title)) == f.(title := Clean(title))
  {
    if title != "" {
      var t := TextTag("title", title);
      assert AbsorbForms(f, [t]) == AbsorbForms(AbsorbForm(f, t), []);
    }
  }

  lemma FormHeadBack(kind: FormType)
    requires kind != Invalid
    ensures ParseKind(PrintFormHead(kind)) == kind
  {
    var t := Tag("x", [], "", []);
    var u := AddAttribute(t, XMLNS, XMLNS_X_DATA);
    FormNames(kind);
    AddFind(t, XMLNS, XMLNS_X_DATA, XMLNS);
    AddFind(u, "type", FormTypeName(kind), XMLNS);
    AddFind(u, "type", FormTypeName(kind), "type");
    FormName(kind);
    hide AddAttribute, FormTypeName, FormTypeOf, Clean, XMLNS, XMLNS_X_DATA;
  }

  lemma FormName(kind: FormType)
    ensures PrintFormHead(kind).name == "x" && PrintFormHead(kind).children == []
  {
  }

  lemma FormNames(kind: FormType)
    requires kind != Invalid
    ensures FormTypeOf(FormTypeName(kind)) == kind && Clean(FormTypeName(kind)) == FormTypeName(kind) != ""
    ensures Clean(XMLNS_X_DATA) == XMLNS_X_DATA != "" && XMLNS != "type" && XMLNS != ""
  {
  }

  /** Printing and parsing a form normalises it. */
  lemma ParsePrintForm(f: DataForm)
    requires f.kind != Invalid
    ensures ParseForm(PrintForm(f).value) == NormalizedForm(f)
  {
    var t := PrintForm(f).value;
    FormHeadBack(f.kind);
    FormChildren(f);
    AbsorbParts(NO_FORM.(kind := f.kind), f);
    hide AbsorbForms, PrintForm, PrintFormHead, ParseKind, PrintTitle, PrintTexts, PrintFields, PrintReported, PrintItems, NormalizedFields, NormalizedItems, CleanAll, Clean;
  }

  lemma FormChildren(f: DataForm)
    requires f.kind != Invalid
    ensures
      var t := PrintForm(f).value;
      && t.children == PrintTitle(f.title) + PrintTexts("instructions", f.instructions) + PrintFields(f.fields)
           + PrintReported(f.reported) + PrintItems(f.items)
      && ParseKind(t) == ParseKind(PrintFormHead(f.kind))
  {
  }

  lemma AbsorbParts(f0: DataForm, f: DataForm)
    requires f0 == NO_FORM.(kind := f.kind)
    ensures
      AbsorbForms(f0, PrintTitle(f.title) + PrintTexts("instructions", f.instructions) + PrintFields(f.fields)
        + PrintReported(f.reported) + PrintItems(f.items)) == NormalizedForm(f)
  {
    var a, b, c, d, e := PrintTitle(f.title), PrintTexts("instructions", f.instructions), PrintFields(f.fields),
      PrintReported(f.reported), PrintItems(f.items);
    AbsorbFormsAppend(f0, a + b + c + d, e);
    AbsorbFormsAppend(f0, a + b + c, d);
    AbsorbFormsAppend(f0, a + b, c);
    AbsorbFormsAppend(f0, a, b);
    AbsorbTitle(f0, f.title);
    var f1 := f0.(title := Clean(f.title));
    AbsorbTexts(f1, f.instructions);
    var f2 := f1.(instructions := CleanAll(f.instructions));
    AbsorbFields(f2, f.fields);
    var f3 := f2.(fields := NormalizedFields(f.fields));
    AbsorbReported(f3, f.reported);
    var f4 := f3.(reported := NormalizedForm(f).reported);
    AbsorbItems(f4, f.items);
    hide AbsorbForms, PrintTitle, PrintTexts, PrintFields, PrintReported, PrintItems, NormalizedFields, NormalizedItems, CleanAll, Clean;
    assert [] + CleanAll(f.instructions) == CleanAll(f.instructions);
    assert [] + NormalizedFields(f.fields) == NormalizedFields(f.fields);
    assert [] + NormalizedItems(f.items) == NormalizedItems(f.items);
  }

  // ---- the forms that come back as they were ----

  predicate AllNormal(fs: seq<Field>) {
    fs == [] || (fs[0].kind != TypeInvalid && Normal(fs[0]) && AllNormal(fs[1..]))
  }

  predicate ItemsNormal(items: seq<seq<Field>>) {
    items == [] || (AllNormal(items[0]) && ItemsNormal(items[1..]))
  }

  predicate NormalForm(f: DataForm) {
    && ValidXml(f.title) && AllValid(f.instructions) && AllNormal(f.fields)
    && (f.reported.Some? ==> AllNormal(f.reported.value)) && ItemsNormal(f.items)
  }

  lemma NormalizedIff(f: Field)
    requires f.kind != TypeInvalid
    ensures Normalized(f) == f <==> Normal(f)
  {
    FieldRoundTripIff(f);
    ParsePrintField(f);
    hide ParseField, PrintField, Normal, Normalized;
  }

  lemma {:induction false} NormalizedFieldsIff(fs: seq<Field>)
    ensures NormalizedFields(fs) == fs <==> AllNormal(fs)
    ensures |NormalizedFields(fs)| <= |fs|
  {
    if fs != [] {
      NormalizedFieldsIff(fs[1..]);
      if fs[0].kind != TypeInvalid {
        NormalizedIff(fs[0]);
        FirstField(fs);
        SameCons(Normalized(fs[0]), NormalizedFields(fs[1..]), fs);
      } else {
        NoField(fs);
      }
      hide Normalized, Normal, NormalizedFields, PrintFields, PrintField;
    }
  }

  lemma {:induction false} NormalizedItemsIff(items: seq<seq<Field>>)
    ensures NormalizedItems(items) == items <==> ItemsNormal(items)
  {
    if items != [] {
      NormalizedItemsIff(items[1..]);
      NormalizedFieldsIff(items[0]);
      hide NormalizedFields, AllNormal;
      assert NormalizedItems(items)[0] == NormalizedFields(items[0]) && NormalizedItems(items)[1..] == NormalizedItems(items[1..]);
      assert items == [items[0]] + items[1..];
    }
  }

  /** A form comes back as it was exactly if it is normal. */
  lemma FormRoundTripIff(f: DataForm)
    requires f.kind != Invalid
    ensures ParseForm(PrintForm(f).value) == f <==> NormalForm(f)
  {
    ParsePrintForm(f);
    CleanIff(f.title);
    CleanAllIff(f.instructions);
    NormalizedFieldsIff(f.fields);
    if f.reported.Some? {
      NormalizedFieldsIff(f.reported.value);
    }
    NormalizedItemsIff(f.items);
    hide ParseForm, PrintForm, NormalizedFields, NormalizedItems, CleanAll, Clean, ValidXml, AllValid, AllNormal, ItemsNormal;
  }

  // ---- printing again ----

  predicate AllPrintAgain(fs: seq<Field>) {
    fs == [] || ((fs[0].kind == TypeInvalid || PrintsAgain(fs[0])) && AllPrintAgain(fs[1..]))
  }

  predicate ItemsPrintAgain(items: seq<seq<Field>>) {
    items == [] || (AllPrintAgain(items[0]) && ItemsPrintAgain(items[1..]))
  }

  predicate FormPrintsAgain(f: DataForm) {
    && ValidXml(f.title) && AllPrintAgain(f.fields)
    && (f.reported.Some? ==> AllPrintAgain(f.reported.value)) && ItemsPrintAgain(f.items)
  }

  lemma {:induction false} FieldsAgainIff(fs: seq<Field>)
    ensures PrintFields(NormalizedFields(fs)) == PrintFields(fs) <==> AllPrintAgain(fs)
    ensures |PrintFields(NormalizedFields(fs))| == |PrintFields(fs)|
  {
    hide Normalized, PrintField, ParseField, PrintsAgain;
    if fs != [] {
      FieldsAgainIff(fs[1..]);
      if fs[0].kind == TypeInvalid {
        NoField(fs);
      } else {
        FieldAgain(fs[0]);
        FirstField(fs);
        FirstField(NormalizedFields(fs));
      }
      hide PrintFields, NormalizedFields;
    }
  }

  lemma FieldAgain(f: Field)
    requires f.kind != TypeInvalid
    ensures Normalized(f).kind != TypeInvalid
    ensures PrintField(f).Some? && PrintField(Normalized(f)).Some?
    ensures PrintField(Normalized(f)).value == PrintField(f).value <==> PrintsAgain(f)
  {
    PrintsAgainIff(f);
    ParsePrintField(f);
    FieldName(f);
    FieldName(Normalized(f));
    hide PrintField, ParseField, PrintsAgain;
  }

  lemma {:induction false} ItemsAgainIff(items: seq<seq<Field>>)
    ensures PrintItems(NormalizedItems(items)) == PrintItems(items) <==> ItemsPrintAgain(items)
    ensures |PrintItems(NormalizedItems(items))| == |PrintItems(items)|
  {
    if items != [] {
      ItemsAgainIff(items[1..]);
      FieldsAgainIff(items[0]);
      hide NormalizedFields, PrintFields, AllPrintAgain;
      var n := NormalizedItems(items);
      assert n[0] == NormalizedFields(items[0]) && n[1..] == NormalizedItems(items[1..]);
      assert PrintItems(items) == [PrintContainer("item", items[0])] + PrintItems(items[1..]);
      assert PrintItems(n) == [PrintContainer("item", n[0])] + PrintItems(n[1..]);
      assert PrintItems(items)[1..] == PrintItems(items[1..]) && PrintItems(n)[1..] == PrintItems(n[1..]);
    }
  }

  lemma {:induction false} TextsAgain(name: string, ss: seq<string>)
    ensures PrintTexts(name, CleanAll(ss)) == PrintTexts(name, ss)
  {
    if ss != [] {
      CleanIff(ss[0]);
      TextsAgain(name, ss[1..]);
      hide Clean;
      assert CleanAll(ss)[1..] == CleanAll(ss[1..]);
    }
  }

  lemma TitleAgain(title: string)
    ensures PrintTitle(Clean(title)) == PrintTitle(title) <==> ValidXml(title)
  {
    CleanIff(title);
    if !ValidXml(title) {
      assert title != "";
    }
  }

  lemma ReportedAgain(f: DataForm)
    ensures |PrintReported(NormalizedForm(f).reported)| == |PrintReported(f.reported)|
    ensures PrintReported(NormalizedForm(f).reported) == PrintReported(f.reported) <==>
      (f.reported.Some? ==> AllPrintAgain(f.reported.value))
  {
    if f.reported.Some? {
      FieldsAgainIff(f.reported.value);
      hide NormalizedFields, PrintFields, AllPrintAgain;
    }
  }

  /** Parts of equal lengths but for the first make the same whole only if all are the same. */
  lemma SameFiveParts(a: seq<Tag>, w: seq<Tag>, b: seq<Tag>, c: seq<Tag>, x: seq<Tag>, d: seq<Tag>, y: seq<Tag>, e: seq<Tag>, z: seq<Tag>)
    requires |c| == |x| && |d| == |y| && |e| == |z|
    ensures a + b + c + d + e == w + b + x + y + z <==> a == w && c == x && d == y && e == z
  {
    var s, t := a + b + c + d + e, w + b + x + y + z;
    if s == t {
      assert |a| == |w|;
      assert a == s[..|a|] == t[..|w|] == w;
      var i := |a| + |b|;
      var j := i + |c|;
      var k := j + |d|;
      assert c == s[i..j] == t[i..j] == x;
      assert d == s[j..k] == t[j..k] == y;
      assert e == s[k..] == t[k..] == z;
    }
  }

  /** Print, parse, and print again: the same element exactly if no title or description was dropped
      for an invalid character, and no option changed its place. */
  lemma FormPrintsAgainIff(f: DataForm)
    requires f.kind != Invalid
    ensures PrintForm(ParseForm(PrintForm(f).value)) == PrintForm(f) <==> FormPrintsAgain(f)
  {
    ParsePrintForm(f);
    var g := NormalizedForm(f);
    TitleAgain(f.title);
    TextsAgain("instructions", f.instructions);
    FieldsAgainIff(f.fields);
    ReportedAgain(f);
    ItemsAgainIff(f.items);
    SameFiveParts(PrintTitle(g.title), PrintTitle(f.title), PrintTexts("instructions", f.instructions),
      PrintFields(g.fields), PrintFields(f.fields), PrintReported(g.reported), PrintReported(f.reported),
      PrintItems(g.items), PrintItems(f.items));
    SameForm(f, g);
    hide ParseForm, PrintForm, NormalizedFields, NormalizedItems, CleanAll, Clean, ValidXml, PrintTitle, PrintTexts,
      PrintFields, PrintReported, PrintItems, AllPrintAgain, ItemsPrintAgain;
  }

  lemma SameForm(f: DataForm, g: DataForm)
    requires f.kind == g.kind != Invalid
    requires PrintTexts("instructions", g.instructions) == PrintTexts("instructions", f.instructions)
    ensures
      var b := PrintTexts("instructions", f.instructions);
      PrintForm(g) == PrintForm(f) <==>
        PrintTitle(g.title) + b + PrintFields(g.fields) + PrintReported(g.reported) + PrintItems(g.items)
          == PrintTitle(f.title) + b + PrintFields(f.fields) + PrintReported(f.reported) + PrintItems(f.items)
  {
    hide PrintTitle, PrintTexts, PrintFields, PrintReported, PrintItems, PrintFormHead;
  }
}
