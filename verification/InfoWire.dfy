/** Service discovery information on the wire: the element that it becomes, child by child
    (gloox/disco.cpp:55-68, 132-154). */
module InfoWire {
  import opened Text
  import opened Tags
  import opened Capabilities
  import opened DiscoInfo
  import Forms = DataForms
  import FormWire
  import opened Discovery

  /** Identities that can be printed. */
  function Complete(ids: seq<Identity>): seq<Identity> {
    if ids == [] then []
    else (if ids[0].category != "" && ids[0].kind != "" then [ids[0]] else []) + Complete(ids[1..])
  }

  /** The element says who it is. */
  predicate Says(t: Tag, i: Identity) {
    && t.name == "identity" && t.cdata == "" && t.children == []
    && FindAttribute(t.attributes, "category") == Clean(i.category)
    && FindAttribute(t.attributes, "type") == Clean(i.kind)
    && FindAttribute(t.attributes, "name") == Clean(i.name)
  }

  predicate SayAll(ts: seq<Tag>, ids: seq<Identity>) {
    |ts| == |ids| && forall i | 0 <= i < |ts| && i < |ids| :: Says(ts[i], ids[i])
  }

  lemma IdentityElement(i: Identity)
    requires i.category != "" && i.kind != ""
    ensures PrintIdentity(i).Some? && Says(PrintIdentity(i).value, i)
  {
    AbsorbIdentity(NO_INFO, i);
    IdentityShape(i);
    var t := PrintIdentity(i).value;
    hide PrintIdentity, FindAttribute, Clean;
    var a, b := [ParseIdentity(t)], ShowIdentity(i);
    assert [] + a == a && [] + b == b;
    assert a[0] == b[0];
  }

  lemma IdentityShape(i: Identity)
    requires i.category != "" && i.kind != ""
    ensures PrintIdentity(i).Some?
    ensures PrintIdentity(i).value.name == "identity" && PrintIdentity(i).value.cdata == "" && PrintIdentity(i).value.children == []
  {
  }

  lemma {:induction false} IdentitiesNamed(ids: seq<Identity>, name: string)
    ensures name == "identity" ==> SayAll(Named(PrintIdentities(ids), name), Complete(ids))
    ensures name != "identity" ==> Named(PrintIdentities(ids), name) == []
  {
    hide Says;
    if ids != [] {
      IdentitiesNamed(ids[1..], name);
      var id, ts := ids[0], PrintIdentities(ids[1..]);
      if id.category != "" && id.kind != "" {
        IdentityElement(id);
        IdentityShape(id);
        FirstIdentity(ids);
        hide PrintIdentity, PrintIdentities;
        MoreNamed(PrintIdentity(id).value, ts, name);
        hide Named;
      } else {
        assert [] + ts == ts && [] + Complete(ids[1..]) == Complete(ids[1..]);
        assert PrintIdentities(ids) == ts;
        hide PrintIdentities, Named;
      }
    }
  }

  lemma FirstIdentity(ids: seq<Identity>)
    requires ids != [] && ids[0].category != "" && ids[0].kind != ""
    ensures PrintIdentity(ids[0]).Some? && PrintIdentities(ids) == [PrintIdentity(ids[0]).value] + PrintIdentities(ids[1..])
  {
    IdentityShape(ids[0]);
    hide PrintIdentity;
  }

  lemma MoreNamed(t: Tag, ts: seq<Tag>, name: string)
    ensures Named([t] + ts, name) == (if t.name == name then [t] else []) + Named(ts, name)
  {
    assert ([t] + ts)[1..] == ts;
  }

  lemma {:induction false} FeaturesNamed(fs: seq<string>, name: string)
    ensures Named(PrintFeatures(fs), name) == if name == "feature" then PrintFeatures(fs) else []
    ensures |PrintFeatures(fs)| == |fs| && forall i | 0 <= i < |fs| :: PrintFeatures(fs)[i] == PrintFeature(fs[i])
  {
    if fs != [] {
      FeaturesNamed(fs[1..], name);
      FeatureElement(fs[0]);
      var ts := PrintFeatures(fs);
      hide PrintFeature;
      assert ts[0] == PrintFeature(fs[0]) && ts[1..] == PrintFeatures(fs[1..]);
      assert Named(ts, name) == (if name == "feature" then [ts[0]] else []) + Named(ts[1..], name);
      hide Named, PrintFeatures;
    }
  }

  lemma FeatureElement(f: string)
    ensures PrintFeature(f) == Tag("feature", if Clean(f) == "" then [] else [Attribute("var", f)], "", [])
  {
    hide Clean;
  }

  lemma FormNamed(form: Option<Forms.DataForm>, name: string)
    ensures Named(PrintInfoForm(form), name) ==
      if name == "x" && form.Some? && form.value.kind != Forms.Invalid then [Forms.PrintForm(form.value).value] else []
  {
    if form.Some? && form.value.kind != Forms.Invalid {
      FormElement(form.value);
      hide Forms.PrintForm;
      assert [Forms.PrintForm(form.value).value][1..] == [];
    }
  }

  lemma InfoNamed(i: Info, name: string)
    ensures Named(PrintInfo(i).children, name) ==
      Named(PrintIdentities(i.identities), name) + Named(PrintFeatures(i.features), name) + Named(PrintInfoForm(i.form), name)
  {
    var a, b, c := PrintIdentities(i.identities), PrintFeatures(i.features), PrintInfoForm(i.form);
    hide PrintInfoHead, PrintIdentities, PrintFeatures, PrintInfoForm, Named;
    assert PrintInfo(i).children == a + b + c;
    NamedAppend(a + b, c, name);
    NamedAppend(a, b, name);
  }

  /** Who answers about what. */
  lemma InfoNode(i: Info)
    ensures
      var t := PrintInfo(i);
      && t.name == "query" && FindAttribute(t.attributes, "xmlns") == "http://jabber.org/protocol/disco#info"
      && FindAttribute(t.attributes, "node") == Clean(i.node)
  {
    InfoHead(i.node);
    InfoShape(i);
    hide PrintInfo, PrintInfoHead, FindAttribute, Clean;
    assert XMLNS == "xmlns" && XMLNS_DISCO_INFO == "http://jabber.org/protocol/disco#info";
    var a := PrintInfo(i).attributes;
    assert FindAttribute(a, XMLNS) == XMLNS_DISCO_INFO;
    assert FindAttribute(a, "node") == Clean(i.node);
  }

  lemma InfoShape(i: Info)
    ensures PrintInfo(i).name == PrintInfoHead(i.node).name && PrintInfo(i).attributes == PrintInfoHead(i.node).attributes
  {
    hide PrintInfoHead, PrintIdentities, PrintFeatures, PrintInfoForm;
  }

  lemma InfoIdentities(i: Info)
    ensures Named(PrintInfo(i).children, "identity") == Named(PrintIdentities(i.identities), "identity")
  {
    hide PrintInfo, PrintIdentities, PrintFeatures, PrintInfoForm, Named, Forms.PrintForm;
    InfoNamed(i, "identity");
    FeaturesNamed(i.features, "identity");
    FormNamed(i.form, "identity");
  }

  lemma InfoFeatures(i: Info)
    ensures Named(PrintInfo(i).children, "feature") == PrintFeatures(i.features)
  {
    hide PrintInfo, PrintIdentities, PrintFeatures, PrintInfoForm, Named, Forms.PrintForm, SayAll;
    InfoNamed(i, "feature");
    IdentitiesNamed(i.identities, "feature");
    FeaturesNamed(i.features, "feature");
    FormNamed(i.form, "feature");
  }

  lemma InfoForm(i: Info)
    ensures Named(PrintInfo(i).children, "x") ==
      if i.form.Some? && i.form.value.kind != Forms.Invalid then [Forms.PrintForm(i.form.value).value] else []
  {
    hide PrintInfo, PrintIdentities, PrintFeatures, PrintInfoForm, Named, Forms.PrintForm, SayAll;
    InfoNamed(i, "x");
    IdentitiesNamed(i.identities, "x");
    FeaturesNamed(i.features, "x");
    FormNamed(i.form, "x");
  }

  /** The element that the information becomes: each identity that is complete, each
      feature, and the form. */
  lemma InfoElement(i: Info)
    ensures
      var ts := PrintInfo(i).children;
      && SayAll(Named(ts, "identity"), Complete(i.identities))
      && |Named(ts, "feature")| == |i.features|
      && (forall k | 0 <= k < |i.features| && k < |Named(ts, "feature")| ::
           Named(ts, "feature")[k] == Tag("feature", if Clean(i.features[k]) == "" then [] else [Attribute("var", i.features[k])], "", []))
      && Named(ts, "x") == (if i.form.Some? && i.form.value.kind != Forms.Invalid then [Forms.PrintForm(i.form.value).value] else [])
  {
    hide PrintInfo, PrintIdentities, PrintFeatures, Named, SayAll, Complete, Clean, PrintFeature, Forms.PrintForm;
    InfoIdentities(i);
    InfoFeatures(i);
    InfoForm(i);
    IdentitiesNamed(i.identities, "identity");
    FeaturesNamed(i.features, "feature");
    forall k | 0 <= k < |i.features|
      ensures PrintFeature(i.features[k]) == Tag("feature", if Clean(i.features[k]) == "" then [] else [Attribute("var", i.features[k])], "", [])
    {
      FeatureElement(i.features[k]);
    }
  }

  /** What is no query for information says nothing. */
  lemma NoQuery(t: Tag)
    ensures t.name != "query" || FindAttribute(t.attributes, "xmlns") != "http://jabber.org/protocol/disco#info" ==>
      ParseInfo(t) == Info("", [], [], None)
  {
  }

  /** A copied form says the same as the form, the report but for what a round trip drops, and has no items. */
  lemma CopySends(f: Forms.DataForm)
    requires f.kind != Forms.Invalid
    ensures
      var ts, us := Forms.PrintForm(f).value.children, Forms.PrintForm(CopyForm(f)).value.children;
      && (forall name | name in {"title", "instructions", "field"} :: Named(us, name) == Named(ts, name))
      && Named(us, "item") == []
      && |Named(us, "reported")| == |Named(ts, "reported")|
      && (Named(us, "reported") != [] && f.reported.Some? ==>
           Forms.ParseFields(Named(us, "reported")[0].children) == Forms.NormalizedFields(Forms.NormalizedFields(f.reported.value)))
  {
    var g := CopyForm(f);
    FormWire.FormTitle(f);
    FormWire.FormTitle(g);
    FormWire.FormInstructions(f);
    FormWire.FormInstructions(g);
    FormWire.FormFields(f);
    FormWire.FormFields(g);
    FormWire.FormReport(f);
    FormWire.FormReport(g);
    FormWire.FormItems(g);
    hide Forms.PrintForm, Forms.PrintFields, Forms.ParseFields, Forms.NormalizedFields, Named, Forms.PrintTexts, Clean;
    if f.reported.Some? {
      Forms.ParsePrintFields(f.reported.value);
      Forms.ParsePrintFields(g.reported.value);
    }
  }
}
