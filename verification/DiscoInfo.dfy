/** Service discovery information, and what a peer makes of it (gloox/disco.cpp:35-154, 283-351). */
module DiscoInfo {
  import opened Text
  import opened StringOrder
  import opened Tags
  import opened Capabilities
  import Fields = DataFormFields
  import Forms = DataForms

  const XMLNS_DISCO_INFO := "http://jabber.org/protocol/disco#info"
  const XMLNS_DISCO_ITEMS := "http://jabber.org/protocol/disco#items"

  function Defaults(): seq<string> { [XMLNS_DISCO_INFO, XMLNS_DISCO_ITEMS] }

  datatype Info = Info(node: string, features: seq<string>, identities: seq<Identity>, form: Option<Forms.DataForm>)

  // ---- printing ----

  /** `Identity::tag` */
  function PrintIdentity(i: Identity): Option<Tag> {
    if i.category == "" || i.kind == "" then None
    else
      var t := AddAttribute(AddAttribute(Tag("identity", [], "", []), "category", i.category), "type", i.kind);
      Some(if i.name != "" then AddAttribute(t, "name", i.name) else t)
  }

  function PrintIdentities(ids: seq<Identity>): seq<Tag> {
    if ids == [] then []
    else (match PrintIdentity(ids[0]) case None => [] case Some(t) => [t]) + PrintIdentities(ids[1..])
  }

  function PrintFeature(f: string): Tag {
    AddAttribute(Tag("feature", [], "", []), "var", f)
  }

  function PrintFeatures(fs: seq<string>): seq<Tag> {
    if fs == [] then [] else [PrintFeature(fs[0])] + PrintFeatures(fs[1..])
  }

  function PrintInfoForm(form: Option<Forms.DataForm>): seq<Tag> {
    if form.None? then []
    else match Forms.PrintForm(form.value) case None => [] case Some(t) => [t]
  }

  function PrintInfoHead(node: string): Tag {
    var t := AddAttribute(Tag("query", [], "", []), XMLNS, XMLNS_DISCO_INFO);
    if node != "" then AddAttribute(t, "node", node) else t
  }

  /** `Info::tag` */
  function PrintInfo(i: Info): Tag {
    PrintInfoHead(i.node).(
      children := PrintIdentities(i.identities) + PrintFeatures(i.features) + PrintInfoForm(i.form))
  }

  // ---- parsing ----

  /** `Identity( const Tag* )` */
  function ParseIdentity(t: Tag): Identity {
    if t.name != "identity" then Identity("", "", "")
    else
      Identity(FindAttribute(t.attributes, "category"), FindAttribute(t.attributes, "type"), FindAttribute(t.attributes, "name"))
  }

  /** One child of the query; only the first form counts. */
  function AbsorbInfo(i: Info, t: Tag): Info {
    if t.name == "identity" then i.(identities := i.identities + [ParseIdentity(t)])
    else if t.name == "feature" && HasAttribute(t.attributes, "var") then
      i.(features := i.features + [FindAttribute(t.attributes, "var")])
    else if i.form.None? && t.name == "x" && FindAttribute(t.attributes, XMLNS) == Forms.XMLNS_X_DATA then
      i.(form := Some(Forms.ParseForm(t)))
    else i
  }

  function AbsorbInfos(i: Info, ts: seq<Tag>): Info
    decreases |ts|
  {
    if ts == [] then i else AbsorbInfos(AbsorbInfo(i, ts[0]), ts[1..])
  }

  const NO_INFO := Info("", [], [], None)

  /** `Info( const Tag* )` */
  function ParseInfo(t: Tag): Info {
    if t.name != "query" || FindAttribute(t.attributes, XMLNS) != XMLNS_DISCO_INFO then NO_INFO
    else AbsorbInfos(NO_INFO.(node := FindAttribute(t.attributes, "node")), t.children)
  }

  // ---- what arrives ----

  function ShowIdentity(i: Identity): seq<Identity> {
    if i.category == "" || i.kind == "" then [] else [Identity(Clean(i.category), Clean(i.kind), Clean(i.name))]
  }

  function ShowFeature(f: string): seq<string> {
    if Clean(f) == "" then [] else [f]
  }

  function ShowForm(form: Option<Forms.DataForm>): Option<Forms.DataForm> {
    if form.None? || form.value.kind == Forms.Invalid then None else Some(Forms.NormalizedForm(form.value))
  }

  lemma AbsorbIdentity(i: Info, id: Identity)
    requires id.category != "" && id.kind != ""
    ensures PrintIdentity(id).Some? && AbsorbInfo(i, PrintIdentity(id).value) == i.(identities := i.identities + ShowIdentity(id))
  {
    var t := Tag("identity", [], "", []);
    var u := AddAttribute(t, "category", id.category);
    var v := AddAttribute(u, "type", id.kind);
    forall n | n in {"category", "type", "name"}
      ensures FindAttribute(PrintIdentity(id).value.attributes, n) ==
        if n == "category" then Clean(id.category) else if n == "type" then Clean(id.kind) else Clean(id.name)
    {
      AddFind(t, "category", id.category, n);
      AddFind(u, "type", id.kind, n);
      AddFind(v, "name", id.name, n);
    }
    assert PrintIdentity(id).value.name == "identity";
    hide AddAttribute, Clean, FindAttribute, PrintIdentity;
  }

  lemma AbsorbFeature(i: Info, f: string)
    ensures AbsorbInfo(i, PrintFeature(f)) == i.(features := i.features + ShowFeature(f))
  {
    AddFind(Tag("feature", [], "", []), "var", f, "var");
    assert PrintFeature(f).name == "feature";
    assert i.features + [] == i.features;
    hide Clean, AddAttribute, FindAttribute, HasAttribute;
  }

  lemma {:induction false} AbsorbInfosAppend(i: Info, a: seq<Tag>, b: seq<Tag>)
    ensures AbsorbInfos(i, a + b) == AbsorbInfos(AbsorbInfos(i, a), b)
    decreases |a|
  {
    if a == [] {
      assert a + b == b;
    } else {
      assert (a + b)[1..] == a[1..] + b;
      hide AbsorbInfo;
      AbsorbInfosAppend(AbsorbInfo(i, a[0]), a[1..], b);
    }
  }

  lemma {:induction false} AbsorbIdentities(i: Info, ids: seq<Identity>)
    ensures AbsorbInfos(i, PrintIdentities(ids)) == i.(identities := i.identities + FlatMap(ShowIdentity, ids))
    decreases |ids|
  {
    hide AbsorbInfo;
    if ids == [] {
      assert i.identities + [] == i.identities;
    } else {
      var id, rest := ids[0], ids[1..];
      var j := i.(identities := i.identities + ShowIdentity(id));
      FlatMapHead(ShowIdentity, ids);
      if id.category == "" || id.kind == "" {
        assert PrintIdentities(ids) == PrintIdentities(rest);
        assert i.identities + [] == i.identities;
      } else {
        AbsorbIdentity(i, id);
        hide PrintIdentity;
        assert PrintIdentities(ids)[0] == PrintIdentity(id).value && PrintIdentities(ids)[1..] == PrintIdentities(rest);
      }
      assert AbsorbInfos(i, PrintIdentities(ids)) == AbsorbInfos(j, PrintIdentities(rest));
      hide AbsorbInfos, PrintIdentities, FlatMap, ShowIdentity;
      AbsorbIdentities(j, rest);
      MoreIdentities(i, ShowIdentity(id), FlatMap(ShowIdentity, rest));
    }
  }

  lemma MoreIdentities(i: Info, a: seq<Identity>, b: seq<Identity>)
    ensures i.(identities := i.identities + a).(identities := i.identities + a + b) == i.(identities := i.identities + (a + b))
  {
    assert i.identities + a + b == i.identities + (a + b);
  }

  lemma {:induction false} AbsorbFeatures(i: Info, fs: seq<string>)
    ensures AbsorbInfos(i, PrintFeatures(fs)) == i.(features := i.features + FlatMap(ShowFeature, fs))
    decreases |fs|
  {
    hide AbsorbInfo, PrintFeature;
    if fs == [] {
      assert i.features + [] == i.features;
    } else {
      var j, rest := i.(features := i.features + ShowFeature(fs[0])), fs[1..];
      AbsorbFeature(i, fs[0]);
      FlatMapHead(ShowFeature, fs);
      assert PrintFeatures(fs)[0] == PrintFeature(fs[0]) && PrintFeatures(fs)[1..] == PrintFeatures(rest);
      hide PrintFeatures, FlatMap, ShowFeature;
      AbsorbFeatures(j, rest);
      MoreFeatures(i, ShowFeature(fs[0]), FlatMap(ShowFeature, rest));
    }
  }

  lemma MoreFeatures(i: Info, a: seq<string>, b: seq<string>)
    ensures i.(features := i.features + a).(features := i.features + a + b) == i.(features := i.features + (a + b))
  {
    assert i.features + a + b == i.features + (a + b);
  }

  lemma AbsorbInfoForm(i: Info, form: Option<Forms.DataForm>)
    requires i.form.None?
    ensures AbsorbInfos(i, PrintInfoForm(form)) == i.(form := ShowForm(form))
  {
    if form.Some? && form.value.kind != Forms.Invalid {
      var t := Forms.PrintForm(form.value).value;
      FormElement(form.value);
      Forms.ParsePrintForm(form.value);
      hide Forms.PrintForm, Forms.ParseForm, Forms.NormalizedForm;
      assert AbsorbInfos(i, [t]) == AbsorbInfos(AbsorbInfo(i, t), []);
    }
  }

  lemma FormElement(f: Forms.DataForm)
    requires f.kind != Forms.Invalid
    ensures Forms.PrintForm(f).Some? && Forms.PrintForm(f).value.name == "x"
    ensures FindAttribute(Forms.PrintForm(f).value.attributes, XMLNS) == Forms.XMLNS_X_DATA
  {
    Forms.FormHeadBack(f.kind);
    Forms.FormChildren(f);
    assert Forms.PrintForm(f).value.attributes == Forms.PrintFormHead(f.kind).attributes;
    assert Forms.PrintForm(f).value.name == Forms.PrintFormHead(f.kind).name;
    hide Forms.PrintFormHead, Forms.PrintForm;
  }

  lemma InfoHead(node: string)
    ensures
      var t := PrintInfoHead(node);
      t.name == "query" && FindAttribute(t.attributes, XMLNS) == XMLNS_DISCO_INFO && FindAttribute(t.attributes, "node") == Clean(node)
  {
    var t := Tag("query", [], "", []);
    var u := AddAttribute(t, XMLNS, XMLNS_DISCO_INFO);
    InfoNamespace();
    HeadName(node);
    hide XMLNS_DISCO_INFO, XMLNS, Clean, AddAttribute;
    assert XMLNS != "" && XMLNS != "node" by { AttributeNames(); }
    AddFind(t, XMLNS, XMLNS_DISCO_INFO, XMLNS);
    AddFind(t, XMLNS, XMLNS_DISCO_INFO, "node");
    AddFind(u, "node", node, XMLNS);
    AddFind(u, "node", node, "node");
    hide FindAttribute;
    assert node == "" ==> Clean(node) == "";
  }

  lemma AttributeNames()
    ensures XMLNS != "" && XMLNS != "node"
  {
  }

  lemma HeadName(node: string)
    ensures PrintInfoHead(node).name == "query" && PrintInfoHead(node).children == []
  {
  }

  lemma InfoNamespace()
    ensures ValidXml(XMLNS_DISCO_INFO) && Clean(XMLNS_DISCO_INFO) == XMLNS_DISCO_INFO != ""
  {
  }

  lemma ItemsNamespace()
    ensures ValidXml(XMLNS_DISCO_ITEMS) && XMLNS_DISCO_ITEMS != ""
  {
  }

  /** What a peer reads in a printed `Info`. */
  function Seen(i: Info): Info {
    Info(Clean(i.node), FlatMap(ShowFeature, i.features), FlatMap(ShowIdentity, i.identities), ShowForm(i.form))
  }

  lemma ParsePrintInfo(i: Info)
    ensures ParseInfo(PrintInfo(i)) == Seen(i)
  {
    var a, b, c := PrintIdentities(i.identities), PrintFeatures(i.features), PrintInfoForm(i.form);
    var i0 := NO_INFO.(node := Clean(i.node));
    InfoHead(i.node);
    AbsorbInfosAppend(i0, a + b, c);
    AbsorbInfosAppend(i0, a, b);
    AbsorbIdentities(i0, i.identities);
    var i1 := i0.(identities := [] + FlatMap(ShowIdentity, i.identities));
    AbsorbFeatures(i1, i.features);
    var i2 := i1.(features := [] + FlatMap(ShowFeature, i.features));
    AbsorbInfoForm(i2, i.form);
    hide PrintInfoHead, PrintIdentities, PrintFeatures, PrintInfoForm, AbsorbInfos, FlatMap, ShowForm, Clean, FindAttribute, XMLNS_DISCO_INFO;
  }

  // ---- the two routes to the capability string ----

  /** `setFeatures` on the features that are there. */
  function MergeFeatures(features: seq<string>, added: seq<string>): seq<string> {
    Merge(features, Sort(added))
  }

  /** The features in the answer about a node that one handler has. */
  function NodeFeatures(features: seq<string>): seq<string> {
    MergeFeatures(Defaults(), Merge([], Sort(features)))
  }

  lemma NodeFeaturesSame(features: seq<string>)
    ensures multiset(NodeFeatures(features)) == multiset(features + Defaults())
  {
    SortSorts(features);
    MergeKeeps([], Sort(features));
    SortSorts(Merge([], Sort(features)));
    MergeKeeps(Defaults(), Sort(Merge([], Sort(features))));
    hide Defaults, Sort, Merge;
  }

  predicate ShownIdentity(i: Identity) {
    && i.category != "" && i.kind != ""
    && ValidXml(i.category) && ValidXml(i.kind) && ValidXml(i.name)
  }

  predicate AllIdentitiesShown(ids: seq<Identity>) {
    ids == [] || (ShownIdentity(ids[0]) && AllIdentitiesShown(ids[1..]))
  }

  predicate AllFeaturesShown(fs: seq<string>) {
    fs == [] || (fs[0] != "" && ValidXml(fs[0]) && AllFeaturesShown(fs[1..]))
  }

  /** The length of the lines. */
  function Total(ss: seq<string>): nat {
    if ss == [] then 0 else |ss[0]| + 1 + Total(ss[1..])
  }

  lemma {:induction false} InsertTotal(x: string, s: seq<string>)
    ensures Total(Insert(x, s)) == |x| + 1 + Total(s)
  {
    if s != [] {
      InsertTotal(x, s[1..]);
    }
  }

  lemma {:induction false} SortTotal(s: seq<string>)
    ensures Total(Sort(s)) == Total(s)
  {
    if s != [] {
      SortTotal(s[1..]);
      InsertTotal(s[0], Sort(s[1..]));
    }
  }

  lemma {:induction false} LinesTotal(s: seq<string>)
    ensures |Lines(s)| == Total(s)
  {
    if s != [] {
      LinesTotal(s[1..]);
    }
  }

  lemma ShowIdentityTotal(i: Identity)
    ensures
      var shown := ShowIdentity(i);
      if ShownIdentity(i) then shown == [i] else shown == [] || (|shown| == 1 && |IdText(shown[0])| < |IdText(i)|)
  {
  }

  lemma IdTotalCons(i: Identity, rest: seq<Identity>)
    ensures Total(IdTexts([i] + rest)) == |IdText(i)| + 1 + Total(IdTexts(rest))
  {
    FlatMapHead(IdLine, [i] + rest);
    assert ([i] + rest)[1..] == rest;
    hide FlatMap, IdText;
  }

  lemma {:induction false} IdentitiesTotal(ids: seq<Identity>)
    ensures Total(IdTexts(FlatMap(ShowIdentity, ids))) <= Total(IdTexts(ids))
    ensures Total(IdTexts(FlatMap(ShowIdentity, ids))) == Total(IdTexts(ids)) ==> AllIdentitiesShown(ids)
    ensures AllIdentitiesShown(ids) ==> FlatMap(ShowIdentity, ids) == ids
  {
    if ids != [] {
      IdentitiesTotal(ids[1..]);
      ShowIdentityTotal(ids[0]);
      FlatMapHead(ShowIdentity, ids);
      hide ShowIdentity, ShownIdentity, IdTexts, IdText, Total, FlatMap;
      var shown, rest := ShowIdentity(ids[0]), FlatMap(ShowIdentity, ids[1..]);
      IdTotalCons(ids[0], ids[1..]);
      assert ids == [ids[0]] + ids[1..];
      if shown == [] {
        assert shown + rest == rest;
      } else {
        IdTotalCons(shown[0], rest);
        assert shown == [shown[0]];
      }
    }
  }

  lemma TotalCons(x: string, rest: seq<string>)
    ensures Total([x] + rest) == |x| + 1 + Total(rest)
  {
    assert ([x] + rest)[1..] == rest;
  }

  lemma ShowFeatureTotal(f: string)
    ensures ShowFeature(f) == if f != "" && ValidXml(f) then [f] else []
  {
  }

  lemma {:induction false} FeaturesTotal(fs: seq<string>)
    ensures Total(FlatMap(ShowFeature, fs)) <= Total(fs)
    ensures Total(FlatMap(ShowFeature, fs)) == Total(fs) ==> AllFeaturesShown(fs)
    ensures AllFeaturesShown(fs) ==> FlatMap(ShowFeature, fs) == fs
  {
    if fs != [] {
      FeaturesTotal(fs[1..]);
      ShowFeatureTotal(fs[0]);
      FlatMapHead(ShowFeature, fs);
      hide ShowFeature, ValidXml, FlatMap, Total;
      var rest := FlatMap(ShowFeature, fs[1..]);
      TotalCons(fs[0], fs[1..]);
      TotalCons(fs[0], rest);
      assert fs == [fs[0]] + fs[1..] && [] + rest == rest;
    }
  }

  lemma {:induction false} FeaturesShownAppend(a: seq<string>, b: seq<string>)
    ensures AllFeaturesShown(a + b) <==> AllFeaturesShown(a) && AllFeaturesShown(b)
  {
    if a == [] {
      assert a + b == b;
    } else {
      assert (a + b)[1..] == a[1..] + b;
      hide ValidXml;
      FeaturesShownAppend(a[1..], b);
    }
  }

  lemma DefaultsShown()
    ensures AllFeaturesShown(Defaults())
  {
    InfoNamespace();
    ItemsNamespace();
    hide ValidXml, XMLNS_DISCO_INFO, XMLNS_DISCO_ITEMS;
    var d := Defaults();
    assert d[1..] == [XMLNS_DISCO_ITEMS] && d[1..][1..] == [];
  }

  lemma FormTextEmpty(form: Option<Forms.DataForm>)
    ensures FormText(form) == "" <==> form.None? || form.value.fields == []
  {
    if form.Some? && form.value.fields != [] {
      FieldsText(form.value.fields);
    }
  }

  lemma FieldsText(fs: seq<Fields.Field>)
    requires fs != []
    ensures FormTypes(fs) + MapText(InsertFields([], fs)) != ""
  {
    if fs[0].name != FORM_TYPE {
      var e := Entry(fs[0].name, fs[0].values);
      assert InsertKey([], e) == [e];
      InsertFieldsGrows([e], fs[1..]);
    }
  }

  lemma {:induction false} InsertFieldsGrows(m: seq<Entry>, fs: seq<Fields.Field>)
    requires m != []
    ensures InsertFields(m, fs) != []
    decreases |fs|
  {
    if fs != [] {
      InsertFieldsGrows(if fs[0].name == FORM_TYPE then m else InsertKey(m, Entry(fs[0].name, fs[0].values)), fs[1..]);
    }
  }

  /** The answer about the node of the announced string: no form, the identities in any order. */
  function NodeInfo(node: string, features: seq<string>, identities: seq<Identity>): Info {
    Info(node, NodeFeatures(features), identities, None)
  }

  /** The string that a peer computes from that answer, by parts. */
  lemma SeenString(node: string, features: seq<string>, ids: seq<Identity>, order: seq<Identity>)
    requires multiset(order) == multiset(ids)
    ensures
      var seen := ParseInfo(PrintInfo(NodeInfo(node, features, order)));
      Generate(seen.identities, seen.features, seen.form) ==
        Lines(Sort(IdTexts(FlatMap(ShowIdentity, ids)))) + Lines(Sort(FlatMap(ShowFeature, features + Defaults())))
  {
    var i := NodeInfo(node, features, order);
    ParsePrintInfo(i);
    NodeFeaturesSame(features);
    FlatMapPermutation(ShowFeature, i.features, features + Defaults());
    SortPermutation(FlatMap(ShowFeature, i.features), FlatMap(ShowFeature, features + Defaults()));
    FlatMapPermutation(ShowIdentity, order, ids);
    FlatMapPermutation(IdLine, FlatMap(ShowIdentity, order), FlatMap(ShowIdentity, ids));
    SortPermutation(IdTexts(FlatMap(ShowIdentity, order)), IdTexts(FlatMap(ShowIdentity, ids)));
    hide ParseInfo, PrintInfo, FlatMap, Sort, Lines, NodeFeatures, Defaults, ShowIdentity, ShowFeature, Clean;
    assert FormText(None) == "";
  }

  /** `ver` and the peer arrive at the same string exactly if: every identity has a category and a
      type, every feature is a text, none of them has a character that XML excludes, and there is
      no form, or one without fields. */
  lemma CapabilitiesAgreeIff(node: string, features: seq<string>, ids: seq<Identity>, order: seq<Identity>, form: Option<Forms.DataForm>)
    requires multiset(order) == multiset(ids)
    ensures
      var seen := ParseInfo(PrintInfo(NodeInfo(node, features, order)));
      Generate(seen.identities, seen.features, seen.form) == Generate(ids, features + Defaults(), form)
      <==>
      AllIdentitiesShown(ids) && AllFeaturesShown(features) && (form.None? || form.value.fields == [])
  {
    SeenString(node, features, ids, order);
    var all := features + Defaults();
    var shownIds, shownAll := IdTexts(FlatMap(ShowIdentity, ids)), FlatMap(ShowFeature, all);
    IdentitiesTotal(ids);
    FeaturesTotal(all);
    FeaturesShownAppend(features, Defaults());
    DefaultsShown();
    FormTextEmpty(form);
    Lengths(shownIds);
    Lengths(IdTexts(ids));
    Lengths(shownAll);
    Lengths(all);
    hide ParseInfo, PrintInfo, FlatMap, Sort, Lines, NodeInfo, Defaults, FormText, IdTexts, AllIdentitiesShown, AllFeaturesShown, Total;
  }

  lemma Lengths(ss: seq<string>)
    ensures |Lines(Sort(ss))| == Total(ss)
  {
    SortTotal(ss);
    LinesTotal(Sort(ss));
  }
}
