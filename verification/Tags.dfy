/** The operations on `Tag` that building and reading stanzas rests on (gloox/tag.cpp, gloox/util.cpp:82-100). */
module Tags {
  import opened Text

  datatype Attribute = Attribute(name: string, value: string)

  datatype Tag = Tag(name: string, attributes: seq<Attribute>, cdata: string, children: seq<Tag>)

  const XMLNS := "xmlns"

  /** `util::checkValidXMLChars` */
  predicate ValidXml(s: string) {
    forall i | 0 <= i < |s| :: ValidXmlChar(s[i] as int)
  }

  predicate ValidXmlChar(c: int) {
    c == 0x09 || c == 0x0a || c == 0x0d || (c >= 0x20 && c != 0xc0 && c != 0xc1 && c < 0xf5)
  }

  /** What becomes of character data, or of an attribute's value: nothing if a character is invalid. */
  function Clean(s: string): (c: string)
    ensures c == "" || c == s
    ensures ValidXml(c)
  {
    if ValidXml(s) then s else ""
  }

  /** `findAttribute` */
  function FindAttribute(attributes: seq<Attribute>, name: string): string {
    if attributes == [] then ""
    else if attributes[0].name == name then attributes[0].value
    else FindAttribute(attributes[1..], name)
  }

  /** `hasAttribute` */
  predicate HasAttribute(attributes: seq<Attribute>, name: string) {
    attributes != [] && (attributes[0].name == name || HasAttribute(attributes[1..], name))
  }

  /** `addAttribute`: replaces one of that name, or goes to the end. */
  function Replace(attributes: seq<Attribute>, a: Attribute): seq<Attribute> {
    if attributes == [] then [a]
    else if attributes[0].name == a.name then [a] + attributes[1..]
    else [attributes[0]] + Replace(attributes[1..], a)
  }

  function AddAttribute(t: Tag, name: string, value: string): Tag {
    if name == "" || Clean(value) == "" then t
    else t.(attributes := Replace(t.attributes, Attribute(name, value)))
  }

  /** `addChild`: null is left out. */
  function AddChild(t: Tag, child: Option<Tag>): Tag {
    if child.None? then t else t.(children := t.children + [child.value])
  }

  /** `new Tag( name, cdata )` */
  function TextTag(name: string, text: string): Tag {
    Tag(name, [], Clean(text), [])
  }

  /** `findChild` */
  function FindChild(children: seq<Tag>, name: string): Option<Tag> {
    if children == [] then None
    else if children[0].name == name then Some(children[0])
    else FindChild(children[1..], name)
  }

  /** Reading what was added. */
  lemma {:induction false} ReplaceFind(attributes: seq<Attribute>, a: Attribute, name: string)
    ensures FindAttribute(Replace(attributes, a), name) == if name == a.name then a.value else FindAttribute(attributes, name)
    ensures HasAttribute(Replace(attributes, a), name) <==> name == a.name || HasAttribute(attributes, name)
  {
    if attributes != [] {
      ReplaceFind(attributes[1..], a, name);
    }
  }

  lemma AddFind(t: Tag, added: string, value: string, name: string)
    requires added != ""
    ensures
      var u := AddAttribute(t, added, value);
      && FindAttribute(u.attributes, name) == (if name == added && Clean(value) != "" then value else FindAttribute(t.attributes, name))
      && (HasAttribute(u.attributes, name) <==> (name == added && Clean(value) != "") || HasAttribute(t.attributes, name))
  {
    ReplaceFind(t.attributes, Attribute(added, value), name);
  }

  /** What `checkValidXMLChars` admits, by ranges: no control character but tab, line feed and carriage
      return, and no byte that UTF-8 does not have. */
  lemma ValidXmlIff(s: string)
    ensures Clean(s) == s <==>
      forall c | c in s :: c == '\t' || c == '\n' || c == '\r' || 32 <= c as int <= 191 || 194 <= c as int <= 244
  {
    if ValidXml(s) {
      forall c | c in s
        ensures c == '\t' || c == '\n' || c == '\r' || 32 <= c as int <= 191 || 194 <= c as int <= 244
      {
        assert ValidXmlChar(c as int);
      }
    } else {
      var i :| 0 <= i < |s| && !ValidXmlChar(s[i] as int);
      assert s[i] in s;
    }
  }

  // ---- children by name ----

  /** The children of one name, in their order. */
  function Named(ts: seq<Tag>, name: string): seq<Tag> {
    if ts == [] then [] else (if ts[0].name == name then [ts[0]] else []) + Named(ts[1..], name)
  }

  lemma {:induction false} NamedAppend(a: seq<Tag>, b: seq<Tag>, name: string)
    ensures Named(a + b, name) == Named(a, name) + Named(b, name)
  {
    if a == [] {
      assert a + b == b;
    } else {
      assert (a + b)[0] == a[0] && (a + b)[1..] == a[1..] + b;
      NamedAppend(a[1..], b, name);
      var x, u, v := if a[0].name == name then [a[0]] else [], Named(a[1..], name), Named(b, name);
      assert Named(a + b, name) == x + Named(a[1..] + b, name) && Named(a, name) == x + u;
      hide Named;
      assert x + (u + v) == x + u + v;
    }
  }

  /** `findChild` finds the first of the name. */
  lemma {:induction false} FindChildIsFirst(ts: seq<Tag>, name: string)
    ensures FindChild(ts, name) == if Named(ts, name) == [] then None else Some(Named(ts, name)[0])
  {
    if ts != [] {
      FindChildIsFirst(ts[1..], name);
    }
  }

  /** `addChild` puts a child behind the others. */
  lemma AddChildNamed(t: Tag, child: Tag, name: string)
    ensures
      Named(AddChild(t, Some(child)).children, name) == Named(t.children, name) + (if child.name == name then [child] else [])
  {
    NamedAppend(t.children, [child], name);
    assert [child][1..] == [];
  }
}
