/** The service discovery object and the capabilities that hang on it
    (gloox/disco.cpp:283-351, 497-533, gloox/capabilities.cpp:52-63, 161-176). */
module Discovery {
  import opened Text
  import opened StringOrder
  import opened Tags
  import opened Capabilities
  import opened DiscoInfo
  import Forms = DataForms

  /** A node handler: the capabilities, or one of the application's. */
  datatype Handler = Caps | Other(id: nat)

  type Nodes = map<string, seq<Handler>>

  /** What the application's handlers answer about a node. */
  type Answers = (nat, string) -> (seq<Identity>, seq<string>)

  function Without(hs: seq<Handler>, h: Handler): seq<Handler> {
    if hs == [] then [] else (if hs[0] == h then [] else [hs[0]]) + Without(hs[1..], h)
  }

  /** `registerNodeHandler` */
  function Registered(nodes: Nodes, h: Handler, node: string): Nodes {
    nodes[node := (if node in nodes then nodes[node] else []) + [h]]
  }

  /** `removeNodeHandlers`: no node is left with no handler. */
  function Removed(nodes: Nodes, h: Handler): Nodes {
    map k | k in nodes && Without(nodes[k], h) != [] :: Without(nodes[k], h)
  }

  datatype Answer = ItemNotFound | Result(info: Info)

  /** The copy constructor of `DataForm` leaves the items behind. */
  function CopyForm(f: Forms.DataForm): Forms.DataForm {
    f.(items := [], reported := match f.reported { case None => None case Some(fs) => Some(Forms.ParseFields(Forms.PrintFields(fs))) })
  }

  class Disco {
    var features: seq<string>
    var identities: seq<Identity>
    var form: Option<Forms.DataForm>
    var nodes: Nodes

    function Answered(h: Handler, node: string, answers: Answers): (seq<Identity>, seq<string>)
      reads this
    {
      match h case Caps => (identities, features) case Other(id) => answers(id, node)
    }

    /** The identities and features that the handlers of a node have. */
    function AllIdentities(hs: seq<Handler>, node: string, answers: Answers): seq<Identity>
      reads this
    {
      if hs == [] then [] else Answered(hs[0], node, answers).0 + AllIdentities(hs[1..], node, answers)
    }

    function AllFeatures(merged: seq<string>, hs: seq<Handler>, node: string, answers: Answers): seq<string>
      reads this
      decreases |hs|
    {
      if hs == [] then merged
      else AllFeatures(Merge(merged, Sort(Answered(hs[0], node, answers).1)), hs[1..], node, answers)
    }

    method RegisterNodeHandler(h: Handler, node: string)
      modifies `nodes
      ensures nodes == Registered(old(nodes), h, node)
    {
      var hs := if node in nodes then nodes[node] else [];
      nodes := nodes[node := hs + [h]];
    }

    method RemoveNodeHandler(h: Handler, node: string)
      modifies `nodes
      ensures nodes ==
        if node !in old(nodes) then old(nodes)
        else if Without(old(nodes)[node], h) == [] then old(nodes) - {node}
        else old(nodes)[node := Without(old(nodes)[node], h)]
    {
      if node in nodes {
        var hs := Without(nodes[node], h);
        nodes := nodes[node := hs];
        if hs == [] {
          nodes := nodes - {node};
        }
      }
    }

    method RemoveNodeHandlers(h: Handler)
      modifies `nodes
      ensures nodes == Removed(old(nodes), h)
    {
      ghost var before := nodes;
      var todo := nodes.Keys;
      while todo != {}
        invariant todo <= before.Keys
        invariant forall k :: k in nodes <==> k in before && (k in todo || Without(before[k], h) != [])
        invariant forall k | k in nodes :: nodes[k] == if k in todo then before[k] else Without(before[k], h)
        decreases |todo|
      {
        var node :| node in todo;
        RemoveNodeHandler(h, node);
        todo := todo - {node};
      }
    }

    /** `features( defaultFeatures )` */
    function Features(defaultFeatures: bool): seq<string>
      reads this
    {
      if defaultFeatures then features + Defaults() else features
    }

    /** The answer to a query for information.  Lists of identities are sorted by address, so that
        they come in any order. */
    method HandleInfo(node: string, answers: Answers) returns (r: Answer)
      ensures node == "" ==>
        r == Result(Info("", MergeFeatures(Defaults(), features), identities,
          match form case None => None case Some(f) => Some(CopyForm(f))))
      ensures node != "" && node !in nodes ==> r == ItemNotFound
      ensures node != "" && node in nodes ==>
        && r.Result? && r.info.node == node && r.info.form == None
        && r.info.features == MergeFeatures(Defaults(), AllFeatures([], nodes[node], node, answers))
        && multiset(r.info.identities) == multiset(AllIdentities(nodes[node], node, answers))
    {
      hide MergeFeatures, Defaults, Merge, Sort, CopyForm;
      if node == "" {
        return Result(Info("", MergeFeatures(Defaults(), features), identities,
          match form case None => None case Some(f) => Some(CopyForm(f))));
      }
      if node !in nodes {
        return ItemNotFound;
      }
      var ids: seq<Identity>, merged: seq<string> := [], [];
      var hs := nodes[node];
      var i := 0;
      while i < |hs|
        invariant i <= |hs|
        invariant multiset(ids) + multiset(AllIdentities(hs[i..], node, answers)) == multiset(AllIdentities(hs, node, answers))
        invariant AllFeatures(merged, hs[i..], node, answers) == AllFeatures([], hs, node, answers)
      {
        assert hs[i..][1..] == hs[i + 1..];
        var (il, fl) := Answered(hs[i], node, answers);
        ids := AnyOrder(ids + il);
        merged := Merge(merged, Sort(fl));
        i := i + 1;
      }
      return Result(Info(node, MergeFeatures(Defaults(), merged), ids, None));
    }
  }

  /** A list of pointers, sorted by address. */
  method AnyOrder(ids: seq<Identity>) returns (r: seq<Identity>)
    ensures multiset(r) == multiset(ids)
  {
    r :| multiset(r) == multiset(ids);
  }

  /** The digest of the string and its Base64 form. */
  type Hash = string -> string

  class Capability {
    const disco: Disco
    const node: string

    constructor (disco: Disco, node: string)
      ensures this.disco == disco && this.node == node
    {
      this.disco, this.node := disco, node;
    }

    /** `ver`: the string is announced, and its node is where the capabilities answer from now on. */
    method Ver(hash: Hash) returns (ver: string)
      modifies disco`nodes
      ensures ver == hash(Generate(disco.identities, disco.features + Defaults(), disco.form))
      ensures disco.nodes == Registered(Removed(old(disco.nodes), Caps), Caps, node + "#" + ver)
    {
      hide Generate, Defaults;
      var s := GenerateString(disco.identities, disco.Features(true), disco.form);
      ver := hash(s);
      disco.RemoveNodeHandlers(Caps);
      disco.RegisterNodeHandler(Caps, node + "#" + ver);
    }
  }

  // ---- who answers where ----

  function Count(hs: seq<Handler>, h: Handler): nat {
    multiset(hs)[h]
  }

  function HandlersAt(nodes: Nodes, node: string): seq<Handler> {
    if node in nodes then nodes[node] else []
  }

  lemma {:induction false} WithoutCounts(hs: seq<Handler>, h: Handler, g: Handler)
    ensures Count(Without(hs, h), g) == if g == h then 0 else Count(hs, g)
  {
    if hs != [] {
      WithoutCounts(hs[1..], h, g);
      assert hs == [hs[0]] + hs[1..];
    }
  }

  /** Whatever was registered before: the capabilities answer at the announced node, once, and
      nowhere else; the other handlers stay. */
  lemma VerRegisters(nodes: Nodes, node: string, m: string, g: Handler)
    ensures
      var after := Registered(Removed(nodes, Caps), Caps, node);
      Count(HandlersAt(after, m), g) ==
        if g == Caps then (if m == node then 1 else 0) else Count(HandlersAt(nodes, m), g)
  {
    WithoutCounts(HandlersAt(nodes, m), Caps, g);
    var removed := Removed(nodes, Caps);
    assert HandlersAt(removed, m) == Without(HandlersAt(nodes, m), Caps);
    hide Without, Removed;
    assert multiset(HandlersAt(removed, m) + [Caps])[g] == multiset(HandlersAt(removed, m))[g] + if g == Caps then 1 else 0;
  }

  lemma {:induction false} CountSame(hs: seq<Handler>)
    requires forall i | 0 <= i < |hs| :: hs[i] == Caps
    ensures Count(hs, Caps) == |hs|
  {
    if hs != [] {
      CountSame(hs[1..]);
      assert hs == [Caps] + hs[1..];
    }
  }

  lemma OnlyCaps(hs: seq<Handler>)
    requires Count(hs, Caps) == 1 && forall id :: Count(hs, Other(id)) == 0
    ensures hs == [Caps]
  {
    forall i | 0 <= i < |hs|
      ensures hs[i] == Caps
    {
      assert hs[i].Other? ==> Count(hs, Other(hs[i].id)) > 0;
    }
    CountSame(hs);
  }

  /** A client announces its capabilities, and a peer asks about the announced node and recomputes
      the digest from the answer as it arrives. */
  method Announce(c: Capability, hash: Hash, answers: Answers) returns (ver: string, answer: Answer, seen: Info)
    requires forall id, v :: Count(HandlersAt(c.disco.nodes, c.node + "#" + v), Other(id)) == 0
    modifies c.disco`nodes
    ensures answer.Result? && seen == ParseInfo(PrintInfo(answer.info))
    ensures ver == hash(Generate(c.disco.identities, c.disco.features + Defaults(), c.disco.form))
    ensures
      Generate(seen.identities, seen.features, seen.form) == Generate(c.disco.identities, c.disco.features + Defaults(), c.disco.form)
      <==>
      && AllIdentitiesShown(c.disco.identities) && AllFeaturesShown(c.disco.features)
      && (c.disco.form.None? || c.disco.form.value.fields == [])
  {
    hide Generate, Defaults, AllIdentitiesShown, AllFeaturesShown, ParseInfo, PrintInfo, Removed;
    ghost var before := c.disco.nodes;
    ver := c.Ver(hash);
    var node := c.node + "#" + ver;
    ghost var hs := HandlersAt(c.disco.nodes, node);
    VerRegisters(before, node, node, Caps);
    forall id
      ensures Count(hs, Other(id)) == 0
    {
      VerRegisters(before, node, node, Other(id));
    }
    OnlyCaps(hs);
    hide Registered;
    answer := c.disco.HandleInfo(node, answers);
    OneHandler(c.disco, node, answers);
    CapabilitiesAgreeIff(node, c.disco.features, c.disco.identities, answer.info.identities, c.disco.form);
    seen := ParseInfo(PrintInfo(answer.info));
  }

  /** The answer about a node has what its handlers answer, one after the other, and the features in
      ascending order. */
  lemma {:induction false} AllAnswer(d: Disco, merged: seq<string>, hs: seq<Handler>, h: Handler, node: string, answers: Answers)
    requires Sorted(merged)
    ensures d.AllIdentities(hs + [h], node, answers) == d.AllIdentities(hs, node, answers) + d.Answered(h, node, answers).0
    ensures Sorted(d.AllFeatures(merged, hs, node, answers))
    ensures
      multiset(d.AllFeatures(merged, hs + [h], node, answers))
      == multiset(d.AllFeatures(merged, hs, node, answers)) + multiset(d.Answered(h, node, answers).1)
    decreases |hs|
  {
    if hs == [] {
      assert hs + [h] == [h] && [h][1..] == [];
      var fl := d.Answered(h, node, answers).1;
      SortSorts(fl);
      MergeKeeps(merged, Sort(fl));
      hide Merge, Sort, Sorted;
      assert d.AllFeatures(merged, [h], node, answers) == d.AllFeatures(Merge(merged, Sort(fl)), [], node, answers);
    } else {
      assert (hs + [h])[0] == hs[0] && (hs + [h])[1..] == hs[1..] + [h];
      var fl := d.Answered(hs[0], node, answers).1;
      SortSorts(fl);
      MergeSorted(merged, Sort(fl));
      hide Merge, Sort, Sorted;
      AllAnswer(d, Merge(merged, Sort(fl)), hs[1..], h, node, answers);
    }
  }

  lemma OneHandler(d: Disco, node: string, answers: Answers)
    ensures d.AllIdentities([Caps], node, answers) == d.identities
    ensures MergeFeatures(Defaults(), d.AllFeatures([], [Caps], node, answers)) == NodeFeatures(d.features)
  {
    hide Merge, Sort, Defaults;
    assert [Caps][1..] == [];
    assert d.identities + [] == d.identities;
    assert d.AllIdentities([Caps], node, answers) == d.Answered(Caps, node, answers).0 + d.AllIdentities([], node, answers);
    assert d.AllFeatures([], [Caps], node, answers) == d.AllFeatures(Merge([], Sort(d.features)), [], node, answers);
  }
}
