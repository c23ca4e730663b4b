/** The JID object, method by method (gloox/jid.cpp:21-85). */
module JidObject {
  import opened Text
  import Jid

  class JID {
    const f: Jid.Profiles
    var username: string
    var server: string
    var serverRaw: string
    var resource: string
    var bare: string
    var full: string
    var valid: bool

    function State(): Jid.State
      reads this
    {
      Jid.State(username, server, serverRaw, resource, bare, full, valid)
    }

    /** With idempotent profiles, every part that is set is prepared. */
    ghost predicate Valid()
      reads this
    {
      Jid.AllIdempotent(f) ==> Jid.Prepared(f, State())
    }

    /** Bare and full JID are the printed parts. */
    predicate Consistent()
      reads this
    {
      Jid.Consistent(State())
    }

    constructor (f: Jid.Profiles)
      ensures this.f == f && State() == Jid.EMPTY && Valid() && Consistent()
    {
      this.f := f;
      username, server, serverRaw, resource, bare, full, valid := "", "", "", "", "", "", false;
    }

    constructor FromString(f: Jid.Profiles, jid: string)
      requires |jid| < Jid.NPOS
      ensures this.f == f && State() == Jid.SetJid(f, Jid.EMPTY, jid) && Valid()
      ensures valid <==> jid != "" && Jid.Accepts(f, Jid.Split(jid))
      ensures valid ==> Consistent()
    {
      this.f := f;
      username, server, serverRaw, resource, bare, full, valid := "", "", "", "", "", "", false;
      new;
      var _ := SetJID(jid);
    }

    /** Strings that were up to date stay so exactly if the text is empty or accepted, or fails before
        another bare JID is there. */
    method SetJID(jid: string) returns (r: bool)
      requires Valid() && |jid| < Jid.NPOS
      modifies this
      ensures Valid() && State() == Jid.SetJid(f, old(State()), jid) && r == valid
      ensures r <==> jid != "" && Jid.Accepts(f, Jid.Split(jid))
      ensures r || jid == "" ==> Consistent()
      ensures old(Consistent()) ==>
        (Consistent() <==>
          || jid == "" || Jid.Accepts(f, Jid.Split(jid))
          || Jid.WantedBare(f, old(State()), Jid.Split(jid)) == old(bare))
    {
      SetJIDFacts(State(), jid);
      hide Jid.SetJid, Jid.Accepts, Jid.WantedBare, Jid.AllIdempotent, Jid.Prepared, Jid.Consistent;
      r := TakeApart(jid);
    }

    lemma SetJIDFacts(s: Jid.State, jid: string)
      requires |jid| < Jid.NPOS
      ensures
        var t, p := Jid.SetJid(f, s, jid), Jid.Split(jid);
        && (Jid.AllIdempotent(f) && Jid.Prepared(f, s) ==> Jid.Prepared(f, t))
        && (t.valid <==> jid != "" && Jid.Accepts(f, p))
        && (t.valid || jid == "" ==> Jid.Consistent(t))
        && (Jid.Consistent(s) ==>
              (Jid.Consistent(t) <==> jid == "" || Jid.Accepts(f, p) || Jid.WantedBare(f, s, p) == s.bare))
    {
      Jid.SetJidValid(f, s, jid);
      if Jid.Consistent(s) {
        Jid.ConsistentIff(f, s, Jid.Whole(jid));
      }
      if jid != "" && Jid.Accepts(f, Jid.Split(jid)) {
        Jid.SetJidIff(f, s, jid);
      }
      if Jid.AllIdempotent(f) && Jid.Prepared(f, s) {
        Jid.SetJidPrepared(f, s, jid);
      }
      hide Jid.Accepts, Jid.WantedBare, Jid.AllIdempotent, Jid.Prepared;
    }

    /** The body of `setJID`. */
    method TakeApart(jid: string) returns (r: bool)
      requires |jid| < Jid.NPOS
      modifies this
      ensures State() == Jid.SetJid(f, old(State()), jid) && r == valid
    {
      if jid == "" {
        username, server, serverRaw, resource, bare, full, valid := "", "", "", "", "", "", false;
        return false;
      }
      hide Jid.FindChar, Jid.Wrap, Substr, Jid.PutUsername, Jid.SetRest;
      var at: int := Jid.FindChar(jid, '@', 0);
      var slash: int := Jid.FindChar(jid, '/', if at == Jid.NPOS then 0 else at);
      if at != Jid.NPOS {
        PutUsername(Substr(jid, 0, at));
        if !valid { return false; }
      }
      r := SetRest(Jid.SplitAt(jid, at, slash));
    }

    /** The server and the resource, with what follows. */
    method SetRest(p: Jid.Parts) returns (r: bool)
      modifies this
      ensures State() == Jid.SetRest(f, old(State()), p) && r == valid
    {
      hide Jid.PutServer, Jid.PutResource, Jid.SetStrings;
      PutServer(p.server);
      if !valid { return false; }
      if p.resource.Some? {
        PutResource(p.resource.value);
        if !valid { return false; }
      }
      SetStrings();
      return valid;
    }

    method SetUsername(name: string) returns (r: bool)
      requires Valid()
      modifies this
      ensures Valid() && State() == Jid.SetUsername(f, old(State()), name) && r == valid
      ensures Consistent()
    {
      SetterFacts(State(), name);
      hide Jid.AllIdempotent, Jid.Prepared, Jid.Consistent, Jid.PutUsername, Jid.SetStrings;
      PutUsername(name);
      SetStrings();
      return valid;
    }

    method SetServer(name: string) returns (r: bool)
      requires Valid()
      modifies this
      ensures Valid() && State() == Jid.SetServer(f, old(State()), name) && r == valid
      ensures Consistent()
    {
      SetterFacts(State(), name);
      hide Jid.AllIdempotent, Jid.Prepared, Jid.Consistent, Jid.PutServer, Jid.SetStrings;
      PutServer(name);
      SetStrings();
      return valid;
    }

    method SetResource(name: string) returns (r: bool)
      requires Valid()
      modifies this
      ensures Valid() && State() == Jid.SetResource(f, old(State()), name) && r == valid
      ensures old(Consistent()) ==> Consistent()
    {
      SetterFacts(State(), name);
      hide Jid.AllIdempotent, Jid.Prepared, Jid.Consistent, Jid.PutResource;
      PutResource(name);
      SetFull();
      return valid;
    }

    lemma SetterFacts(s: Jid.State, name: string)
      ensures
        Jid.AllIdempotent(f) && Jid.Prepared(f, s) ==>
          && Jid.Prepared(f, Jid.SetUsername(f, s, name))
          && Jid.Prepared(f, Jid.SetServer(f, s, name))
          && Jid.Prepared(f, Jid.SetResource(f, s, name))
      ensures Jid.Consistent(Jid.SetUsername(f, s, name))
      ensures Jid.Consistent(Jid.SetServer(f, s, name))
      ensures Jid.Consistent(s) ==> Jid.Consistent(Jid.SetResource(f, s, name))
    {
      if Jid.AllIdempotent(f) && Jid.Prepared(f, s) {
        Jid.ApplyPrepared(f, s, Jid.Username(name));
        Jid.ApplyPrepared(f, s, Jid.Server(name));
        Jid.ApplyPrepared(f, s, Jid.Resource(name));
      }
      if Jid.Consistent(s) {
        Jid.ConsistentIff(f, s, Jid.Resource(name));
      }
      hide Jid.AllIdempotent, Jid.Prepared;
    }

    method SetStrings()
      modifies `bare, `full
      ensures State() == Jid.SetStrings(old(State()))
    {
      SetBare();
      SetFull();
    }

    method SetFull()
      modifies `full
      ensures full == bare + if resource == "" then "" else "/" + resource
    {
      full := bare;
      if resource != "" {
        full := full + ("/" + resource);
      }
    }

    method SetBare()
      modifies `bare
      ensures bare == Jid.PrintBare(username, server)
    {
      if username != "" {
        bare := username + "@";
      } else {
        bare := "";
      }
      bare := bare + server;
    }

    /** `m_valid = prep::nodeprep( raw, m_username )`; a profile that fails leaves the part alone. */
    method PutUsername(raw: string)
      modifies `username, `valid
      ensures State() == Jid.PutUsername(f, old(State()), raw)
    {
      var out := f.node(raw);
      valid := out.Some?;
      if valid {
        username := out.value;
      }
    }

    method PutServer(raw: string)
      modifies `serverRaw, `server, `valid
      ensures State() == Jid.PutServer(f, old(State()), raw)
    {
      serverRaw := raw;
      var out := f.name(serverRaw);
      valid := out.Some?;
      if valid {
        server := out.value;
      }
    }

    method PutResource(raw: string)
      modifies `resource, `valid
      ensures State() == Jid.PutResource(f, old(State()), raw)
    {
      var out := f.resource(raw);
      valid := out.Some?;
      if valid {
        resource := out.value;
      }
    }

    /** `bareJID`: a new object from the bare JID. It is the same JID without its resource, if username
        and server can be told apart. */
    method BareJID() returns (jid: JID)
      requires Valid() && |bare| < Jid.NPOS
      ensures fresh(jid) && jid.f == f && jid.Valid()
      ensures
        Jid.AllIdempotent(f) && Consistent() && bare != "" && f.name(server) == Some(server)
          && Jid.ToldApart(username, server, "")
        ==> jid.State() == State().(resource := "", full := bare, serverRaw := server, valid := true)
    {
      ghost var b := State().(resource := "", full := bare);
      if Jid.AllIdempotent(f) && Consistent() {
        Jid.BareOnly(f, State());
        if bare != "" && f.name(server) == Some(server) && Jid.ToldApart(username, server, "") {
          Jid.ReparseOne(f, b);
        }
      }
      hide Jid.AllIdempotent, Jid.Prepared, Jid.Consistent, Jid.ToldApart, Jid.SetJid, Jid.Accepts;
      jid := new JID.FromString(f, bare);
    }
  }

  /** The calls a user makes: a text is taken apart, and the full JID goes into a new object, as it does
      when it has been sent. Whatever `setJID` accepts comes back, if its parts can be told apart. */
  method SentOver(f: Jid.Profiles, text: string) returns (here: JID, there: JID)
    requires |text| < Jid.NPOS
    ensures fresh(here) && fresh(there) && here.f == f && there.f == f
    ensures here.State() == Jid.SetJid(f, Jid.EMPTY, text)
    ensures
      here.valid && Jid.AllIdempotent(f) && here.full != "" && |here.full| < Jid.NPOS
        && Jid.ToldApart(here.username, here.server, here.resource)
      ==> there.State() == here.State().(serverRaw := here.server)
  {
    here := new JID.FromString(f, text);
    there := new JID(f);
    if |here.full| < Jid.NPOS {
      ghost var s := here.State();
      if here.valid && Jid.AllIdempotent(f) && s.full != "" && Jid.ToldApart(s.username, s.server, s.resource) {
        Jid.AcceptedServer(f, text);
        Jid.ReparseOne(f, s);
      }
      hide Jid.AllIdempotent, Jid.Prepared, Jid.Consistent, Jid.ToldApart, Jid.SetJid, Jid.Accepts;
      var _ := there.SetJID(here.full);
    }
  }
}
