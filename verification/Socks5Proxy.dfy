/** The SOCKS5 connection, with its buffers (gloox/connectionsocks5proxy.cpp:175-365): every write
    through `pos` is inside the buffer that was allocated. */
module Socks5Proxy {
  import opened Text
  import S = Socks5
  import H = Socks5Handshake

  method PutChar(d: array<char>, at: nat, c: char)
    requires at < d.Length
    modifies d
    ensures d[..at + 1] == old(d[..at]) + [c]
  {
    d[at] := c;
  }

  /** `strncpy( d + pos, s.c_str(), s.length() )` */
  method StringCopy(d: array<char>, pos: nat, s: string)
    requires pos + |s| <= d.Length
    modifies d
    ensures d[..pos + |s|] == old(d[..pos]) + S.Copied(s)
  {
    var i := 0;
    while i < |s| && s[i] != 0 as char
      invariant i <= |s| && d[..pos + i] == old(d[..pos]) + s[..i]
      invariant forall k | 0 <= k < i :: s[k] != 0 as char
    {
      PutChar(d, pos + i, s[i]);
      i := i + 1;
    }
    CopiedIs(s, i);
    hide S.Copied;
    assert d[..pos + i] == old(d[..pos]) + s[..i];
    ZeroFill(d, pos + i, |s| - i);
    assert old(d[..pos]) + s[..i] + S.Zeros(|s| - i) == old(d[..pos]) + S.Copied(s);
  }

  method ZeroFill(d: array<char>, pos: nat, n: nat)
    requires pos + n <= d.Length
    modifies d
    ensures d[..pos + n] == old(d[..pos]) + S.Zeros(n)
  {
    var i := 0;
    while i < n
      invariant i <= n && d[..pos + i] == old(d[..pos]) + S.Zeros(i)
    {
      ghost var head := d[..pos + i];
      d[pos + i] := 0 as char;
      assert d[..pos + i + 1] == head + [0 as char];
      MoreZeros(i);
      i := i + 1;
    }
  }

  lemma {:induction false} MoreZeros(n: nat)
    ensures S.Zeros(n + 1) == S.Zeros(n) + [0 as char]
  {
    if n > 0 {
      MoreZeros(n - 1);
    }
  }

  lemma {:induction false} CopiedIs(s: string, i: nat)
    requires i <= |s| && (i < |s| ==> s[i] == 0 as char) && forall k | 0 <= k < i :: s[k] != 0 as char
    ensures S.Copied(s) == s[..i] + S.Zeros(|s| - i)
    decreases i
  {
    if i > 0 {
      CopiedIs(s[1..], i - 1);
      assert s[..i] == [s[0]] + s[1..][..i - 1];
    }
  }

  class ConnectionSOCKS5Proxy {
    const config: H.Config
    var s5: H.S5State

    /** What went to the proxy, and what the handler was told. */
    var sent: seq<string>
    var connects: nat
    var errors: seq<H.ConnError>
    var received: string

    function State(): H.State
      reads this
    {
      H.State(s5, sent, connects, errors, received)
    }

    constructor (config: H.Config)
      ensures State() == H.INITIAL && this.config == config
    {
      this.config := config;
      s5, sent, connects, errors, received := H.S5Disconnected, [], 0, [], "";
    }

    /** `send`; where the connection does not take it, all is cleaned up. */
    method Send(packet: string, ok: bool)
      modifies this
      ensures State() == H.Sent(old(State()), packet, ok)
    {
      sent := sent + [packet];
      if !ok {
        s5 := H.S5Disconnected;
        errors := errors + [H.IoError];
      }
    }

    method HandleConnect(ok: bool)
      modifies this
      ensures State() == H.HandleConnect(config, old(State()), ok)
    {
      var auth := config.user != "" && config.password != "";
      var d := new char[4];
      d[0], d[1], d[2], d[3] := 5 as char, if auth then 2 as char else 1 as char, 0 as char, 2 as char;
      assert d[..3] == [d[0], d[1], d[2]] && d[..4] == [d[0], d[1], d[2], d[3]];
      Send(d[..if auth then 4 else 3], ok);
    }

    method CredentialsPacket() returns (packet: string)
      ensures packet == S.Credentials(config.user, config.password)
    {
      hide S.Copied;
      var user, password := config.user, config.password;
      var d := new char[3 + |user| + |password|];
      d[0] := 1 as char;
      d[1] := S.ByteOf(|user|);
      var pos := 2;
      assert d[..2] == [1 as char, S.ByteOf(|user|)];
      StringCopy(d, pos, user);
      pos := pos + |user|;
      ghost var head := d[..pos];
      d[pos] := S.ByteOf(|password|);
      assert d[..pos + 1] == head + [S.ByteOf(|password|)];
      pos := pos + 1;
      StringCopy(d, pos, password);
      pos := pos + |password|;
      assert pos == d.Length;
      return d[..pos];
    }

    method RequestPacket() returns (packet: string)
      ensures packet == S.Request(config.ip, config.server, config.port, config.littleEndian)
    {
      hide S.Copied, S.Octets, S.ByteOf;
      var server := config.server;
      var d := new char[if config.ip then 10 else 6 + |server| + 1];
      d[0], d[1], d[2] := 5 as char, 1 as char, 0 as char;
      var pos: nat := 3;
      if config.ip {
        d[pos] := 1 as char;
        pos := 4;
        assert d[..4] == [5 as char, 1 as char, 0 as char, 1 as char];
        pos := Address(d);
      } else {
        d[pos] := 3 as char;
        d[4] := S.ByteOf(|server|);
        pos := 5;
        assert d[..5] == S.NameHead(server);
        StringCopy(d, pos, server);
        pos := pos + |server|;
      }
      PutPort(d, pos);
      pos := pos + 2;
      assert !config.ip ==> pos == d.Length;
      return d[..pos];
    }

    /** The two bytes of the port. */
    method PutPort(d: array<char>, start: nat)
      requires start + 2 <= d.Length
      modifies d
      ensures d[..start + 2] == old(d[..start]) + S.PortBytes(config.port, config.littleEndian)
    {
      var pos := start;
      var b := S.PortBytes(config.port, config.littleEndian);
      d[pos] := b[0];
      pos := pos + 1;
      d[pos] := b[1];
      hide S.PortBytes;
      assert d[..start] == old(d[..start]);
      assert d[..start + 2] == d[..start] + [d[start], d[start + 1]];
    }

    /** The loop over the pieces of the address. */
    method Address(d: array<char>) returns (pos: nat)
      requires d.Length == 10
      modifies d
      ensures pos + 2 <= d.Length && d[..pos] == old(d[..4]) + S.Octets(config.server, "", 0)
    {
      hide Atoi, S.ByteOf, S.Octets;
      pos := 4;
      var server := config.server;
      assert server[0..] == server;
      var s: string := "";
      var l := 0;
      var k := 0;
      while k < |server| && l < 4
        invariant k <= |server| && l <= 4 && pos == 4 + l
        invariant d[..pos] + S.Octets(server[k..], s, l) == old(d[..4]) + S.Octets(server, "", 0)
      {
        NextPiece(server, k, s, l);
        if server[k] != '.' {
          s := s + [server[k]];
        }
        if server[k] == '.' || k == |server| - 1 {
          PutChar(d, pos, S.ByteOf(Atoi(s)));
          pos := pos + 1;
          s := "";
          l := l + 1;
        }
        k := k + 1;
      }
      NoPiece(server[k..], s, l);
    }

    method Negotiate(ok: bool)
      modifies this
      ensures State() == H.Negotiate(config, old(State()), ok)
    {
      hide S.Request;
      s5 := H.S5Negotiating;
      var packet := RequestPacket();
      Send(packet, ok);
    }

    method HandleReceivedData(data: string, ok: bool)
      modifies this
      ensures State() == H.HandleReceivedData(config, old(State()), data, ok)
    {
      hide H.Negotiate, H.HandleMethod;
      match s5 {
        case S5Connecting => HandleMethod(data, ok);
        case S5Negotiating =>
          if |data| >= 6 && H.At(data, 0) == 5 {
            if H.At(data, 1) == 0 {
              s5 := H.S5Connected;
              connects := connects + 1;
            } else {
              errors := errors + [H.ConnectionRefused];
            }
          } else {
            errors := errors + [H.IoError];
          }
        case S5Authenticating =>
          if |data| == 2 && H.At(data, 0) == 1 && H.At(data, 1) == 0 {
            Negotiate(ok);
          } else {
            errors := errors + [H.ProxyAuthFailed];
          }
        case S5Connected => received := received + data;
        case S5Disconnected =>
      }
    }

    method HandleMethod(data: string, ok: bool)
      modifies this
      ensures State() == H.HandleMethod(config, old(State()), data, ok)
    {
      hide H.Negotiate, S.Credentials, H.At;
      var error: Option<H.ConnError> := None;
      if |data| != 2 || H.At(data, 0) != 5 {
        error := Some(H.IoError);
      }
      if H.At(data, 1) == 0 {
        Negotiate(ok);
      } else if H.At(data, 1) == 2 && config.user != "" && config.password != "" {
        s5 := H.S5Authenticating;
        var packet := CredentialsPacket();
        Send(packet, ok);
      } else if H.At(data, 1) == 255 && config.user != "" && config.password != "" {
        error := Some(H.ProxyNoSupportedAuth);
      } else {
        error := Some(H.ProxyAuthRequired);
      }
      if error.Some? {
        errors := errors + [error.value];
      }
    }
  }

  lemma NoPiece(server: string, s: string, l: nat)
    requires l <= 4 && (server == "" || l == 4)
    ensures S.Octets(server, s, l) == ""
  {
  }

  lemma NextPiece(server: string, k: nat, s: string, l: nat)
    requires k < |server| && l < 4
    ensures
      var t := if server[k] != '.' then s + [server[k]] else s;
      S.Octets(server[k..], s, l) ==
        if server[k] == '.' || k == |server| - 1 then [S.ByteOf(Atoi(t))] + S.Octets(server[k + 1..], "", l + 1)
        else S.Octets(server[k + 1..], t, l)
  {
    hide Atoi, S.ByteOf;
    assert server[k..][1..] == server[k + 1..];
  }
}
