/** JID escaping (gloox/jid.cpp:87-121) over `util::replaceAll` (gloox/util.cpp:101-116).
    Ten passes over the whole string, one after the other, amount to a single pass. */
module JidEscape {
  import HexText
  import opened Text

  /** What `replaceAll` leaves: it goes on after the text that it put in. */
  function Replaced(s: string, find: string, replace: string): string
    requires find != ""
    decreases |s|
  {
    if s == "" then ""
    else if At(s, find, 0) then replace + Replaced(s[|find|..], find, replace)
    else [s[0]] + Replaced(s[1..], find, replace)
  }

  /** The string when the passage up to `done` is dealt with, run to its end. */
  function Mix(t: string, find: string, replace: string, done: nat): string
    requires find != "" && done <= |t|
  {
    t[..done] + Replaced(t[done..], find, replace)
  }

  lemma AtTail(t: string, find: string, done: nat)
    requires done <= |t|
    ensures At(t[done..], find, 0) <==> At(t, find, done)
  {
    if done + |find| <= |t| {
      assert t[done..][0..|find|] == t[done..done + |find|];
    }
  }

  lemma MixSkip(t: string, find: string, replace: string, done: nat)
    requires find != "" && done < |t| && !At(t, find, done)
    ensures Mix(t, find, replace, done) == Mix(t, find, replace, done + 1)
  {
    AtTail(t, find, done);
    hide At;
    assert t[done..][1..] == t[done + 1..] && t[..done + 1] == t[..done] + [t[done]];
  }

  /** `replace` with a position and a length */
  function Exchange(t: string, at: nat, length: nat, replace: string): (u: string)
    requires at + length <= |t|
    ensures |u| == |t| - length + |replace|
  {
    t[..at] + replace + t[at + length..]
  }

  lemma MixTake(t: string, find: string, replace: string, done: nat)
    requires find != "" && At(t, find, done)
    ensures
      && done + |find| <= |t|
      && Mix(t, find, replace, done) == Mix(Exchange(t, done, |find|, replace), find, replace, done + |replace|)
  {
    var u := Exchange(t, done, |find|, replace);
    AtTail(t, find, done);
    assert t[done..][|find|..] == t[done + |find|..] == u[done + |replace|..];
    assert u[..done + |replace|] == t[..done] + replace;
    hide At;
  }

  lemma {:induction false} MixTo(t: string, find: string, replace: string, done: nat)
    requires find != "" && done <= |t|
    ensures
      match Find(t, find, done)
      case Some(i) => i <= |t| && Mix(t, find, replace, done) == Mix(t, find, replace, i)
      case None => Mix(t, find, replace, done) == t
    decreases |t| - done
  {
    hide Mix;
    if done == |t| {
      MixEnd(t, find, replace);
    } else if !At(t, find, done) {
      MixSkip(t, find, replace, done);
      MixTo(t, find, replace, done + 1);
    }
  }

  lemma MixEnd(t: string, find: string, replace: string)
    requires find != ""
    ensures Mix(t, find, replace, |t|) == t
    ensures Find(t, find, |t|).None?
  {
  }

  lemma FoundFits(t: string, find: string, from: nat)
    requires find != "" && from <= |t|
    ensures
      var i := Find(t, find, from);
      i.Some? ==> from <= i.value && At(t, find, i.value) && i.value + |find| <= |t|
  {
  }

  lemma MixBegin(t: string, find: string, replace: string)
    requires find != ""
    ensures Mix(t, find, replace, 0) == Replaced(t, find, replace)
  {
    assert t[0..] == t;
  }

  /** The text while `find` goes on at index: what is in front of it has been dealt with. */
  predicate Scan(s: string, find: string, replace: string, t: string, index: Option<nat>)
    requires find != ""
  {
    match index
    case None => t == Replaced(s, find, replace)
    case Some(i) => i + |find| <= |t| && At(t, find, i) && Mix(t, find, replace, i) == Replaced(s, find, replace)
  }

  lemma ScanFrom(s: string, find: string, replace: string, t: string, from: nat)
    requires find != "" && from <= |t| && Mix(t, find, replace, from) == Replaced(s, find, replace)
    ensures Scan(s, find, replace, t, Find(t, find, from))
  {
    MixTo(t, find, replace, from);
    FoundFits(t, find, from);
    hide Mix, Find, Replaced, At;
  }

  lemma ScanStep(s: string, find: string, replace: string, t: string, i: nat)
    requires find != "" && Scan(s, find, replace, t, Some(i))
    ensures
      && i + |find| <= |t|
      && var u := Exchange(t, i, |find|, replace);
         var next := Find(u, find, i + |replace|);
         && Scan(s, find, replace, u, next)
         && (next.Some? ==> next.value <= |u| && |u| - next.value < |t| - i)
  {
    hide Mix, Find, Replaced, At, Exchange;
    var u := Exchange(t, i, |find|, replace);
    MixTake(t, find, replace, i);
    FoundFits(u, find, i + |replace|);
    ScanFrom(s, find, replace, u, i + |replace|);
  }

  method ReplaceAll(s: string, find: string, replace: string) returns (target: string)
    ensures target == if find == "" then s else Replaced(s, find, replace)
  {
    target := s;
    if |find| == 0 { return; }
    MixBegin(s, find, replace);
    ScanFrom(s, find, replace, s, 0);
    hide Mix, Find, Replaced, At, Exchange;
    var index: Option<nat> := Find(target, find, 0);
    while index.Some?
      invariant Scan(s, find, replace, target, index)
      decreases if index.Some? then |target| - index.value else -1
    {
      var i := index.value;
      ScanStep(s, find, replace, target, i);
      target := Exchange(target, i, |find|, replace);
      index := Find(target, find, i + |replace|);
    }
  }

  // ---- the ten characters ----

  /** In the order of `unescapeNode`, which takes the backslash last. */
  const PLAIN := " \"&'/:<>@\\"
  const HIGH := "2222233345"
  const LOW := "0267face0c"

  predicate Index(k: int) {
    0 <= k < 10
  }

  const BACKSLASH: nat := 9

  function Plain(k: nat): char
    requires Index(k)
  {
    PLAIN[k]
  }

  function Token(k: nat): string
    requires Index(k)
  {
    ['\\', HIGH[k], LOW[k]]
  }

  /** The index of a character, or 10. */
  function CharIndex(c: char): (k: nat)
    ensures k <= 10
  {
    if c == ' ' then 0 else if c == '"' then 1 else if c == '&' then 2 else if c == '\'' then 3
    else if c == '/' then 4 else if c == ':' then 5 else if c == '<' then 6 else if c == '>' then 7
    else if c == '@' then 8 else if c == '\\' then 9 else 10
  }

  /** The index of the token for two characters after a backslash, or 10. */
  function CodeIndex(h: char, l: char): (k: nat)
    ensures k <= 10
  {
    if h == '2' then
      if l == '0' then 0 else if l == '2' then 1 else if l == '6' then 2 else if l == '7' then 3
      else if l == 'f' then 4 else 10
    else if h == '3' then if l == 'a' then 5 else if l == 'c' then 6 else if l == 'e' then 7 else 10
    else if h == '4' && l == '0' then 8
    else if h == '5' && l == 'c' then 9
    else 10
  }

  /** The index of the token at the front, or 10. */
  function TokenIndex(s: string): (k: nat)
    ensures k <= 10
    ensures k < 10 ==> |s| >= 3
  {
    if |s| >= 3 && s[0] == '\\' then CodeIndex(s[1], s[2]) else 10
  }

  lemma CharIndexOf(c: char, k: nat)
    requires Index(k)
    ensures CharIndex(c) == k <==> c == Plain(k)
  {
  }

  lemma CodeIndexOf(h: char, l: char, k: nat)
    requires Index(k)
    ensures CodeIndex(h, l) == k <==> h == HIGH[k] && l == LOW[k]
  {
  }

  /** The letters of the tokens are none of the ten characters. */
  lemma CodesArePlain(k: nat)
    requires Index(k)
    ensures CharIndex(HIGH[k]) == 10 && CharIndex(LOW[k]) == 10
    ensures CharIndex('\\') == BACKSLASH
  {
  }

  lemma TokenIndexOf(s: string, k: nat)
    requires Index(k)
    ensures TokenIndex(s) == k <==> At(s, Token(k), 0)
  {
    if |s| >= 3 {
      CodeIndexOf(s[1], s[2], k);
      hide PLAIN, HIGH, LOW, CodeIndex;
      assert s[0..3] == [s[0], s[1], s[2]];
    }
  }

  // ---- escaping ----

  /** A character after some of the passes of `escapeNode`: the backslash, which goes first, and the
      characters below n. */
  function EscapeChar(c: char, n: nat): string {
    var k := CharIndex(c);
    if k < 10 && (k < n || k == BACKSLASH) then Token(k) else [c]
  }

  function EscapeUpTo(s: string, n: nat): string
    decreases |s|
  {
    if s == "" then "" else EscapeChar(s[0], n) + EscapeUpTo(s[1..], n)
  }

  /** The simultaneous form: every character on its own. */
  function Escape(s: string): string {
    EscapeUpTo(s, 9)
  }

  lemma AtChar(s: string, c: char)
    requires s != ""
    ensures At(s, [c], 0) <==> s[0] == c
  {
  }

  /** Replacing a single character goes through a concatenation. */
  lemma {:induction false} ReplacedChar(a: string, b: string, c: char, replace: string)
    ensures Replaced(a + b, [c], replace) == Replaced(a, [c], replace) + Replaced(b, [c], replace)
    decreases |a|
  {
    if a == "" {
      assert a + b == b;
    } else {
      ReplacedChar(a[1..], b, c, replace);
      assert (a + b)[1..] == a[1..] + b;
      AtChar(a, c);
      AtChar(a + b, c);
      hide At;
    }
  }

  lemma ReplacedOne(x: char, c: char, replace: string)
    ensures Replaced([x], [c], replace) == if x == c then replace else [x]
  {
    assert [x][0..1] == [x] && [x][1..] == "";
  }

  lemma ReplacedThree(x: char, y: char, z: char, c: char, replace: string)
    requires x != c && y != c && z != c
    ensures Replaced([x, y, z], [c], replace) == [x, y, z]
  {
    ReplacedOne(x, c, replace);
    ReplacedOne(y, c, replace);
    ReplacedOne(z, c, replace);
    ReplacedChar([x], [y, z], c, replace);
    ReplacedChar([y], [z], c, replace);
    hide Replaced;
    assert [x] + [y, z] == [x, y, z] && [y] + [z] == [y, z];
  }

  /** One more pass on what became of one character. */
  lemma EscapeCharPass(c: char, k: nat)
    requires Index(k) && k != BACKSLASH
    ensures Replaced(EscapeChar(c, k), [Plain(k)], Token(k)) == EscapeChar(c, k + 1)
  {
    var j := CharIndex(c);
    CharIndexOf(c, k);
    ReplacedOne(c, Plain(k), Token(k));
    if j < 10 {
      CodesArePlain(j);
      CharIndexOf(HIGH[j], k);
      CharIndexOf(LOW[j], k);
      CharIndexOf('\\', k);
      hide PLAIN, HIGH, LOW, CharIndex, Replaced;
      ReplacedThree('\\', HIGH[j], LOW[j], Plain(k), Token(k));
    }
  }

  lemma {:induction false} EscapePass(s: string, k: nat)
    requires Index(k) && k != BACKSLASH
    ensures Replaced(EscapeUpTo(s, k), [Plain(k)], Token(k)) == EscapeUpTo(s, k + 1)
    decreases |s|
  {
    if s != "" {
      EscapePass(s[1..], k);
      EscapeCharPass(s[0], k);
      ReplacedChar(EscapeChar(s[0], k), EscapeUpTo(s[1..], k), Plain(k), Token(k));
      hide Replaced, EscapeChar, Plain, Token;
    }
  }

  lemma {:induction false} BackslashPass(s: string)
    ensures Replaced(s, [Plain(BACKSLASH)], Token(BACKSLASH)) == EscapeUpTo(s, 0)
    decreases |s|
  {
    if s != "" {
      BackslashPass(s[1..]);
      ReplacedOne(s[0], '\\', Token(BACKSLASH));
      ReplacedChar([s[0]], s[1..], '\\', Token(BACKSLASH));
      assert [s[0]] + s[1..] == s;
    }
  }

  method EscapeNode(node: string) returns (escaped: string)
    ensures escaped == Escape(node)
  {
    escaped := ReplaceAll(node, "\\", "\\5c");
    BackslashPass(node);
    hide Replaced, EscapeUpTo;
    EscapePass(node, 0);
    escaped := ReplaceAll(escaped, " ", "\\20");
    EscapePass(node, 1);
    escaped := ReplaceAll(escaped, "\"", "\\22");
    EscapePass(node, 2);
    escaped := ReplaceAll(escaped, "&", "\\26");
    EscapePass(node, 3);
    escaped := ReplaceAll(escaped, "'", "\\27");
    EscapePass(node, 4);
    escaped := ReplaceAll(escaped, "/", "\\2f");
    EscapePass(node, 5);
    escaped := ReplaceAll(escaped, ":", "\\3a");
    EscapePass(node, 6);
    escaped := ReplaceAll(escaped, "<", "\\3c");
    EscapePass(node, 7);
    escaped := ReplaceAll(escaped, ">", "\\3e");
    EscapePass(node, 8);
    escaped := ReplaceAll(escaped, "@", "\\40");
  }

  // ---- unescaping ----

  /** One pass from left to right that knows the first n tokens. */
  function UnescapeUpTo(s: string, n: nat): string
    decreases |s|
  {
    if s == "" then ""
    else
      var k := TokenIndex(s);
      if k < n && k < 10 then [Plain(k)] + UnescapeUpTo(s[3..], n) else [s[0]] + UnescapeUpTo(s[1..], n)
  }

  /** The simultaneous form. */
  function Unescape(s: string): string {
    UnescapeUpTo(s, 10)
  }

  lemma {:induction false} UnescapeNone(s: string)
    ensures UnescapeUpTo(s, 0) == s
    decreases |s|
  {
    if s != "" {
      UnescapeNone(s[1..]);
    }
  }

  /** A character that is none of the ten stands for itself. */
  lemma UnescapeHead(s: string, n: nat, c: char)
    requires CharIndex(c) == 10 && n <= 10
    ensures
      var u := UnescapeUpTo(s, n);
      u != "" && u[0] == c <==> s != "" && s[0] == c
    ensures s != "" && s[0] == c ==> UnescapeUpTo(s, n)[1..] == UnescapeUpTo(s[1..], n)
  {
    if s != "" {
      var k := TokenIndex(s);
      if k < 10 {
        CharIndexOf(c, k);
      }
      CodesArePlain(0);
      hide PLAIN, CharIndex, CodeIndex;
    }
  }

  /** A token stays visible through the passes before its own, and none appears. */
  lemma UnescapeToken(s: string, k: nat)
    requires Index(k) && s != "" && TokenIndex(s) >= k
    ensures At(UnescapeUpTo(s, k), Token(k), 0) <==> TokenIndex(s) == k
    ensures TokenIndex(s) == k ==> UnescapeUpTo(s, k)[3..] == UnescapeUpTo(s[3..], k)
  {
    var u := UnescapeUpTo(s, k);
    assert u == [s[0]] + UnescapeUpTo(s[1..], k);
    TokenIndexOf(s, k);
    TokenIndexOf(u, k);
    CodesArePlain(k);
    UnescapeHead(s[1..], k, HIGH[k]);
    if |s| > 1 {
      UnescapeHead(s[2..], k, LOW[k]);
      assert s[1..][1..] == s[2..];
    }
    if |s| > 2 {
      assert s[2..][1..] == s[3..];
      CodeIndexOf(s[1], s[2], k);
    }
    TokenAt(u, k);
    TokenAt(s, k);
    hide UnescapeUpTo, PLAIN, HIGH, LOW, CodeIndex, TokenIndex, CharIndex, At, Token;
    assert u[1..] == UnescapeUpTo(s[1..], k);
  }

  lemma TokenAt(s: string, k: nat)
    requires Index(k)
    ensures At(s, Token(k), 0) <==> |s| >= 3 && s[0] == '\\' && s[1] == HIGH[k] && s[2] == LOW[k]
  {
    if |s| >= 3 {
      assert s[0..3] == [s[0], s[1], s[2]];
    }
  }

  /** One more pass.  The backslash comes last: no pass has yet put one in. */
  lemma {:induction false} UnescapePass(s: string, k: nat)
    requires Index(k)
    ensures Replaced(UnescapeUpTo(s, k), Token(k), [Plain(k)]) == UnescapeUpTo(s, k + 1)
    decreases |s|
  {
    if s != "" {
      var j := TokenIndex(s);
      if j < k {
        PassOverPlain(s, k);
        UnescapePass(s[3..], k);
      } else {
        UnescapeToken(s, k);
        hide Plain, Token, CodeIndex;
        if j == k {
          UnescapePass(s[3..], k);
        } else {
          UnescapePass(s[1..], k);
        }
      }
    }
  }

  /** A character that an earlier pass put in begins no token. */
  lemma PassOverPlain(s: string, k: nat)
    requires Index(k) && TokenIndex(s) < k
    ensures
      var u := UnescapeUpTo(s, k);
      Replaced(u, Token(k), [Plain(k)]) == [Plain(TokenIndex(s))] + Replaced(UnescapeUpTo(s[3..], k), Token(k), [Plain(k)])
  {
    var u, j := UnescapeUpTo(s, k), TokenIndex(s);
    CharIndexOf('\\', j);
    CodesArePlain(j);
    TokenAt(u, k);
    hide PLAIN, HIGH, LOW, CodeIndex, CharIndex, At, Token, TokenIndex;
    assert u[1..] == UnescapeUpTo(s[3..], k);
  }

  method UnescapeNode(node: string) returns (unescaped: string)
    ensures unescaped == Unescape(node)
  {
    UnescapeNone(node);
    hide Replaced, UnescapeUpTo;
    UnescapePass(node, 0);
    unescaped := ReplaceAll(node, "\\20", " ");
    UnescapePass(node, 1);
    unescaped := ReplaceAll(unescaped, "\\22", "\"");
    UnescapePass(node, 2);
    unescaped := ReplaceAll(unescaped, "\\26", "&");
    UnescapePass(node, 3);
    unescaped := ReplaceAll(unescaped, "\\27", "'");
    UnescapePass(node, 4);
    unescaped := ReplaceAll(unescaped, "\\2f", "/");
    UnescapePass(node, 5);
    unescaped := ReplaceAll(unescaped, "\\3a", ":");
    UnescapePass(node, 6);
    unescaped := ReplaceAll(unescaped, "\\3c", "<");
    UnescapePass(node, 7);
    unescaped := ReplaceAll(unescaped, "\\3e", ">");
    UnescapePass(node, 8);
    unescaped := ReplaceAll(unescaped, "\\40", "@");
    UnescapePass(node, 9);
    unescaped := ReplaceAll(unescaped, "\\5c", "\\");
  }

  // ---- there and back ----

  /** Nothing but tokens and characters that need none. */
  predicate Escaped(s: string)
    decreases |s|
  {
    s == ""
    || (if TokenIndex(s) < 10 then Escaped(s[3..]) else CharIndex(s[0]) == 10 && Escaped(s[1..]))
  }

  lemma EscapeFirst(c: char, rest: string)
    ensures
      var e := EscapeChar(c, 9) + rest;
      && e != ""
      && if CharIndex(c) < 10 then TokenIndex(e) == CharIndex(c) && Plain(TokenIndex(e)) == c && e[3..] == rest
         else TokenIndex(e) == 10 && e[0] == c && e[1..] == rest
  {
    var k := CharIndex(c);
    if k < 10 {
      CodeIndexOf(HIGH[k], LOW[k], k);
      CharIndexOf(c, k);
      hide PLAIN, HIGH, LOW, CodeIndex, CharIndex;
      assert (Token(k) + rest)[3..] == rest;
    }
  }

  /** Every string comes back, and its escaped form is free of the ten characters but for tokens. */
  lemma {:induction false} UnescapeEscape(s: string)
    ensures Unescape(Escape(s)) == s
    ensures Escaped(Escape(s))
    decreases |s|
  {
    if s != "" {
      EscapeFirst(s[0], EscapeUpTo(s[1..], 9));
      hide EscapeChar, Plain, CharIndex, TokenIndex;
      UnescapeEscape(s[1..]);
    }
  }

  lemma EscapeAfter(k: nat, c: char)
    requires Index(k)
    ensures EscapeChar(Plain(k), 9) == Token(k)
    ensures CharIndex(c) == 10 ==> EscapeChar(c, 9) == [c]
  {
    CharIndexOf(Plain(k), k);
    hide PLAIN, HIGH, LOW, CharIndex;
  }

  lemma {:induction false} EscapeUnescape(s: string)
    requires Escaped(s)
    ensures Escape(Unescape(s)) == s
    decreases |s|
  {
    if s != "" {
      var k := TokenIndex(s);
      EscapeAfter(if k < 10 then k else 0, s[0]);
      if k < 10 {
        TokenIndexOf(s, k);
        EscapeUnescape(s[3..]);
        assert s == s[..3] + s[3..];
      } else {
        EscapeUnescape(s[1..]);
      }
      hide EscapeChar, Plain, Token, CharIndex, TokenIndex;
    }
  }

  /** The strings that unescaping and escaping give back are exactly the escaped ones. */
  lemma EscapeUnescapeIff(s: string)
    ensures Escape(Unescape(s)) == s <==> Escaped(s)
  {
    UnescapeEscape(Unescape(s));
    if Escaped(s) {
      EscapeUnescape(s);
    }
  }

  // ---- the rules of XEP-0106 ----

  /** The ten characters (XEP-0106, section 3). */
  predicate Disallowed(c: char) {
    c in {' ', '"', '&', '\'', '/', ':', '<', '>', '@', '\\'}
  }

  /** A disallowed character becomes a backslash and the two hexadecimal digits of its code. */
  lemma EscapeOne(c: char)
    ensures
      var e := Escape([c]);
      if Disallowed(c) then |e| == 3 && e[0] == '\\' && HexText.ReadByte(e[1], e[2]) == Some(c as int) else e == [c]
  {
    assert EscapeUpTo([c], 9) == EscapeChar(c, 9) + EscapeUpTo([c][1..], 9);
    var k := CharIndex(c);
    if k < 10 {
      TokenHex(k);
      CharIndexOf(c, k);
    }
    CharIndexDisallowed(c);
    hide CharIndex, PLAIN, HIGH, LOW, EscapeUpTo;
  }

  lemma CharIndexDisallowed(c: char)
    ensures CharIndex(c) < 10 <==> Disallowed(c)
  {
  }

  lemma TokenHex(k: nat)
    requires Index(k)
    ensures HexText.ReadByte(HIGH[k], LOW[k]) == Some(PLAIN[k] as int)
  {
  }

  /** Every character on its own. */
  lemma {:induction false} EscapeEach(a: string, b: string)
    ensures Escape(a + b) == Escape(a) + Escape(b)
    decreases |a|
  {
    if a == "" {
      assert a + b == b;
    } else {
      assert (a + b)[0] == a[0] && (a + b)[1..] == a[1..] + b;
      hide EscapeChar;
      EscapeEach(a[1..], b);
    }
  }

  /** Two characters behind a backslash that are the code of a disallowed character stand for it; all
      else stands for itself. */
  lemma UnescapeFront(s: string)
    requires s != ""
    ensures
      if |s| >= 3 && s[0] == '\\' && exists c :: Disallowed(c) && HexText.ReadByte(s[1], s[2]) == Some(c as int)
      then exists c :: Disallowed(c) && HexText.ReadByte(s[1], s[2]) == Some(c as int) && Unescape(s) == [c] + Unescape(s[3..])
      else Unescape(s) == [s[0]] + Unescape(s[1..])
  {
    var k := TokenIndex(s);
    if k < 10 {
      CodeIndexOf(s[1], s[2], k);
      TokenHex(k);
      CharIndexOf(Plain(k), k);
      CharIndexDisallowed(Plain(k));
      assert Disallowed(Plain(k)) && HexText.ReadByte(s[1], s[2]) == Some(Plain(k) as int);
      hide CharIndex, CodeIndex, PLAIN, HIGH, LOW;
    } else if |s| >= 3 && s[0] == '\\' {
      forall c | Disallowed(c)
        ensures HexText.ReadByte(s[1], s[2]) != Some(c as int)
      {
        var j := CharIndex(c);
        CharIndexDisallowed(c);
        CharIndexOf(c, j);
        TokenHex(j);
        CodeIndexOf(s[1], s[2], j);
        hide CharIndex, CodeIndex, PLAIN, HIGH, LOW;
        CodesOnce(s[1], s[2], HIGH[j], LOW[j]);
      }
    }
  }

  lemma CodesOnce(a: char, b: char, c: char, d: char)
    ensures HexText.ReadByte(a, b).Some? && HexText.ReadByte(a, b) == HexText.ReadByte(c, d) ==> a == c && b == d
  {
    if HexText.ReadByte(a, b).Some? && HexText.ReadByte(a, b) == HexText.ReadByte(c, d) {
      HexText.BytesDiffer(a, b, c, d);
    }
  }
}
