/** The JSON Pointer printer and reader of the materialization crosswalk (sections 3 to 5 of
    RFC 6901). */
module JsonPointer {
  import opened Basics
  import opened FixedPoint

  datatype Json = Scalar(value: int) | Object(members: seq<Member>) | Array(items: seq<Json>)
  datatype Member = Member(key: string, value: Json)

  // ------------------------------------------------------------------- escaping

  function EscapeChar(c: char): string {
    if c == '~' then "~0" else if c == '/' then "~1" else [c]
  }

  /** Every character of a key escaped on its own. */
  function Escape(s: string): string {
    if s == [] then [] else EscapeChar(s[0]) + Escape(s[1..])
  }

  /** `s.replace(c, t)` for a one-character pattern. */
  function ReplaceChar(s: string, c: char, t: string): string {
    if s == [] then [] else (if s[0] == c then t else [s[0]]) + ReplaceChar(s[1..], c, t)
  }

  lemma {:induction false} ReplaceCharConcat(a: string, b: string, c: char, t: string)
    ensures ReplaceChar(a + b, c, t) == ReplaceChar(a, c, t) + ReplaceChar(b, c, t)
    decreases |a|
  {
    if a == [] {
      assert a + b == b;
    } else {
      assert (a + b)[1..] == a[1..] + b;
      ReplaceCharConcat(a[1..], b, c, t);
    }
  }

  /** The source's `key.replace("~", "~0").replace("/", "~1")` escapes each character once. */
  lemma {:induction false} TwoReplacementsEscape(s: string)
    ensures ReplaceChar(ReplaceChar(s, '~', "~0"), '/', "~1") == Escape(s)
    decreases |s|
  {
    if s == [] {
    } else {
      var head := if s[0] == '~' then "~0" else [s[0]];
      TwoReplacementsEscape(s[1..]);
      ReplaceCharConcat(head, ReplaceChar(s[1..], '~', "~0"), '/', "~1");
      assert ReplaceChar(head, '/', "~1") == EscapeChar(s[0]) by {
        assert head[1..] == if s[0] == '~' then "0" else "";
        assert "0"[1..] == "";
      }
    }
  }

  /** `s.replace(ab, c)` for a two-character pattern, left to right. */
  function Replace(s: string, a: char, b: char, c: char): string {
    if |s| < 2 then s
    else if s[0] == a && s[1] == b then [c] + Replace(s[2..], a, b, c)
    else [s[0]] + Replace(s[1..], a, b, c)
  }

  /** `token.replace("~1", "/").replace("~0", "~")`. */
  function Unescape(s: string): string { Replace(Replace(s, '~', '1', '/'), '~', '0', '~') }

  function HalfEscape(s: string): string {
    if s == [] then [] else (if s[0] == '~' then "~0" else [s[0]]) + HalfEscape(s[1..])
  }

  /** A replacement passes over a character that cannot start the pattern. */
  lemma {:induction false} ReplaceSkips(x: char, s: string, a: char, b: char, c: char)
    requires x != a || s == [] || s[0] != b
    ensures Replace([x] + s, a, b, c) == [x] + Replace(s, a, b, c)
  {
    assert ([x] + s)[1..] == s;
    if s == [] {
      assert [x] + s == [x];
    }
  }

  lemma {:induction false} ReplaceHits(s: string, a: char, b: char, c: char)
    ensures Replace([a, b] + s, a, b, c) == [c] + Replace(s, a, b, c)
  {
    assert ([a, b] + s)[2..] == s;
  }

  lemma {:induction false} SlashesBack(s: string)
    ensures Replace(Escape(s), '~', '1', '/') == HalfEscape(s)
    decreases |s|
  {
    if s == [] {
    } else {
      var rest := Escape(s[1..]);
      SlashesBack(s[1..]);
      hide Replace;
      if s[0] == '/' {
        ReplaceHits(rest, '~', '1', '/');
      } else if s[0] == '~' {
        assert "~0" + rest == ['~'] + (['0'] + rest);
        ReplaceSkips('0', rest, '~', '1', '/');
        ReplaceSkips('~', ['0'] + rest, '~', '1', '/');
        assert ['~'] + (['0'] + Replace(rest, '~', '1', '/')) == "~0" + Replace(rest, '~', '1', '/');
      } else {
        ReplaceSkips(s[0], rest, '~', '1', '/');
      }
    }
  }

  lemma {:induction false} TildesBack(s: string)
    ensures Replace(HalfEscape(s), '~', '0', '~') == s
    decreases |s|
  {
    if s != [] {
      var rest := HalfEscape(s[1..]);
      TildesBack(s[1..]);
      hide Replace;
      if s[0] == '~' {
        ReplaceHits(rest, '~', '0', '~');
      } else {
        ReplaceSkips(s[0], rest, '~', '0', '~');
      }
      assert [s[0]] + s[1..] == s;
    } else {
      assert Replace([], '~', '0', '~') == [];
    }
  }

  /** Reading an escaped key gives the key back, whatever `~` and `/` it contains. */
  lemma {:induction false} UnescapeEscape(s: string)
    ensures Unescape(Escape(s)) == s
  {
    SlashesBack(s);
    TildesBack(s);
  }

  lemma {:induction false} EscapeHasNoSlash(s: string)
    ensures '/' !in Escape(s)
    decreases |s|
  {
    if s == [] {
    } else {
      EscapeHasNoSlash(s[1..]);
    }
  }

  // --------------------------------------------------------------------- tokens

  /** `s.split("/")`. */
  function Split(s: string): (parts: seq<string>)
    ensures parts != []
  {
    if s == [] then [[]]
    else
      var rest := Split(s[1..]);
      if s[0] == '/' then [[]] + rest else [[s[0]] + rest[0]] + rest[1..]
  }

  lemma {:induction false} SplitJoins(a: string, b: string)
    requires '/' !in a
    ensures Split(a + "/" + b) == [a] + Split(b)
    decreases |a|
  {
    var s := a + "/" + b;
    if a == [] {
      assert s[1..] == b;
    } else {
      assert s[0] == a[0] && s[1..] == a[1..] + "/" + b;
      SplitJoins(a[1..], b);
      assert [a[0]] + a[1..] == a;
    }
  }

  lemma {:induction false} SplitWhole(a: string)
    requires '/' !in a
    ensures Split(a) == [a]
    decreases |a|
  {
    if a == [] {
    } else {
      SplitWhole(a[1..]);
      assert [a[0]] + a[1..] == a;
    }
  }

  function UnescapeAll(parts: seq<string>): seq<string> {
    if parts == [] then [] else [Unescape(parts[0])] + UnescapeAll(parts[1..])
  }

  /** `_pointer_tokens`. */
  function Tokens(pointer: string): Option<seq<string>> {
    if pointer == [] || pointer[0] != '/' then None else Some(UnescapeAll(Split(pointer[1..])))
  }

  /** The pointer that leads along a list of raw tokens. */
  function Pointer(path: seq<string>): string {
    if path == [] then [] else "/" + Escape(path[0]) + Pointer(path[1..])
  }

  lemma {:induction false} TokensOne(token: string)
    ensures Tokens("/" + Escape(token)) == Some([token])
  {
    EscapeHasNoSlash(token);
    UnescapeEscape(token);
    hide Escape, Unescape, Split;
    var pointer := "/" + Escape(token);
    assert pointer[1..] == Escape(token);
    SplitWhole(Escape(token));
    UnescapeCons(Escape(token), []);
    assert [Escape(token)] + [] == [Escape(token)];
    assert UnescapeAll([Escape(token)]) == [token];
  }

  lemma {:induction false} UnescapeCons(part: string, parts: seq<string>)
    ensures UnescapeAll([part] + parts) == [Unescape(part)] + UnescapeAll(parts)
  {
    hide Unescape;
    assert ([part] + parts)[1..] == parts;
  }

  lemma {:induction false} TokensCons(token: string, rest: string, path: seq<string>)
    requires Tokens(rest) == Some(path)
    ensures Tokens("/" + Escape(token) + rest) == Some([token] + path)
  {
    EscapeHasNoSlash(token);
    UnescapeEscape(token);
    hide Escape, Unescape, Split, UnescapeAll;
    var pointer := "/" + Escape(token) + rest;
    assert rest == "/" + rest[1..];
    assert pointer[1..] == Escape(token) + "/" + rest[1..];
    SplitJoins(Escape(token), rest[1..]);
    UnescapeCons(Escape(token), Split(rest[1..]));
  }

  /** Reading a printed pointer gives its tokens back. */
  lemma {:induction false} TokensOfPointer(path: seq<string>)
    requires path != []
    ensures Tokens(Pointer(path)) == Some(path)
    decreases |path|
  {
    hide Escape, Tokens;
    if |path| == 1 {
      assert path[1..] == [] && Pointer(path) == "/" + Escape(path[0]) && path == [path[0]];
      TokensOne(path[0]);
    } else {
      TokensOfPointer(path[1..]);
      TokensCons(path[0], Pointer(path[1..]), path[1..]);
      assert [path[0]] + path[1..] == path;
    }
  }

  /** Hence different paths print differently. */
  lemma {:induction false} PointerInjective(p: seq<string>, q: seq<string>)
    requires Pointer(p) == Pointer(q)
    ensures p == q
  {
    hide Escape;
    if p != [] && q != [] {
      TokensOfPointer(p);
      TokensOfPointer(q);
    }
  }

  // ----------------------------------------------------------- spellings of a pointer

  /** Unescaping in one pass. */
  function UnescapeOnce(s: string): string {
    if s == [] then []
    else if s[0] == '~' && |s| > 1 && s[1] == '1' then "/" + UnescapeOnce(s[2..])
    else if s[0] == '~' && |s| > 1 && s[1] == '0' then "~" + UnescapeOnce(s[2..])
    else [s[0]] + UnescapeOnce(s[1..])
  }

  /** Every `~` starts one of the two escapes, as section 3 of RFC 6901 demands. */
  predicate WellEscaped(s: string) {
    if s == [] then true
    else if s[0] == '~' then |s| > 1 && (s[1] == '0' || s[1] == '1') && WellEscaped(s[2..])
    else WellEscaped(s[1..])
  }

  lemma {:induction false} ReplaceHead(s: string)
    requires s != []
    ensures var r := Replace(s, '~', '1', '/'); r != [] && (r[0] == '/' || r[0] == s[0])
  {}

  /** The source's two replacements, in that order, never interfere. */
  lemma {:induction false} TwoReplacementsUnescape(s: string)
    ensures Unescape(s) == UnescapeOnce(s)
    decreases |s|
  {
    if s == [] {
    } else if s[0] == '~' && |s| > 1 && s[1] == '1' {
      var rest := s[2..];
      TwoReplacementsUnescape(rest);
      hide Replace, UnescapeOnce;
      OnceUnfolds(s);
      assert s == ['~', '1'] + rest;
      ReplaceHits(rest, '~', '1', '/');
      ReplaceSkips('/', Replace(rest, '~', '1', '/'), '~', '0', '~');
    } else if s[0] == '~' && |s| > 1 && s[1] == '0' {
      var rest := s[2..];
      TwoReplacementsUnescape(rest);
      hide Replace, UnescapeOnce;
      OnceUnfolds(s);
      assert s == ['~'] + (['0'] + rest);
      ReplaceSkips('0', rest, '~', '1', '/');
      ReplaceSkips('~', ['0'] + rest, '~', '1', '/');
      var once := Replace(rest, '~', '1', '/');
      assert ['~'] + (['0'] + once) == ['~', '0'] + once;
      ReplaceHits(once, '~', '0', '~');
    } else {
      var rest := s[1..];
      TwoReplacementsUnescape(rest);
      if rest != [] { ReplaceHead(rest); }
      assert rest == [] ==> Replace(rest, '~', '1', '/') == [];
      hide Replace, UnescapeOnce;
      OnceUnfolds(s);
      assert s == [s[0]] + rest;
      ReplaceSkips(s[0], rest, '~', '1', '/');
      ReplaceSkips(s[0], Replace(rest, '~', '1', '/'), '~', '0', '~');
    }
  }

  lemma {:induction false} OnceUnfolds(s: string)
    requires s != []
    ensures UnescapeOnce(s) ==
      if s[0] == '~' && |s| > 1 && s[1] == '1' then "/" + UnescapeOnce(s[2..])
      else if s[0] == '~' && |s| > 1 && s[1] == '0' then "~" + UnescapeOnce(s[2..])
      else [s[0]] + UnescapeOnce(s[1..])
  {}

  lemma {:induction false} EscapeCons(c: char, s: string)
    ensures Escape([c] + s) == EscapeChar(c) + Escape(s)
  {
    assert ([c] + s)[1..] == s;
  }

  /** Escaping what was unescaped gives a token back exactly when it is well escaped. */
  lemma {:induction false} EscapeUnescape(s: string)
    requires '/' !in s
    ensures Escape(Unescape(s)) == s <==> WellEscaped(s)
    decreases |s|
  {
    TwoReplacementsUnescape(s);
    if s == [] {
    } else {
      var escaped := s[0] == '~' && |s| > 1 && (s[1] == '0' || s[1] == '1');
      var rest := if escaped then s[2..] else s[1..];
      EscapeUnescape(rest);
      TwoReplacementsUnescape(rest);
      hide Unescape, Escape;
      var c := if escaped && s[1] == '1' then '/' else s[0];
      assert UnescapeOnce(s) == [c] + UnescapeOnce(rest);
      EscapeCons(c, UnescapeOnce(rest));
      SplitToken(s, rest, Escape(UnescapeOnce(rest)), c, escaped);
    }
  }

  lemma {:induction false} SplitToken(s: string, rest: string, tail: string, c: char, escaped: bool)
    requires s != [] && '/' !in s && (escaped <==> s[0] == '~' && |s| > 1 && (s[1] == '0' || s[1] == '1'))
    requires rest == (if escaped then s[2..] else s[1..]) && c == if escaped && s[1] == '1' then '/' else s[0]
    ensures EscapeChar(c) + tail == s <==> (s[0] == '~' ==> escaped) && tail == rest
  {
    var left := EscapeChar(c);
    if escaped {
      assert s == left + rest;
      assert left + tail == s ==> tail == (left + tail)[2..] == rest;
    } else if s[0] == '~' {
      assert left == "~0" && (left + tail)[1] == '0';
    } else {
      assert s == left + rest;
      assert left + tail == s ==> tail == (left + tail)[1..] == rest;
    }
  }

  function EscapeAll(tokens: seq<string>): seq<string> {
    if tokens == [] then [] else [Escape(tokens[0])] + EscapeAll(tokens[1..])
  }

  /** The parts of a pointer joined again, each after its slash. */
  function Join(parts: seq<string>): string {
    if parts == [] then [] else "/" + parts[0] + Join(parts[1..])
  }

  lemma {:induction false} PointerJoins(tokens: seq<string>)
    ensures Pointer(tokens) == Join(EscapeAll(tokens))
    decreases |tokens|
  {
    hide Escape;
    if tokens == [] {
    } else {
      PointerJoins(tokens[1..]);
      assert EscapeAll(tokens)[1..] == EscapeAll(tokens[1..]);
    }
  }

  lemma {:induction false} JoinSplit(s: string)
    ensures Join(Split(s)) == "/" + s && forall part :: part in Split(s) ==> '/' !in part
    decreases |s|
  {
    if s == [] {
      assert Join([[]]) == "/" + [] + Join([[]][1..]);
    } else {
      JoinSplit(s[1..]);
      var rest := Split(s[1..]);
      assert s == [s[0]] + s[1..];
      if s[0] == '/' {
        assert Split(s)[1..] == rest;
        assert Join(Split(s)) == "/" + [] + Join(rest);
      } else {
        JoinFirst(s[0], s[1..], rest);
      }
    }
  }

  lemma {:induction false} JoinFirst(c: char, s: string, rest: seq<string>)
    requires rest != [] && Join(rest) == "/" + s && c != '/'
    ensures Join([[c] + rest[0]] + rest[1..]) == "/" + ([c] + s)
  {
    var parts := [[c] + rest[0]] + rest[1..];
    assert parts[1..] == rest[1..];
    assert "/" + (rest[0] + Join(rest[1..])) == "/" + rest[0] + Join(rest[1..]);
    assert s == ("/" + (rest[0] + Join(rest[1..])))[1..] == rest[0] + Join(rest[1..]);
    assert "/" + ([c] + rest[0]) + Join(rest[1..]) == "/" + ([c] + (rest[0] + Join(rest[1..])));
  }

  /** Slashless parts can be read off their join. */
  lemma {:induction false} SplitJoin(parts: seq<string>)
    requires parts != [] && forall part :: part in parts ==> '/' !in part
    ensures Join(parts) != [] && Split(Join(parts)[1..]) == parts
    decreases |parts|
  {
    hide Split;
    var first := parts[0];
    if |parts| == 1 {
      assert parts[1..] == [] && Join(parts) == "/" + first + [] && Join(parts)[1..] == first;
      SplitWhole(first);
      assert parts == [first];
    } else {
      var rest := parts[1..];
      SplitJoin(rest);
      assert Join(rest) == "/" + Join(rest)[1..] by { assert Join(rest)[0] == '/'; }
      assert Join(parts)[1..] == first + "/" + Join(rest)[1..];
      SplitJoins(first, Join(rest)[1..]);
      assert parts == [first] + rest;
    }
  }

  lemma {:induction false} WellEscapedJoin(a: string, b: string)
    requires '/' !in a
    ensures WellEscaped(a + "/" + b) <==> WellEscaped(a) && WellEscaped(b)
    decreases |a|
  {
    var s := a + "/" + b;
    if a == [] {
      assert s[1..] == b;
    } else if a[0] == '~' {
      if |a| > 1 && (a[1] == '0' || a[1] == '1') {
        assert s[2..] == a[2..] + "/" + b;
        WellEscapedJoin(a[2..], b);
      } else {
        assert |a| == 1 ==> s[1] == '/';
      }
    } else {
      assert s[1..] == a[1..] + "/" + b;
      WellEscapedJoin(a[1..], b);
    }
  }

  lemma {:induction false} WellEscapedParts(parts: seq<string>)
    requires parts != [] && forall part :: part in parts ==> '/' !in part
    ensures Join(parts) != [] && (WellEscaped(Join(parts)[1..]) <==> forall part :: part in parts ==> WellEscaped(part))
    decreases |parts|
  {
    hide WellEscaped;
    var first := parts[0];
    if |parts| == 1 {
      assert parts[1..] == [] && Join(parts) == "/" + first + [] && Join(parts)[1..] == first;
      assert parts == [first];
    } else {
      var rest := parts[1..];
      WellEscapedParts(rest);
      assert Join(rest) == "/" + Join(rest)[1..] by { assert Join(rest)[0] == '/'; }
      assert Join(parts)[1..] == first + "/" + Join(rest)[1..];
      WellEscapedJoin(first, Join(rest)[1..]);
      assert parts == [first] + rest;
    }
  }

  lemma {:induction false} EscapeAllUnescapeAll(parts: seq<string>)
    requires forall part :: part in parts ==> '/' !in part
    ensures EscapeAll(UnescapeAll(parts)) == parts <==> forall part :: part in parts ==> WellEscaped(part)
    ensures |EscapeAll(UnescapeAll(parts))| == |parts|
    ensures forall part :: part in EscapeAll(UnescapeAll(parts)) ==> '/' !in part
    decreases |parts|
  {
    hide Escape, Unescape, WellEscaped;
    if parts == [] {
    } else {
      var first, rest := parts[0], parts[1..];
      EscapeAllUnescapeAll(rest);
      EscapeUnescape(first);
      EscapeHasNoSlash(Unescape(first));
      var all := UnescapeAll(parts);
      assert all[0] == Unescape(first) && all[1..] == UnescapeAll(rest);
      assert EscapeAll(all) == [Escape(Unescape(first))] + EscapeAll(UnescapeAll(rest));
      assert parts == [first] + rest;
      assert forall part :: part in parts <==> part == first || part in rest;
    }
  }

  /** Printing the tokens of a readable pointer gives the pointer back exactly when it is well
      escaped. */
  lemma {:induction false} PointerOfTokens(pointer: string)
    requires Tokens(pointer).Some?
    ensures Pointer(Tokens(pointer).value) == pointer <==> WellEscaped(pointer[1..])
  {
    hide Split, UnescapeAll, EscapeAll, WellEscaped, Escape, Join, Pointer;
    var body := pointer[1..];
    var parts := Split(body);
    JoinSplit(body);
    assert pointer == "/" + body;
    EscapeAllUnescapeAll(parts);
    PointerJoins(UnescapeAll(parts));
    var printed := EscapeAll(UnescapeAll(parts));
    WellEscapedParts(parts);
    SplitJoin(parts);
    SplitJoin(printed);
  }

  /** A spelling with every `~` that starts no escape turned into one. */
  function Repair(s: string): string {
    if s == [] then []
    else if s[0] == '~' && |s| > 1 && (s[1] == '0' || s[1] == '1') then [s[0], s[1]] + Repair(s[2..])
    else if s[0] == '~' then "~0" + Repair(s[1..])
    else [s[0]] + Repair(s[1..])
  }

  lemma {:induction false} RepairToken(s: string)
    requires '/' !in s
    ensures Repair(s) == Escape(Unescape(s))
    decreases |s|
  {
    TwoReplacementsUnescape(s);
    if s == [] {
    } else {
      var escaped := s[0] == '~' && |s| > 1 && (s[1] == '0' || s[1] == '1');
      var rest := if escaped then s[2..] else s[1..];
      RepairToken(rest);
      TwoReplacementsUnescape(rest);
      hide Unescape, Escape;
      var c := if escaped && s[1] == '1' then '/' else s[0];
      assert UnescapeOnce(s) == [c] + UnescapeOnce(rest);
      EscapeCons(c, UnescapeOnce(rest));
    }
  }

  lemma {:induction false} RepairJoin(a: string, b: string)
    requires '/' !in a
    ensures Repair(a + "/" + b) == Repair(a) + "/" + Repair(b)
    decreases |a|
  {
    var s := a + "/" + b;
    if a == [] {
      assert s[1..] == b;
    } else if a[0] == '~' && |a| > 1 && (a[1] == '0' || a[1] == '1') {
      assert s[2..] == a[2..] + "/" + b;
      RepairJoin(a[2..], b);
    } else {
      assert s[1..] == a[1..] + "/" + b;
      assert |a| == 1 ==> s[1] == '/';
      RepairJoin(a[1..], b);
    }
  }

  lemma {:induction false} RepairParts(parts: seq<string>)
    requires parts != [] && forall part :: part in parts ==> '/' !in part
    ensures Join(parts) != [] && Join(EscapeAll(UnescapeAll(parts))) == "/" + Repair(Join(parts)[1..])
    decreases |parts|
  {
    hide Repair, Escape, Unescape;
    var first, rest := parts[0], parts[1..];
    var all := UnescapeAll(parts);
    assert first in parts;
    RepairToken(first);
    assert all[0] == Unescape(first) && all[1..] == UnescapeAll(rest);
    assert EscapeAll(all)[0] == Repair(first) && EscapeAll(all)[1..] == EscapeAll(UnescapeAll(rest));
    if rest == [] {
      assert Join(parts) == "/" + first + [] && Join(parts)[1..] == first;
      assert Join(EscapeAll(all)) == "/" + Repair(first) + [];
    } else {
      RepairParts(rest);
      var tail := Join(rest)[1..];
      assert Join(rest) == "/" + tail by { assert Join(rest)[0] == '/'; }
      assert Join(parts)[1..] == first + "/" + tail;
      RepairJoin(first, tail);
      assert "/" + Repair(first) + ("/" + Repair(tail)) == "/" + (Repair(first) + "/" + Repair(tail));
    }
  }

  /** The printed form of a location is the repaired form of any spelling of it. */
  lemma {:induction false} RepairPrints(pointer: string)
    requires Tokens(pointer).Some?
    ensures Pointer(Tokens(pointer).value) == "/" + Repair(pointer[1..])
  {
    hide Split, UnescapeAll, EscapeAll, Escape, Join, Pointer, Repair;
    var parts := Split(pointer[1..]);
    JoinSplit(pointer[1..]);
    RepairParts(parts);
    PointerJoins(UnescapeAll(parts));
  }

  /** Two readable pointers name one location exactly when they are repaired to one spelling. */
  lemma {:induction false} SameLocation(p: string, q: string)
    requires Tokens(p).Some? && Tokens(q).Some?
    ensures Tokens(p) == Tokens(q) <==> Repair(p[1..]) == Repair(q[1..])
  {
    hide Split, UnescapeAll, Repair, Pointer;
    RepairPrints(p);
    RepairPrints(q);
    var a, b := "/" + Repair(p[1..]), "/" + Repair(q[1..]);
    assert a[1..] == Repair(p[1..]) && b[1..] == Repair(q[1..]);
    if a == b {
      PointerInjective(Tokens(p).value, Tokens(q).value);
    }
  }

  /** Two spellings of one location: at least one of them breaks the escape rule, and every
      spelling that does has another one that does not. */
  lemma {:induction false} SpellingsOfALocation(p: string, q: string)
    requires Tokens(p).Some?
    ensures Tokens(q) == Tokens(p) && WellEscaped(p[1..]) && WellEscaped(q[1..]) ==> p == q
    ensures !WellEscaped(p[1..]) ==>
      var other := Pointer(Tokens(p).value); other != p && Tokens(other) == Tokens(p) && WellEscaped(other[1..])
  {
    hide WellEscaped, Pointer, Split, UnescapeAll;
    PointerOfTokens(p);
    TokensNonEmpty(p);
    var other := Pointer(Tokens(p).value);
    TokensOfPointer(Tokens(p).value);
    PointerOfTokens(other);
    if Tokens(q) == Tokens(p) {
      PointerOfTokens(q);
    }
  }

  lemma {:induction false} TokensNonEmpty(p: string)
    requires Tokens(p).Some?
    ensures Tokens(p).value != []
  {}

  // --------------------------------------------------------------- dereferencing

  predicate IsIndex(token: string) { token != [] && AllDigits(token) }

  /** Position of a key, or the number of members. */
  function FindKey(ms: seq<Member>, key: string): (k: nat)
    ensures k <= |ms| && (k < |ms| ==> ms[k].key == key) && forall i :: 0 <= i < k ==> ms[i].key != key
  {
    if ms == [] then 0
    else if ms[0].key == key then 0
    else
      var k := FindKey(ms[1..], key);
      assert forall j :: 1 <= j < |ms| ==> ms[j] == ms[1..][j - 1];
      k + 1
  }

  /** One step of `_dereference`. */
  function Down(v: Json, token: string): Option<Json> {
    match v
    case Object(ms) => if FindKey(ms, token) < |ms| then Some(ms[FindKey(ms, token)].value) else None
    case Array(items) => if IsIndex(token) && Value(token) < |items| then Some(items[Value(token)]) else None
    case Scalar(_) => None
  }

  function At(v: Json, path: seq<string>): Option<Json> {
    if path == [] then Some(v)
    else
      var next := Down(v, path[0]);
      if next.None? then None else At(next.value, path[1..])
  }

  /** What a pointer denotes in a document. */
  function Deref(document: Json, pointer: string): Option<Json> {
    var tokens := Tokens(pointer);
    if tokens.None? then None else At(document, tokens.value)
  }

  /** `_dereference`: the loop over tokens. */
  method Dereference(document: Json, pointer: string) returns (r: Option<Json>)
    ensures r == Deref(document, pointer)
  {
    hide Down;
    var tokens := Tokens(pointer);
    if tokens.None? {
      return None;
    }
    var value := document;
    var path := tokens.value;
    assert path[0..] == path;
    for i := 0 to |path|
      invariant At(document, path) == At(value, path[i..])
    {
      assert path[i..][0] == path[i] && path[i..][1..] == path[i + 1..];
      var next := Down(value, path[i]);
      if next.None? {
        return None;
      }
      value := next.value;
    }
    return Some(value);
  }

  // -------------------------------------------------------------------- leaves

  function Arity(v: Json): nat {
    match v
    case Scalar(_) => 0
    case Object(ms) => |ms|
    case Array(items) => |items|
  }

  function Child(v: Json, i: int): (c: Json)
    requires 0 <= i < Arity(v)
    ensures c < v
  {
    match v
    case Object(ms) => assert ms[i] < v; ms[i].value
    case Array(items) => items[i]
  }

  /** The raw token that selects a child. */
  function Token(v: Json, i: int): string
    requires 0 <= i < Arity(v)
  {
    match v
    case Object(ms) => ms[i].key
    case Array(_) => Decimal(i)
  }

  /** The segment `_leaf_pointers` prints for a child: an escaped key or a bare index. */
  function Segment(v: Json, i: int): string
    requires 0 <= i < Arity(v)
  {
    match v
    case Object(ms) => Escape(ms[i].key)
    case Array(_) => Decimal(i)
  }

  /** `_leaf_pointers`. */
  function LeafPointers(v: Json, prefix: string): set<string>
    decreases v
  {
    if v.Scalar? then {prefix}
    else set i, p | 0 <= i < Arity(v) && p in LeafPointers(Child(v, i), prefix + "/" + Segment(v, i)) :: p
  }

  /** No object has two members with one key. */
  ghost predicate WellFormed(v: Json)
    decreases v
  {
    && (v.Object? ==> forall i, j :: 0 <= i < j < |v.members| ==> v.members[i].key != v.members[j].key)
    && (forall i :: 0 <= i < Arity(v) ==> WellFormed(Child(v, i)))
  }

  // ------------------------------------------------------- what a pointer leads to

  function Zeros(n: nat): string { seq(n, _ => '0') }

  /** The token selects child `i`: its key, or its index behind any number of zeros. */
  ghost predicate Selects(v: Json, token: string, i: int)
    requires 0 <= i < Arity(v)
  {
    match v
    case Object(ms) => ms[i].key == token
    case Array(_) => Padded(token, i)
  }

  ghost predicate Padded(token: string, i: nat) { exists n :: token == Zeros(n) + Decimal(i) }

  /** The tokens lead, child by child, from `v` to `x`. */
  ghost predicate Leads(v: Json, path: seq<string>, x: Json)
    decreases |path|
  {
    if path == [] then x == v
    else exists i :: 0 <= i < Arity(v) && Selects(v, path[0], i) && Leads(Child(v, i), path[1..], x)
  }

  lemma {:induction false} ZerosAddNothing(n: nat, s: string)
    requires AllDigits(s)
    ensures AllDigits(Zeros(n) + s) && Value(Zeros(n) + s) == Value(s)
    decreases n
  {
    if n == 0 {
      assert Zeros(0) + s == s;
    } else {
      assert Zeros(n) + s == ['0'] + (Zeros(n - 1) + s);
      ZerosAddNothing(n - 1, s);
      LeadingZero(Zeros(n - 1) + s);
    }
  }

  lemma {:induction false} LeadingZero(s: string)
    requires AllDigits(s)
    ensures AllDigits(['0'] + s) && Value(['0'] + s) == Value(s)
  {
    assert AllDigits(['0']) && Value(['0']) == 0 by { assert ['0'][..0] == []; }
    ValueConcat(['0'], s);
  }

  /** An index is read exactly off the numbers padded with zeros. */
  lemma {:induction false} IndexMeans(token: string, i: nat)
    ensures IsIndex(token) && Value(token) == i <==> Padded(token, i)
    decreases |token|
  {
    if IsIndex(token) && Value(token) == i {
      if |token| == 1 || token[0] != '0' {
        DecimalOfValue(token);
        assert token == Zeros(0) + Decimal(i);
      } else {
        assert AllDigits(token[1..]) && token == ['0'] + token[1..];
        LeadingZero(token[1..]);
        IndexMeans(token[1..], i);
        var n: nat :| token[1..] == Zeros(n) + Decimal(i);
        assert token == Zeros(n + 1) + Decimal(i);
      }
    }
    if n: nat :| token == Zeros(n) + Decimal(i) {
      ValueOfDecimal(i);
      ZerosAddNothing(n, Decimal(i));
    }
  }

  lemma {:induction false} DownSelects(v: Json, token: string)
    requires WellFormed(v)
    ensures Down(v, token).None? <==> forall i :: 0 <= i < Arity(v) ==> !Selects(v, token, i)
    ensures forall i :: 0 <= i < Arity(v) && Selects(v, token, i) ==> Down(v, token) == Some(Child(v, i))
  {
    if v.Array? {
      forall i | 0 <= i < Arity(v)
        ensures Selects(v, token, i) <==> IsIndex(token) && Value(token) == i
      {
        IndexMeans(token, i);
      }
      hide Padded;
      if IsIndex(token) && Value(token) < Arity(v) {
        assert Selects(v, token, Value(token));
      }
    }
    if v.Object? && FindKey(v.members, token) < Arity(v) {
      assert Selects(v, token, FindKey(v.members, token));
    }
  }

  /** Following tokens finds exactly what they lead to, in any document without repeated keys. */
  lemma {:induction false} AtLeads(v: Json, path: seq<string>, x: Json)
    requires WellFormed(v)
    ensures At(v, path) == Some(x) <==> Leads(v, path, x)
    decreases |path|
  {
    if path == [] {
    } else {
      DownSelects(v, path[0]);
      hide Down, Selects;
      forall i | 0 <= i < Arity(v) { AtLeads(Child(v, i), path[1..], x); }
    }
  }

  /** The paths to the scalar leaves. */
  function Leaves(v: Json): set<seq<string>>
    decreases v
  {
    if v.Scalar? then {[]}
    else set i, p | 0 <= i < Arity(v) && p in Leaves(Child(v, i)) :: [Token(v, i)] + p
  }

  lemma {:induction false} DigitsNeedNoEscape(s: string)
    requires AllDigits(s)
    ensures Escape(s) == s
    decreases |s|
  {
    if s == [] {
    } else {
      assert s[0] in s;
      DigitsNeedNoEscape(s[1..]);
      assert [s[0]] + s[1..] == s;
    }
  }

  lemma {:induction false} SegmentIsEscapedToken(v: Json, i: int)
    requires 0 <= i < Arity(v)
    ensures Segment(v, i) == Escape(Token(v, i))
  {
    if v.Array? {
      DigitsNeedNoEscape(Decimal(i));
    }
  }

  /** The leaf pointers are exactly the printed leaf paths. */
  lemma {:induction false} PointersOfLeaves(v: Json, prefix: string)
    ensures LeafPointers(v, prefix) == set p | p in Leaves(v) :: prefix + Pointer(p)
    decreases v
  {
    if v.Scalar? {
      assert prefix + Pointer([]) == prefix;
    } else {
      forall i | 0 <= i < Arity(v)
        ensures LeafPointers(Child(v, i), prefix + "/" + Segment(v, i)) ==
          set p | p in Leaves(Child(v, i)) :: prefix + Pointer([Token(v, i)] + p)
      {
        PointersOfLeaves(Child(v, i), prefix + "/" + Segment(v, i));
        SegmentIsEscapedToken(v, i);
        forall p: seq<string>
          ensures prefix + "/" + Segment(v, i) + Pointer(p) == prefix + Pointer([Token(v, i)] + p)
        {
          PointerSteps(prefix, Token(v, i), p);
        }
      }
      LeafUnion(v, prefix);
    }
  }

  lemma {:induction false} PointerSteps(prefix: string, token: string, p: seq<string>)
    ensures prefix + "/" + Escape(token) + Pointer(p) == prefix + Pointer([token] + p)
  {
    hide Escape;
    assert ([token] + p)[1..] == p;
    assert prefix + ("/" + Escape(token) + Pointer(p)) == prefix + "/" + Escape(token) + Pointer(p);
  }

  lemma {:induction false} LeafUnion(v: Json, prefix: string)
    requires !v.Scalar?
    requires forall i :: 0 <= i < Arity(v) ==>
      LeafPointers(Child(v, i), prefix + "/" + Segment(v, i)) ==
        set p | p in Leaves(Child(v, i)) :: prefix + Pointer([Token(v, i)] + p)
    ensures LeafPointers(v, prefix) == set p | p in Leaves(v) :: prefix + Pointer(p)
  {
    hide Pointer, Segment, Token;
    forall x | x in LeafPointers(v, prefix)
      ensures exists p :: p in Leaves(v) && x == prefix + Pointer(p)
    {
      var i :| 0 <= i < Arity(v) && x in LeafPointers(Child(v, i), prefix + "/" + Segment(v, i));
      var p :| p in Leaves(Child(v, i)) && x == prefix + Pointer([Token(v, i)] + p);
      assert [Token(v, i)] + p in Leaves(v);
    }
    forall p | p in Leaves(v)
      ensures prefix + Pointer(p) in LeafPointers(v, prefix)
    {
      var i, q :| 0 <= i < Arity(v) && q in Leaves(Child(v, i)) && p == [Token(v, i)] + q;
      assert prefix + Pointer(p) in LeafPointers(Child(v, i), prefix + "/" + Segment(v, i));
    }
  }

  // ---------------------------------------------------------- one pointer per leaf

  lemma {:induction false} TokensDiffer(v: Json, i: int, j: int)
    requires WellFormed(v) && 0 <= i < Arity(v) && 0 <= j < Arity(v) && Token(v, i) == Token(v, j)
    ensures i == j
  {
    if v.Array? {
      ValueOfDecimal(i);
      ValueOfDecimal(j);
    }
  }

  lemma {:induction false} DownToken(v: Json, i: int)
    requires WellFormed(v) && 0 <= i < Arity(v)
    ensures Down(v, Token(v, i)) == Some(Child(v, i))
  {
    hide FindKey, Decimal, Value;
    if v.Array? {
      ValueOfDecimal(i);
    }
  }

  /** Following a leaf path leads to a scalar. */
  lemma {:induction false} LeafIsScalar(v: Json, p: seq<string>)
    requires WellFormed(v) && p in Leaves(v)
    ensures At(v, p).Some? && At(v, p).value.Scalar?
    decreases v
  {
    hide Down, Token;
    if !v.Scalar? {
      var i, q :| 0 <= i < Arity(v) && q in Leaves(Child(v, i)) && p == [Token(v, i)] + q;
      DownToken(v, i);
      assert p[0] == Token(v, i) && p[1..] == q;
      LeafIsScalar(Child(v, i), q);
    }
  }

  /** The number of scalars below the first `k` children. */
  function CountBelow(v: Json, k: nat): nat
    requires k <= Arity(v)
    decreases v, k
  {
    if k == 0 then 0 else CountBelow(v, k - 1) + ScalarCount(Child(v, k - 1))
  }

  /** The number of scalars in a document. */
  function ScalarCount(v: Json): nat
    decreases v, Arity(v) + 1
  {
    if v.Scalar? then 1 else CountBelow(v, Arity(v))
  }

  function LeavesBelow(v: Json, k: int): set<seq<string>>
    requires 0 <= k <= Arity(v)
  {
    set i, p | 0 <= i < k && p in Leaves(Child(v, i)) :: [Token(v, i)] + p
  }

  /** There are as many leaf paths as scalars. */
  lemma {:induction false} LeafCount(v: Json)
    requires WellFormed(v)
    ensures |Leaves(v)| == ScalarCount(v)
    decreases v, Arity(v) + 1
  {
    if !v.Scalar? {
      LeafCountBelow(v, Arity(v));
      assert Leaves(v) == LeavesBelow(v, Arity(v));
    }
  }

  function Prepend(t: string, paths: set<seq<string>>): set<seq<string>> {
    set p | p in paths :: [t] + p
  }

  lemma {:induction false} PrependCount(t: string, paths: set<seq<string>>)
    ensures |Prepend(t, paths)| == |paths|
  {
    var prepend := (p: seq<string>) => [t] + p;
    forall x, y {:trigger prepend(x), prepend(y)} | x in paths && y in paths && prepend(x) == prepend(y)
      ensures x == y
    {
      assert prepend(x)[1..] == x && prepend(y)[1..] == y;
    }
    ImageCount(paths, prepend);
    assert Prepend(t, paths) == Image(paths, prepend);
  }

  lemma {:induction false} NotPrepended(p: seq<string>, t: string, paths: set<seq<string>>)
    requires p != [] && p[0] != t
    ensures p !in Prepend(t, paths)
  {}

  lemma {:induction false} BelowDisjoint(v: Json, k: nat)
    requires WellFormed(v) && 1 <= k <= Arity(v)
    ensures LeavesBelow(v, k - 1) !! Prepend(Token(v, k - 1), Leaves(Child(v, k - 1)))
  {
    hide Token, WellFormed, Leaves, Prepend;
    var t, paths := Token(v, k - 1), Leaves(Child(v, k - 1));
    forall p | p in LeavesBelow(v, k - 1)
      ensures p !in Prepend(t, paths)
    {
      var i, q :| 0 <= i < k - 1 && q in Leaves(Child(v, i)) && p == [Token(v, i)] + q;
      if Token(v, i) == t {
        TokensDiffer(v, i, k - 1);
      }
      NotPrepended(p, t, paths);
    }
  }

  lemma {:induction false} DisjointCount<T>(a: set<T>, b: set<T>)
    requires a !! b
    ensures |a + b| == |a| + |b|
  {}

  lemma {:induction false} CountUnfolds(v: Json, k: nat)
    requires k <= Arity(v)
    ensures k == 0 ==> CountBelow(v, k) == 0 && LeavesBelow(v, k) == {}
    ensures k > 0 ==> CountBelow(v, k) == CountBelow(v, k - 1) + ScalarCount(Child(v, k - 1))
  {
    hide ScalarCount, Leaves;
  }

  lemma {:induction false} LeafCountBelow(v: Json, k: nat)
    requires WellFormed(v) && k <= Arity(v)
    ensures |LeavesBelow(v, k)| == CountBelow(v, k)
    decreases v, k
  {
    hide LeavesBelow, Leaves, Token, Prepend, ScalarCount, CountBelow;
    CountUnfolds(v, k);
    if k > 0 {
      LeafCountBelow(v, k - 1);
      assert WellFormed(Child(v, k - 1));
      hide WellFormed;
      LeafCount(Child(v, k - 1));
      var before, added := LeavesBelow(v, k - 1), Prepend(Token(v, k - 1), Leaves(Child(v, k - 1)));
      PrependCount(Token(v, k - 1), Leaves(Child(v, k - 1)));
      BelowSplits(v, k);
      BelowDisjoint(v, k);
      DisjointCount(before, added);
    }
  }

  lemma {:induction false} BelowSplits(v: Json, k: nat)
    requires 1 <= k <= Arity(v)
    ensures LeavesBelow(v, k) == LeavesBelow(v, k - 1) + Prepend(Token(v, k - 1), Leaves(Child(v, k - 1)))
  {
    hide Token, Leaves;
    forall p | p in LeavesBelow(v, k)
      ensures p in LeavesBelow(v, k - 1) + Prepend(Token(v, k - 1), Leaves(Child(v, k - 1)))
    {
      var i, q :| 0 <= i < k && q in Leaves(Child(v, i)) && p == [Token(v, i)] + q;
    }
  }

  /** Under any prefix there is exactly one pointer per scalar leaf, each leaf path has its own
      pointer, and following it from the document reads the scalar at that leaf. The one case left
      out is a document that is itself a scalar: its pointer is empty, which the reader refuses. */
  lemma {:induction false} OnePointerPerLeaf(document: Json, at: seq<string>, v: Json)
    requires (at != [] || !v.Scalar?) && At(document, at) == Some(v) && WellFormed(v)
    ensures |LeafPointers(v, Pointer(at))| == ScalarCount(v)
    ensures forall p, q :: p in Leaves(v) && q in Leaves(v) && Pointer(at + p) == Pointer(at + q) ==> p == q
    ensures LeafPointers(v, Pointer(at)) == set p | p in Leaves(v) :: Pointer(at + p)
    ensures forall p :: p in Leaves(v) ==>
      Deref(document, Pointer(at + p)) == At(v, p) && At(v, p).Some? && At(v, p).value.Scalar?
  {
    hide Escape;
    PointersOfLeaves(v, Pointer(at));
    LeafCount(v);
    forall p: seq<string>
      ensures Pointer(at) + Pointer(p) == Pointer(at + p)
    {
      PointerConcat(at, p);
    }
    forall p, q | p in Leaves(v) && q in Leaves(v) && Pointer(at + p) == Pointer(at + q)
      ensures p == q
    {
      PointerInjective(at + p, at + q);
      assert p == (at + p)[|at|..] && q == (at + q)[|at|..];
    }
    hide Leaves, LeafPointers, Deref, At, WellFormed, ScalarCount;
    var address := (p: seq<string>) => Pointer(at + p);
    ImageCount(Leaves(v), address);
    assert LeafPointers(v, Pointer(at)) == Image(Leaves(v), address);
    forall p | p in Leaves(v)
      ensures Deref(document, Pointer(at + p)) == At(v, p) && At(v, p).Some? && At(v, p).value.Scalar?
    {
      FollowsLeaf(document, at, v, p);
    }
  }

  lemma {:induction false} FollowsLeaf(document: Json, at: seq<string>, v: Json, p: seq<string>)
    requires (at != [] || !v.Scalar?) && At(document, at) == Some(v) && WellFormed(v) && p in Leaves(v)
    ensures Deref(document, Pointer(at + p)) == At(v, p) && At(v, p).Some? && At(v, p).value.Scalar?
  {
    hide Leaves, Pointer, Tokens, WellFormed, At;
    LeafPathLength(v, p);
    TokensOfPointer(at + p);
    AtConcat(document, at, p);
    LeafIsScalar(v, p);
  }

  lemma {:induction false} LeafPathLength(v: Json, p: seq<string>)
    requires p in Leaves(v)
    ensures p == [] ==> v.Scalar?
  {}

  lemma {:induction false} PointerConcat(a: seq<string>, b: seq<string>)
    ensures Pointer(a + b) == Pointer(a) + Pointer(b)
    decreases |a|
  {
    hide Escape;
    if a == [] {
      assert a + b == b;
    } else {
      PointerConcat(a[1..], b);
      assert (a + b)[0] == a[0] && (a + b)[1..] == a[1..] + b;
      var head := "/" + Escape(a[0]);
      assert head + (Pointer(a[1..]) + Pointer(b)) == (head + Pointer(a[1..])) + Pointer(b);
    }
  }

  lemma {:induction false} AtConcat(v: Json, a: seq<string>, b: seq<string>)
    ensures At(v, a + b) == if At(v, a).None? then None else At(At(v, a).value, b)
    decreases |a|
  {
    hide Down;
    if a == [] {
      assert a + b == b;
    } else {
      assert (a + b)[0] == a[0] && (a + b)[1..] == a[1..] + b;
      if Down(v, a[0]).Some? {
        AtConcat(Down(v, a[0]).value, a[1..], b);
      }
    }
  }
}
