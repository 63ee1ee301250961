/**
 JSON Pointers (RFC 6901) as jsonschema/compiler.go writes and reads them: `jsonPointer`
 escapes tokens with two replace passes, `schemaLocationTokens` takes the fragment of a
 schema URL apart with two others. Strings are byte strings, one char per byte.
 */
module JsonPointer {
  import opened Wrappers

  /** strings.ReplaceAll: non-overlapping occurrences, from the left. */
  function ReplaceAll(s: string, from: string, to: string): string
    requires from != ""
  {
    if |s| < |from| then s
    else if s[..|from|] == from then to + ReplaceAll(s[|from|..], from, to)
    else [s[0]] + ReplaceAll(s[1..], from, to)
  }

  function Escape(token: string): string {
    ReplaceAll(ReplaceAll(token, "~", "~0"), "/", "~1")
  }

  function Unescape(part: string): string {
    ReplaceAll(ReplaceAll(part, "~1", "/"), "~0", "~")
  }

  function Join(parts: seq<string>): string {
    if parts == [] then "" else if |parts| == 1 then parts[0] else parts[0] + "/" + Join(parts[1..])
  }

  /** strings.Split on the slash: the parts between slashes, at least one. */
  function Split(s: string): (parts: seq<string>)
    ensures parts != []
  {
    if s == "" then [""]
    else if s[0] == '/' then [""] + Split(s[1..])
    else var rest := Split(s[1..]); [[s[0]] + rest[0]] + rest[1..]
  }

  function Map(f: string -> string, ss: seq<string>): (r: seq<string>)
    ensures |r| == |ss| && forall i :: 0 <= i < |ss| ==> r[i] == f(ss[i])
  {
    if ss == [] then [] else [f(ss[0])] + Map(f, ss[1..])
  }

  function Pointer(tokens: seq<string>): string {
    if tokens == [] then "" else "/" + Join(Map(Escape, tokens))
  }

  predicate IsHex(c: char) {
    '0' <= c <= '9' || 'a' <= c <= 'f' || 'A' <= c <= 'F'
  }

  function Hex(c: char): (v: int)
    requires IsHex(c)
    ensures 0 <= v < 16
  {
    if c <= '9' then c as int - '0' as int
    else if c <= 'F' then c as int - 'A' as int + 10
    else c as int - 'a' as int + 10
  }

  /** url.PathUnescape: percent-decoding, or an error. */
  function PathUnescape(s: string): Option<string> {
    if s == "" then Some("")
    else if s[0] != '%' then
      match PathUnescape(s[1..])
      case None => None
      case Some(rest) => Some([s[0]] + rest)
    else if |s| < 3 || !IsHex(s[1]) || !IsHex(s[2]) then None
    else
      match PathUnescape(s[3..])
      case None => None
      case Some(rest) => Some([(Hex(s[1]) * 16 + Hex(s[2])) as char] + rest)
  }

  function Index(s: string, c: char): (i: nat)
    ensures i <= |s|
  {
    if s == "" || s[0] == c then 0 else 1 + Index(s[1..], c)
  }

  function TrimSlash(s: string): string {
    if s != "" && s[0] == '/' then s[1..] else s
  }

  /** The tokens of an unescaped fragment. */
  function FragmentTokens(fragment: string): seq<string> {
    Map(Unescape, Split(TrimSlash(fragment)))
  }

  /** The unescaped fragment; a failed unescape leaves the empty string. */
  function Unescaped(fragment: string): string {
    match PathUnescape(fragment)
    case None => ""
    case Some(s) => s
  }

  function Tokens(url: string): seq<string> {
    var i := Index(url, '#');
    if i == |url| || i + 1 == |url| then [] else FragmentTokens(Unescaped(url[i + 1..]))
  }

  /** jsonPointer. */
  method WritePointer(tokens: seq<string>) returns (s: string)
    ensures s == Pointer(tokens)
  {
    if |tokens| == 0 { return ""; }
    var escaped := [];
    for i := 0 to |tokens|
      invariant |escaped| == i && forall j :: 0 <= j < i ==> escaped[j] == Escape(tokens[j])
    {
      var token := ReplaceAll(tokens[i], "~", "~0");
      escaped := escaped + [ReplaceAll(token, "/", "~1")];
    }
    assert escaped == Map(Escape, tokens);
    return "/" + Join(escaped);
  }

  /** schemaLocationTokens. */
  method ReadTokens(url: string) returns (parts: seq<string>)
    ensures parts == Tokens(url)
  {
    hide Split, ReplaceAll, PathUnescape;
    var i := Index(url, '#');
    if i == |url| || url[i + 1..] == "" { return []; }
    var fragment := PathUnescape(url[i + 1..]);
    ghost var split := Split(TrimSlash(Unescaped(url[i + 1..])));
    parts := Split(TrimSlash(if fragment.None? then "" else fragment.value));
    for k := 0 to |parts|
      invariant |parts| == |split|
      invariant forall j :: 0 <= j < k ==> parts[j] == Unescape(split[j])
      invariant forall j :: k <= j < |parts| ==> parts[j] == split[j]
    {
      var part := ReplaceAll(parts[k], "~1", "/");
      parts := parts[k := ReplaceAll(part, "~0", "~")];
    }
    assert parts == Map(Unescape, split);
  }

  // ----- Two passes are one -----

  /** Escaping character by character. */
  function EscapeOnce(token: string): string {
    if token == "" then ""
    else (if token[0] == '~' then "~0" else if token[0] == '/' then "~1" else [token[0]]) + EscapeOnce(token[1..])
  }

  /** Section 4 of RFC 6901 in one pass from the left. */
  function UnescapeOnce(s: string): string {
    if s == "" then ""
    else if |s| >= 2 && s[0] == '~' && s[1] == '1' then "/" + UnescapeOnce(s[2..])
    else if |s| >= 2 && s[0] == '~' && s[1] == '0' then "~" + UnescapeOnce(s[2..])
    else [s[0]] + UnescapeOnce(s[1..])
  }

  lemma {:induction false} Replace1(c: char, rest: string, from: char, to: string)
    ensures ReplaceAll([c] + rest, [from], to) == (if c == from then to else [c]) + ReplaceAll(rest, [from], to)
  {
    assert ([c] + rest)[..1] == [c] && ([c] + rest)[1..] == rest;
  }

  lemma {:induction false} EscapePasses(token: string)
    ensures Escape(token) == EscapeOnce(token)
  {
    hide ReplaceAll;
    if token == "" {
      assert Escape("") == "" by { EscapeEmpty(); }
    } else {
      var c, t := token[0], token[1..];
      assert token == [c] + t;
      EscapePasses(t);
      var once := ReplaceAll(t, "~", "~0");
      Replace1(c, t, '~', "~0");
      if c == '~' {
        Replace1('0', once, '/', "~1");
        Replace1('~', "0" + once, '/', "~1");
        assert "~0" + once == "~" + ("0" + once);
      } else {
        Replace1(c, once, '/', "~1");
      }
    }
  }

  lemma EscapeEmpty()
    ensures Escape("") == "" && Unescape("") == ""
  {
  }

  /** A replacement of a pair, at a place where it matches and at one where it does not. */
  lemma {:induction false} Replace2(rest: string, a: char, b: char, to: string)
    ensures ReplaceAll([a, b] + rest, [a, b], to) == to + ReplaceAll(rest, [a, b], to)
  {
    assert ([a, b] + rest)[..2] == [a, b] && ([a, b] + rest)[2..] == rest;
  }

  lemma {:induction false} Skip2(c: char, rest: string, a: char, b: char, to: string)
    requires !(c == a && rest != "" && rest[0] == b)
    ensures ReplaceAll([c] + rest, [a, b], to) == [c] + ReplaceAll(rest, [a, b], to)
  {
    var s := [c] + rest;
    assert s[1..] == rest;
    if rest != "" {
      assert s[..2][0] == c && s[..2][1] == rest[0];
    }
  }

  /** The pass for "~1" never puts a "0" in front. */
  lemma {:induction false} NoZero(s: string)
    requires s == "" || s[0] != '0'
    ensures var r := ReplaceAll(s, "~1", "/"); r == "" || r[0] != '0'
  {
  }

  /** What both passes do to one unit at the front: a pair "~1", a pair "~0", or another character. */
  lemma UnescapeSlash(rest: string)
    ensures Unescape("~1" + rest) == "/" + Unescape(rest)
  {
    hide ReplaceAll;
    Replace2(rest, '~', '1', "/");
    Skip2('/', ReplaceAll(rest, "~1", "/"), '~', '0', "~");
  }

  lemma UnescapeTilde(rest: string)
    ensures Unescape("~0" + rest) == "~" + Unescape(rest)
  {
    hide ReplaceAll;
    var later := ReplaceAll(rest, "~1", "/");
    Skip2('0', rest, '~', '1', "/");
    Skip2('~', "0" + rest, '~', '1', "/");
    assert "~" + ("0" + rest) == "~0" + rest && "~" + ("0" + later) == "~0" + later;
    Replace2(later, '~', '0', "~");
  }

  lemma UnescapeOther(c: char, rest: string)
    requires !(c == '~' && rest != "" && (rest[0] == '0' || rest[0] == '1'))
    ensures Unescape([c] + rest) == [c] + Unescape(rest)
  {
    Skip2(c, rest, '~', '1', "/");
    if c == '~' {
      NoZero(rest);
    }
    hide ReplaceAll;
    Skip2(c, ReplaceAll(rest, "~1", "/"), '~', '0', "~");
  }

  /** For every string: the two sequential passes are the one pass. */
  lemma {:induction false} UnescapePasses(s: string)
    ensures Unescape(s) == UnescapeOnce(s)
    decreases |s|
  {
    hide Unescape;
    if s == "" {
      EscapeEmpty();
    } else if |s| >= 2 && s[0] == '~' && s[1] == '1' {
      UnescapeSlash(s[2..]);
      assert s == "~1" + s[2..];
      UnescapePasses(s[2..]);
    } else if |s| >= 2 && s[0] == '~' && s[1] == '0' {
      UnescapeTilde(s[2..]);
      assert s == "~0" + s[2..];
      UnescapePasses(s[2..]);
    } else {
      UnescapeOther(s[0], s[1..]);
      assert s == [s[0]] + s[1..];
      UnescapePasses(s[1..]);
    }
  }

  lemma {:induction false} OncePair(b: char, rest: string)
    requires b == '0' || b == '1'
    ensures UnescapeOnce("~" + [b] + rest) == (if b == '1' then "/" else "~") + UnescapeOnce(rest)
  {
    assert ("~" + [b] + rest)[2..] == rest;
  }

  lemma {:induction false} OnceOther(c: char, rest: string)
    requires c != '~'
    ensures UnescapeOnce([c] + rest) == [c] + UnescapeOnce(rest)
  {
    assert ([c] + rest)[1..] == rest;
  }

  lemma {:induction false} TokenRoundTrip(token: string)
    ensures UnescapeOnce(EscapeOnce(token)) == token
    ensures '/' !in EscapeOnce(token)
  {
    if token == "" {
      assert UnescapeOnce("") == "";
    }
    hide UnescapeOnce;
    if token != "" {
      var c, rest := token[0], EscapeOnce(token[1..]);
      TokenRoundTrip(token[1..]);
      assert token == [c] + token[1..];
      if c == '~' || c == '/' {
        var b := if c == '~' then '0' else '1';
        OncePair(b, rest);
        assert EscapeOnce(token) == "~" + [b] + rest;
      } else {
        OnceOther(c, rest);
      }
    }
  }

  // ----- Joining and splitting -----

  lemma {:induction false} SplitPart(part: string, rest: string)
    requires '/' !in part
    ensures Split(part + "/" + rest) == [part] + Split(rest) && Split(part) == [part]
  {
    if part == "" {
      assert part + "/" + rest == "/" + rest && ("/" + rest)[1..] == rest;
    } else {
      SplitPart(part[1..], rest);
      assert (part + "/" + rest)[1..] == part[1..] + "/" + rest;
      assert ([part[1..]] + Split(rest))[1..] == Split(rest);
      assert [part[0]] + part[1..] == part;
    }
  }

  lemma {:induction false} SplitJoin(parts: seq<string>)
    requires parts != [] && forall i :: 0 <= i < |parts| ==> '/' !in parts[i]
    ensures Split(Join(parts)) == parts
    decreases |parts|
  {
    if |parts| == 1 {
      SplitPart(parts[0], "");
    } else {
      SplitJoin(parts[1..]);
      SplitPart(parts[0], Join(parts[1..]));
    }
  }

  /** Without percent-encoding in the way, the tokens of a pointer are the tokens it was written from. */
  lemma PointerRoundTrip(tokens: seq<string>)
    requires tokens != []
    ensures FragmentTokens(Pointer(tokens)) == tokens
  {
    hide Unescape, Escape, Split, Join, UnescapeOnce, EscapeOnce;
    var escaped := Map(Escape, tokens);
    forall i | 0 <= i < |tokens|
      ensures '/' !in escaped[i] && Unescape(escaped[i]) == tokens[i]
    {
      EscapePasses(tokens[i]);
      TokenRoundTrip(tokens[i]);
      UnescapePasses(escaped[i]);
    }
    SplitJoin(escaped);
    assert TrimSlash(Pointer(tokens)) == Join(escaped);
    assert FragmentTokens(Pointer(tokens)) == Map(Unescape, escaped);
  }

  // ----- Percent signs -----

  /** A weight that escaping, unescaping, joining and splitting leave alone and percent-decoding lowers. */
  function Weight(s: string): nat {
    if s == "" then 0 else CharWeight(s[0]) + Weight(s[1..])
  }

  function CharWeight(c: char): nat {
    if c == '%' then 2 else if c == '~' || c == '/' || c == '0' || c == '1' then 0 else 1
  }

  function Weights(ss: seq<string>): nat {
    if ss == [] then 0 else Weight(ss[0]) + Weights(ss[1..])
  }

  lemma {:induction false} WeightAppend(s: string, t: string)
    ensures Weight(s + t) == Weight(s) + Weight(t)
  {
    if s == "" {
      assert s + t == t;
    } else {
      assert (s + t)[1..] == s[1..] + t;
      WeightAppend(s[1..], t);
    }
  }

  lemma {:induction false} EscapeWeight(token: string)
    ensures Weight(EscapeOnce(token)) == Weight(token)
  {
    if token != "" {
      EscapeWeight(token[1..]);
      var head := if token[0] == '~' then "~0" else if token[0] == '/' then "~1" else [token[0]];
      WeightAppend(head, EscapeOnce(token[1..]));
      assert head[1..] == "" || head[1..] == "0" || head[1..] == "1";
    }
  }

  lemma {:induction false} UnescapeWeight(s: string)
    ensures Weight(UnescapeOnce(s)) == Weight(s)
    decreases |s|
  {
    if s != "" {
      if |s| >= 2 && s[0] == '~' && (s[1] == '1' || s[1] == '0') {
        UnescapeWeight(s[2..]);
        assert s[1..][1..] == s[2..];
        assert UnescapeOnce(s)[1..] == UnescapeOnce(s[2..]);
      } else {
        UnescapeWeight(s[1..]);
        assert UnescapeOnce(s)[1..] == UnescapeOnce(s[1..]);
      }
    }
  }

  lemma {:induction false} JoinWeight(parts: seq<string>)
    ensures Weight(Join(parts)) == Weights(parts)
    decreases |parts|
  {
    if |parts| >= 2 {
      JoinWeight(parts[1..]);
      WeightAppend(parts[0] + "/", Join(parts[1..]));
      WeightAppend(parts[0], "/");
    }
  }

  lemma {:induction false} SplitWeight(s: string)
    ensures Weights(Split(s)) == Weight(s)
  {
    if s != "" {
      SplitWeight(s[1..]);
      var rest := Split(s[1..]);
      if s[0] == '/' {
        assert Split(s)[1..] == rest;
      } else {
        assert Split(s)[1..] == rest[1..];
        assert ([s[0]] + rest[0])[1..] == rest[0];
      }
    }
  }

  lemma {:induction false} MapWeight(f: string -> string, ss: seq<string>)
    requires forall i :: 0 <= i < |ss| ==> Weight(f(ss[i])) == Weight(ss[i])
    ensures Weights(Map(f, ss)) == Weights(ss)
  {
    if ss != [] {
      MapWeight(f, ss[1..]);
    }
  }

  /** Even "%25", which decodes to the percent sign, weighs more than what it stands for. */
  lemma HexWeight(a: char, b: char)
    requires IsHex(a) && IsHex(b)
    ensures CharWeight((Hex(a) * 16 + Hex(b)) as char) < 2 + CharWeight(a) + CharWeight(b)
  {
    if (Hex(a) * 16 + Hex(b)) as char == '%' {
      assert Hex(a) == 2;
    }
  }

  lemma {:induction false} DecodeWeight(s: string)
    ensures var u := PathUnescape(s);
            if '%' in s then u.Some? ==> Weight(u.value) < Weight(s)
            else u == Some(s)
    decreases |s|
  {
    if s != "" {
      if s[0] != '%' {
        DecodeWeight(s[1..]);
        assert s == [s[0]] + s[1..];
        var u := PathUnescape(s[1..]);
        if u.Some? { assert ([s[0]] + u.value)[1..] == u.value; }
      } else if |s| >= 3 && IsHex(s[1]) && IsHex(s[2]) {
        DecodeWeight(s[3..]);
        assert s[1..][1..] == s[2..] && s[2..][1..] == s[3..];
        var u := PathUnescape(s[3..]);
        assert Weight(s[2..]) == CharWeight(s[2]) + Weight(s[3..]);
        assert Weight(s[1..]) == CharWeight(s[1]) + Weight(s[2..]);
        assert Weight(s) == 2 + (CharWeight(s[1]) + (CharWeight(s[2]) + Weight(s[3..])));
        if u.Some? {
          var c := (Hex(s[1]) * 16 + Hex(s[2])) as char;
          HexWeight(s[1], s[2]);
          assert ([c] + u.value)[1..] == u.value;
          assert Weight([c] + u.value) == CharWeight(c) + Weight(u.value);
        }
      }
    }
  }

  lemma {:induction false} EscapedPercent(tokens: seq<string>)
    ensures ('%' in Join(Map(Escape, tokens))) <==> exists i :: 0 <= i < |tokens| && '%' in tokens[i]
    decreases |tokens|
  {
    hide Escape, EscapeOnce;
    if tokens != [] {
      EscapePasses(tokens[0]);
      PercentKept(tokens[0]);
      EscapedPercent(tokens[1..]);
      assert Map(Escape, tokens) == [Escape(tokens[0])] + Map(Escape, tokens[1..]);
      assert Map(Escape, tokens)[1..] == Map(Escape, tokens[1..]);
      assert forall i :: 1 <= i < |tokens| ==> tokens[i] == tokens[1..][i - 1];
    }
  }

  lemma {:induction false} PercentKept(token: string)
    ensures '%' in EscapeOnce(token) <==> '%' in token
  {
    if token != "" {
      PercentKept(token[1..]);
      assert token == [token[0]] + token[1..];
    }
  }

  lemma {:induction false} PointerWeight(tokens: seq<string>)
    ensures Weight(Pointer(tokens)) == Weights(tokens)
  {
    hide Escape, EscapeOnce, Join;
    if tokens != [] {
      forall i | 0 <= i < |tokens|
        ensures Weight(Escape(tokens[i])) == Weight(tokens[i])
      {
        EscapePasses(tokens[i]);
        EscapeWeight(tokens[i]);
      }
      MapWeight(Escape, tokens);
      JoinWeight(Map(Escape, tokens));
      assert ("/" + Join(Map(Escape, tokens)))[1..] == Join(Map(Escape, tokens));
    }
  }

  lemma {:induction false} FragmentWeight(fragment: string)
    ensures Weights(FragmentTokens(fragment)) == Weight(fragment)
  {
    hide Unescape, UnescapeOnce, Split;
    var parts := Split(TrimSlash(fragment));
    forall i | 0 <= i < |parts|
      ensures Weight(Unescape(parts[i])) == Weight(parts[i])
    {
      UnescapePasses(parts[i]);
      UnescapeWeight(parts[i]);
    }
    MapWeight(Unescape, parts);
    SplitWeight(TrimSlash(fragment));
  }

  lemma {:induction false} CutAt(base: string, fragment: string)
    requires '#' !in base
    ensures Index(base + "#" + fragment, '#') == |base|
  {
    if base != "" {
      assert (base + "#" + fragment)[1..] == base[1..] + "#" + fragment;
      CutAt(base[1..], fragment);
    }
  }

  /**
   Reading the fragment that was written, for every list of tokens, empty ones and ones
   with "~", "/", "~0" or "~1" in them included: the tokens come back if and only if none
   of them contains a percent sign, which the reader would take for an encoding.
   */
  lemma RoundTrip(base: string, tokens: seq<string>)
    requires '#' !in base
    ensures Tokens(base + "#" + Pointer(tokens)) == tokens <==> forall i :: 0 <= i < |tokens| ==> '%' !in tokens[i]
  {
    hide PathUnescape, FragmentTokens, Weight, Weights, Join, Escape, Index;
    var p := Pointer(tokens);
    var url := base + "#" + p;
    CutAt(base, p);
    assert url[|base| + 1..] == p;
    if tokens == [] {
      return;
    }
    assert Tokens(url) == FragmentTokens(Unescaped(p));
    assert '%' in p <==> '%' in Join(Map(Escape, tokens));
    EscapedPercent(tokens);
    DecodeWeight(p);
    if '%' in p {
      PointerWeight(tokens);
      FragmentWeight(Unescaped(p));
      assert Weight("") < Weight(p) by { PercentWeighs(p); }
    } else {
      PointerRoundTrip(tokens);
    }
  }

  lemma {:induction false} PercentWeighs(s: string)
    requires '%' in s
    ensures Weight("") < Weight(s)
  {
    if s[0] != '%' {
      PercentWeighs(s[1..]);
    }
  }

  /** A percent sign is lost, or refused, on the way. */
  lemma PercentLost(base: string)
    requires '#' !in base
    ensures Tokens(base + "#" + Pointer(["%41"])) != ["%41"]
  {
    hide Tokens, Pointer;
    assert ["%41"][0][0] == '%';
    RoundTrip(base, ["%41"]);
  }
}
