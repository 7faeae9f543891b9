/** Strings with placeholders: parsed once, printed back, rendered for each use. */
module Template {

  datatype Template = Template(literals: seq<string>, names: seq<string>, isStatic: bool)

  datatype Parse = Parsed(literals: seq<string>, names: seq<string>) | Unterminated | EmptyName

  // ---------------------------------------------------------------------------
  // Searching and trimming
  // ---------------------------------------------------------------------------

  predicate Opens(s: string, i: int) {
    0 <= i && i + 1 < |s| && s[i] == '$' && s[i + 1] == '{'
  }

  predicate Closes(s: string, i: int) {
    0 <= i < |s| && s[i] == '}'
  }

  /** The first opening of a placeholder at or after `i`, or -1. */
  function IndexOpen(s: string, i: nat): (r: int)
    ensures r == -1 || (i <= r && Opens(s, r))
    ensures forall k :: i <= k < (if r == -1 then |s| else r) ==> !Opens(s, k)
    decreases |s| - i
  {
    if i >= |s| then -1 else if Opens(s, i) then i else IndexOpen(s, i + 1)
  }

  /** The first closing brace at or after `i`, or -1. */
  function IndexClose(s: string, i: nat): (r: int)
    ensures r == -1 || (i <= r && Closes(s, r))
    ensures forall k :: i <= k < (if r == -1 then |s| else r) ==> !Closes(s, k)
    decreases |s| - i
  {
    if i >= |s| then -1 else if Closes(s, i) then i else IndexClose(s, i + 1)
  }

  /** White space as Unicode has it. */
  predicate IsSpace(c: char) {
    || '\t' <= c <= '\r' || c == ' ' || c == '\U{0085}' || c == '\U{00A0}' || c == '\U{1680}'
    || '\U{2000}' <= c <= '\U{200A}' || c == '\U{2028}' || c == '\U{2029}' || c == '\U{202F}'
    || c == '\U{205F}' || c == '\U{3000}'
  }

  predicate Trimmed(s: string) {
    s == [] || (!IsSpace(s[0]) && !IsSpace(s[|s| - 1]))
  }

  function TrimSpace(s: string): (r: string)
    ensures |r| <= |s| && (|r| == |s| ==> r == s) && Trimmed(r)
    ensures Trimmed(s) ==> r == s
    ensures forall c :: c in r ==> c in s
    decreases |s|
  {
    if s == [] then s
    else if IsSpace(s[0]) then TrimSpace(s[1..])
    else if IsSpace(s[|s| - 1]) then TrimSpace(s[..|s| - 1])
    else s
  }

  // ---------------------------------------------------------------------------
  // Parsing
  // ---------------------------------------------------------------------------

  /** A text cut at its first placeholder. */
  datatype Cut = NoPlaceholder | Unclosed | Cut(literal: string, raw: string, tail: string)

  function CutAt(s: string): (r: Cut)
    ensures r.Cut? ==> s == r.literal + "${" + r.raw + "}" + r.tail && |r.tail| < |s|
  {
    var open := IndexOpen(s, 0);
    if open < 0 then NoPlaceholder
    else
      var end := IndexClose(s, open);
      if end < 0 then Unclosed
      else
        assert s[open..open + 2] == ['$', '{'] && s[end..end + 1] == ['}'];
        assert s == s[..open] + s[open..open + 2] + s[open + 2..end] + s[end..end + 1] + s[end + 1..];
        Cut(s[..open], s[open + 2..end], s[end + 1..])
  }

  function ParseRest(rest: string): (r: Parse)
    decreases |rest|
  {
    match CutAt(rest)
    case NoPlaceholder => Parsed([rest], [])
    case Unclosed => Unterminated
    case Cut(literal, raw, tail) =>
      if TrimSpace(raw) == "" then EmptyName else Prepend([literal], [TrimSpace(raw)], ParseRest(tail))
  }

  function Prepend(literals: seq<string>, names: seq<string>, p: Parse): (r: Parse) {
    match p
    case Parsed(ls, ns) => Parsed(literals + ls, names + ns)
    case _ => p
  }

  lemma PrependTwice(a: seq<string>, b: seq<string>, l: string, n: string, p: Parse)
    ensures Prepend(a, b, Prepend([l], [n], p)) == Prepend(a + [l], b + [n], p)
    ensures Prepend([], [], p) == p
  {
    if p.Parsed? {
      assert a + ([l] + p.literals) == a + [l] + p.literals && b + ([n] + p.names) == b + [n] + p.names;
      assert [] + p.literals == p.literals && [] + p.names == p.names;
    }
  }

  /** Scans for placeholders until none is left; what remains shrinks at every step. */
  method ParseTemplate(s: string) returns (r: Parse, t: Template)
    ensures r == ParseRest(s)
    ensures r.Parsed? ==> t == Template(r.literals, r.names, r.names == [])
  {
    if IndexOpen(s, 0) < 0 {
      return Parsed([s], []), Template([s], [], true);
    }
    var literals, names, rest := [], [], s;
    PrependTwice([], [], "", "", ParseRest(s));
    while true
      invariant Prepend(literals, names, ParseRest(rest)) == ParseRest(s)
      invariant names == [] ==> rest == s
      decreases |rest|
    {
      var open := IndexOpen(rest, 0);
      if open < 0 {
        r := Parsed(literals + [rest], names);
        assert names + [] == names;
        break;
      }
      var end := IndexClose(rest, open);
      if end < 0 {
        return Unterminated, Template([], [], true);
      }
      var name := TrimSpace(rest[open + 2..end]);
      if name == "" {
        return EmptyName, Template([], [], true);
      }
      PrependTwice(literals, names, rest[..open], name, ParseRest(rest[end + 1..]));
      literals, names, rest := literals + [rest[..open]], names + [name], rest[end + 1..];
    }
    t := Template(r.literals, r.names, false);
  }

  // ---------------------------------------------------------------------------
  // Printing and rendering
  // ---------------------------------------------------------------------------

  /** Literals and values in turn, starting with a literal; surplus values are left out. */
  function Interleaved(literals: seq<string>, values: seq<string>): (r: string) {
    if literals == [] then ""
    else literals[0] + First(values) + Interleaved(literals[1..], Rest(values))
  }

  function First(values: seq<string>): (r: string) {
    if values == [] then "" else values[0]
  }

  function Rest(values: seq<string>): (r: seq<string>) {
    if values == [] then [] else values[1..]
  }

  function Placeholder(name: string): (r: string) {
    "${" + name + "}"
  }

  function Values(names: seq<string>, get: string -> string): (r: seq<string>) {
    seq(|names|, i requires 0 <= i < |names| => get(names[i]))
  }

  /** What printing shows: every name as a placeholder again. */
  function Shown(literals: seq<string>, names: seq<string>): (r: string) {
    Interleaved(literals, Values(names, Placeholder))
  }

  method String(t: Template) returns (r: string)
    requires t.isStatic ==> |t.literals| == 1 && t.names == []
    ensures r == Shown(t.literals, t.names)
  {
    r := Render(t, Placeholder);
  }

  /** What a name stands for is up to `get`; unknown names are an empty string there. */
  method Render(t: Template, get: string -> string) returns (r: string)
    requires t.isStatic ==> |t.literals| == 1 && t.names == []
    ensures r == Interleaved(t.literals, Values(t.names, get))
  {
    if t.isStatic {
      OneLiteral(t.literals);
      return t.literals[0];
    }
    r := "";
    ghost var values := Values(t.names, get);
    for i := 0 to |t.literals|
      invariant r + Interleaved(t.literals[i..], After(values, i)) == Interleaved(t.literals, values)
    {
      OneMore(t.literals, values, i, r);
      r := r + t.literals[i];
      if i < |t.names| {
        r := r + get(t.names[i]);
      } else {
        assert r + "" == r;
      }
    }
    assert r + "" == r;
  }

  lemma OneLiteral(literals: seq<string>)
    requires |literals| == 1
    ensures Interleaved(literals, []) == literals[0]
  {
    assert literals[0] + "" == literals[0];
  }

  function After(values: seq<string>, i: nat): (r: seq<string>) {
    if i <= |values| then values[i..] else []
  }

  lemma OneMore(literals: seq<string>, values: seq<string>, i: nat, r: string)
    requires i < |literals|
    ensures r + Interleaved(literals[i..], After(values, i)) ==
      r + literals[i] + (if i < |values| then values[i] else "") + Interleaved(literals[i + 1..], After(values, i + 1))
  {
    assert literals[i..][1..] == literals[i + 1..];
    assert Rest(After(values, i)) == After(values, i + 1);
  }

  // ---------------------------------------------------------------------------
  // Round trips
  // ---------------------------------------------------------------------------

  ghost predicate PlainLiteral(s: string) {
    forall i :: 0 <= i < |s| ==> !Opens(s, i)
  }

  ghost predicate PlainName(n: string) {
    n != "" && Trimmed(n) && '}' !in n
  }

  /** What parsing produces: one more literal than names, no literal that opens a placeholder, names that print back. */
  ghost predicate WellFormed(literals: seq<string>, names: seq<string>) {
    && |literals| == |names| + 1
    && (forall i :: 0 <= i < |literals| ==> PlainLiteral(literals[i]))
    && (forall i :: 0 <= i < |names| ==> PlainName(names[i]))
  }

  lemma CutPlain(s: string)
    ensures CutAt(s).NoPlaceholder? ==> PlainLiteral(s)
    ensures CutAt(s).Cut? ==> PlainLiteral(CutAt(s).literal) && '}' !in CutAt(s).raw
  {
    var open := IndexOpen(s, 0);
    if open >= 0 {
      var end := IndexClose(s, open);
      forall i | 0 <= i < open
        ensures !Opens(s[..open], i)
      {
        assert !Opens(s, i);
      }
      if end >= 0 {
        forall i | open + 2 <= i < end
          ensures s[i] != '}'
        {
          assert !Closes(s, i);
        }
      }
    }
  }

  lemma ConsWellFormed(l: string, n: string, literals: seq<string>, names: seq<string>)
    requires PlainLiteral(l) && PlainName(n) && WellFormed(literals, names)
    ensures WellFormed([l] + literals, [n] + names)
  {
  }

  /** Everything parsing produces is well formed. */
  lemma {:induction false} ParsedWellFormed(rest: string)
    ensures ParseRest(rest).Parsed? ==> WellFormed(ParseRest(rest).literals, ParseRest(rest).names)
    decreases |rest|
  {
    CutPlain(rest);
    match CutAt(rest)
    case Cut(literal, raw, tail) =>
      ParsedWellFormed(tail);
      var name, p := TrimSpace(raw), ParseRest(tail);
      if name != "" && p.Parsed? {
        assert PlainName(name);
        ConsWellFormed(literal, name, p.literals, p.names);
      }
    case _ =>
  }

  /** A plain literal followed by a plain name's placeholder is where the text is cut. */
  lemma CutsHere(literal: string, name: string, tail: string)
    requires PlainLiteral(literal) && PlainName(name)
    ensures CutAt(literal + Placeholder(name) + tail) == Cut(literal, name, tail)
  {
    var s := literal + Placeholder(name) + tail;
    var open, end := |literal|, |literal| + 2 + |name|;
    assert Opens(s, open) && Closes(s, end);
    forall i | 0 <= i < open
      ensures !Opens(s, i)
    {
      assert !Opens(literal, i);
    }
    forall i | open <= i < end
      ensures !Closes(s, i)
    {
      assert i >= open + 2 ==> s[i] == name[i - open - 2] && name[i - open - 2] in name;
    }
    assert IndexOpen(s, 0) == open;
    assert IndexClose(s, open) == end;
    assert s[..open] == literal && s[open + 2..end] == name && s[end + 1..] == tail;
  }

  lemma ShownStep(literals: seq<string>, names: seq<string>)
    requires literals != [] && names != []
    ensures Shown(literals, names) == literals[0] + Placeholder(names[0]) + Shown(literals[1..], names[1..])
  {
    assert Values(names, Placeholder)[1..] == Values(names[1..], Placeholder);
  }

  /** Printing a well-formed template and parsing it gives it back. */
  lemma {:induction false} PrintThenParse(literals: seq<string>, names: seq<string>)
    requires WellFormed(literals, names)
    ensures ParseRest(Shown(literals, names)) == Parsed(literals, names)
    decreases |names|
  {
    if names == [] {
      assert literals == [literals[0]] && Values(names, Placeholder) == [];
      OneLiteral(literals);
      PlainStays(literals[0]);
    } else {
      ShownStep(literals, names);
      WellFormedTail(literals, names);
      PrintThenParse(literals[1..], names[1..]);
      ParsesOn(literals[0], names[0], Shown(literals[1..], names[1..]));
    }
  }

  lemma WellFormedTail(literals: seq<string>, names: seq<string>)
    requires WellFormed(literals, names) && names != []
    ensures WellFormed(literals[1..], names[1..]) && PlainLiteral(literals[0]) && PlainName(names[0])
    ensures [literals[0]] + literals[1..] == literals && [names[0]] + names[1..] == names
  {
  }

  lemma ParsesOn(literal: string, name: string, tail: string)
    requires PlainLiteral(literal) && PlainName(name)
    ensures ParseRest(literal + Placeholder(name) + tail) == Prepend([literal], [name], ParseRest(tail))
  {
    CutsHere(literal, name, tail);
  }

  lemma PlainStays(s: string)
    requires PlainLiteral(s)
    ensures ParseRest(s) == Parsed([s], [])
  {
    assert IndexOpen(s, 0) >= 0 ==> Opens(s, IndexOpen(s, 0));
  }

  /** A template survives printing and parsing exactly when it is well formed. */
  lemma RoundTripIff(literals: seq<string>, names: seq<string>)
    ensures ParseRest(Shown(literals, names)) == Parsed(literals, names) <==> WellFormed(literals, names)
  {
    ParsedWellFormed(Shown(literals, names));
    if WellFormed(literals, names) {
      PrintThenParse(literals, names);
    }
  }

  /** Whatever was parsed, printing it and parsing again gives the same literals and names. */
  lemma RoundTrip(s: string)
    requires ParseRest(s).Parsed?
    ensures var p := ParseRest(s);
      ParseRest(Shown(p.literals, p.names)) == p && |p.literals| == |p.names| + 1
  {
    ParsedWellFormed(s);
    PrintThenParse(ParseRest(s).literals, ParseRest(s).names);
  }

  /** No placeholder pads its name with white space. */
  ghost predicate Tight(rest: string)
    decreases |rest|
  {
    match CutAt(rest)
    case Cut(_, raw, tail) => Trimmed(raw) && Tight(tail)
    case _ => true
  }

  /** What is printed is the original text exactly when no name was padded; otherwise it is shorter. */
  lemma {:induction false} PrintsOriginalIff(s: string)
    requires ParseRest(s).Parsed?
    ensures var shown := Shown(ParseRest(s).literals, ParseRest(s).names);
      |shown| <= |s| && (shown == s <==> Tight(s)) && (|shown| == |s| ==> shown == s)
    decreases |s|
  {
    match CutAt(s)
    case NoPlaceholder =>
      assert Values([], Placeholder) == [];
      OneLiteral([s]);
    case Cut(literal, raw, tail) =>
      PrintsOriginalIff(tail);
      var name, p, q := TrimSpace(raw), ParseRest(s), ParseRest(tail);
      assert p.literals[1..] == q.literals && p.names[1..] == q.names;
      ShownStep(p.literals, p.names);
      SameParts(literal, name, Shown(q.literals, q.names), raw, tail);
    case Unclosed =>
  }

  /** With the same front and no part longer than its counterpart, two texts are equal only part by part. */
  lemma SameParts(a: string, x: string, u: string, y: string, v: string)
    requires |x| <= |y| && |u| <= |v|
    requires (|x| == |y| ==> x == y) && (|u| == |v| ==> u == v)
    ensures var left, right := a + Placeholder(x) + u, a + "${" + y + "}" + v;
      |left| <= |right| && (left == right <==> x == y && u == v) && (|left| == |right| ==> left == right)
  {
    if x == y && u == v {
      assert a + Placeholder(x) + u == a + "${" + y + "}" + v;
    }
  }
}
