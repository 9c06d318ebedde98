/** Placeholder substitution in job commands: internal/infrastructure/worker/runner.go. */
module Placeholders {
  import opened Basics

  /** strings.ReplaceAll for a non-empty pattern. */
  function ReplaceAll(s: string, pattern: string, value: string): string
    requires pattern != []
  {
    if s == [] then []
    else if HasPrefix(s, pattern) then value + ReplaceAll(s[|pattern|..], pattern, value)
    else [s[0]] + ReplaceAll(s[1..], pattern, value)
  }

  function Placeholder(key: string): string {
    "{{." + key + "}}"
  }

  /** One pass of the loop per key, in the given order. */
  function InOrder(command: string, params: map<string, string>, order: seq<string>): string
    requires forall k :: k in order ==> k in params
  {
    if order == [] then command
    else
      var last := order[|order| - 1];
      ReplaceAll(InOrder(command, params, order[..|order| - 1]), Placeholder(last), params[last])
  }

  /** `order` lists the keys of the map, each once: a possible iteration order. */
  ghost predicate Orders(order: seq<string>, params: map<string, string>) {
    (forall k :: k in order <==> k in params) && forall i, j :: 0 <= i < j < |order| ==> order[i] != order[j]
  }

  /** The loop over the map: Go picks the keys in any order. */
  method SubstituteParams(command: string, params: map<string, string>) returns (r: string)
    ensures exists order :: Orders(order, params) && r == InOrder(command, params, order)
  {
    r := command;
    var left := params.Keys;
    ghost var order: seq<string> := [];
    while left != {}
      invariant left <= params.Keys
      invariant forall k :: k in order <==> k in params && k !in left
      invariant forall i, j :: 0 <= i < j < |order| ==> order[i] != order[j]
      invariant r == InOrder(command, params, order)
    {
      var k :| k in left;
      r := ReplaceAll(r, Placeholder(k), params[k]);
      left := left - {k};
      assert (order + [k])[..|order|] == order;
      order := order + [k];
    }
    assert Orders(order, params);
  }

  // ---- Templates and simultaneous substitution ----

  datatype Piece = Literal(text: string) | Hole(key: string)

  /** All holes that have a value are filled at once; the others stay. */
  function Filled(pieces: seq<Piece>, params: map<string, string>): string {
    if pieces == [] then "" else FilledPiece(pieces[0], params) + Filled(pieces[1..], params)
  }

  function FilledPiece(p: Piece, params: map<string, string>): string {
    if p.Literal? then p.text else if p.key in params then params[p.key] else Placeholder(p.key)
  }

  /** The command text of a template. */
  function Text(pieces: seq<Piece>): string {
    Filled(pieces, map[])
  }

  predicate Braceless(key: string) {
    '{' !in key && '}' !in key
  }

  predicate PlainPieces(pieces: seq<Piece>) {
    forall i :: 0 <= i < |pieces| ==> if pieces[i].Literal? then '{' !in pieces[i].text else Braceless(pieces[i].key)
  }

  lemma {:induction false} SkipsPlain(text: string, rest: string, key: string, value: string)
    requires '{' !in text
    ensures ReplaceAll(text + rest, Placeholder(key), value) == text + ReplaceAll(rest, Placeholder(key), value)
  {
    if text == [] {
      assert text + rest == rest;
    } else {
      SkipsPlain(text[1..], rest, key, value);
      assert (text + rest)[1..] == text[1..] + rest;
      assert Placeholder(key)[0] == '{' && (text + rest)[0] == text[0];
    }
  }

  lemma ReplacesOwn(rest: string, key: string, value: string)
    ensures ReplaceAll(Placeholder(key) + rest, Placeholder(key), value) == value + ReplaceAll(rest, Placeholder(key), value)
  {
    var s := Placeholder(key) + rest;
    assert s[..|Placeholder(key)|] == Placeholder(key) && s[|Placeholder(key)|..] == rest;
  }

  /** A parameter takes the place of its name in "{{.name}}". */
  lemma FillsName(before: string, key: string, after: string, value: string)
    requires '{' !in before && '{' !in after
    ensures InOrder(before + "{{." + key + "}}" + after, map[key := value], [key]) == before + value + after
  {
    var p := Placeholder(key);
    assert before + "{{." + key + "}}" + after == before + (p + after);
    SkipsPlain(before, p + after, key, value);
    ReplacesOwn(after, key, value);
    assert after + "" == after;
    SkipsPlain(after, "", key, value);
    assert [key][..0] == [];
    assert before + (value + after) == before + value + after;
  }

  lemma MatchIsOwn(other: string, rest: string, key: string)
    requires Braceless(key) && Braceless(other) && HasPrefix(Placeholder(other) + rest, Placeholder(key))
    ensures key == other
  {
    var s, p := Placeholder(other) + rest, Placeholder(key);
    assert forall j :: 0 <= j < |p| ==> s[j] == p[j];
    assert forall j :: 3 <= j < |key| + 3 ==> p[j] == key[j - 3] && p[j] != '}';
    assert forall j :: 3 <= j < |other| + 3 ==> s[j] == other[j - 3] && s[j] != '}';
    assert p[|key| + 3] == '}' && s[|other| + 3] == '}' && s[|key| + 3] == p[|key| + 3];
    assert |key| == |other|;
    assert forall i :: 0 <= i < |key| ==> key[i] == p[i + 3] && other[i] == s[i + 3];
  }

  lemma NoMatch(other: string, rest: string, key: string)
    requires Braceless(key) && Braceless(other) && key != other
    ensures !HasPrefix(Placeholder(other) + rest, Placeholder(key))
  {
    if HasPrefix(Placeholder(other) + rest, Placeholder(key)) { MatchIsOwn(other, rest, key); }
  }

  lemma {:induction false} SkipsClean(w: string, rest: string, p: string, value: string)
    requires p != [] && forall i :: 0 <= i < |w| ==> !HasPrefix(w[i..] + rest, p)
    ensures ReplaceAll(w + rest, p, value) == w + ReplaceAll(rest, p, value)
  {
    if w == [] {
      assert w + rest == rest;
    } else {
      assert w[0..] == w && (w + rest)[1..] == w[1..] + rest;
      forall i | 0 <= i < |w[1..]| ensures !HasPrefix(w[1..][i..] + rest, p) {
        assert w[1..][i..] == w[i + 1..];
      }
      SkipsClean(w[1..], rest, p, value);
    }
  }

  lemma PlaceholderTail(key: string, n: nat)
    requires Braceless(key) && 2 <= n <= |Placeholder(key)|
    ensures '{' !in Placeholder(key)[n..]
  {
    var p := Placeholder(key);
    assert forall i :: 3 <= i < |key| + 3 ==> p[i] == key[i - 3];
    assert forall i :: 2 <= i < |p| ==> p[i] == '.' || p[i] == '}' || p[i] in key;
    assert forall i :: 0 <= i < |p[n..]| ==> p[n..][i] == p[n + i];
  }

  lemma NoMatchInside(other: string, rest: string, key: string, i: nat)
    requires Braceless(key) && Braceless(other) && 0 < i < |Placeholder(other)|
    ensures !HasPrefix(Placeholder(other)[i..] + rest, Placeholder(key))
  {
    var t := Placeholder(other)[i..];
    assert (t + rest)[0] == t[0] && Placeholder(key)[0] == '{' == Placeholder(key)[1];
    if i == 1 {
      assert (t + rest)[1] == t[1] == '.';
    } else {
      PlaceholderTail(other, i);
      assert t[0] in t;
    }
  }

  lemma SkipsOther(other: string, rest: string, key: string, value: string)
    requires Braceless(key) && Braceless(other) && key != other
    ensures ReplaceAll(Placeholder(other) + rest, Placeholder(key), value) == Placeholder(other) + ReplaceAll(rest, Placeholder(key), value)
  {
    forall i | 0 <= i < |Placeholder(other)| ensures !HasPrefix(Placeholder(other)[i..] + rest, Placeholder(key)) {
      if i == 0 {
        assert Placeholder(other)[0..] == Placeholder(other);
        NoMatch(other, rest, key);
      } else {
        NoMatchInside(other, rest, key, i);
      }
    }
    SkipsClean(Placeholder(other), rest, Placeholder(key), value);
  }
}
