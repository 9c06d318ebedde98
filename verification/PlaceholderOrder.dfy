/** When the order of the substitution loop can be seen, exactly. */
module PlaceholderOrder {
  import opened Basics
  import opened Placeholders

  function Restricted(params: map<string, string>, order: seq<string>): map<string, string> {
    map k | k in params && k in order :: params[k]
  }

  predicate Distinct(order: seq<string>) {
    forall i, j :: 0 <= i < j < |order| ==> order[i] != order[j]
  }

  /** For every template whose literals contain no opening brace, every iteration
      order over the map gives the simultaneous substitution. */
  ghost predicate OrderFree(params: map<string, string>) {
    forall pieces: seq<Piece>, order: seq<string> | PlainPieces(pieces) && Orders(order, params) ::
      InOrder(Text(pieces), params, order) == Filled(pieces, params)
  }

  // ---- What can be seen in the values ----

  predicate Comparable(s: string, t: string) {
    HasPrefix(s, t) || HasPrefix(t, s)
  }

  /** The placeholder of the key occurs in the value, or the value ends in the
      first two or more characters of it. */
  predicate Opens(value: string, key: string) {
    exists i :: 0 <= i < |value| - 1 && Comparable(value[i..], Placeholder(key))
  }

  /** The value ends in a brace and the next one can go on with the placeholder. */
  predicate OpensInto(value: string, next: string, key: string) {
    value != "" && value[|value| - 1] == '{' && next != "" && Comparable(next, Placeholder(key)[1..])
  }

  predicate Clear(values: map<string, string>, key: string) {
    forall a, c | a in values && c in values :: !Opens(values[a], key) && !OpensInto(values[a], values[c], key)
  }

  /** A check of the parameters: no value of another key opens a placeholder that
      its own pass would change. */
  predicate Separate(params: map<string, string>) {
    forall b | b in params && params[b] != Placeholder(b) :: Clear(params - {b}, b)
  }

  predicate BracelessKeys(params: map<string, string>) {
    forall k | k in params :: Braceless(k)
  }

  // ---- One pass over filled text ----

  lemma PrefixOfConcat(t: string, rest: string, p: string)
    requires HasPrefix(t + rest, p)
    ensures Comparable(t, p) && (|t| <= |p| ==> HasPrefix(rest, p[|t|..]))
  {
    if |t| <= |p| {
      assert p[..|t|] == (t + rest)[..|t|] == t;
      assert rest[..|p| - |t|] == (t + rest)[|t|..|p|];
    } else {
      assert t[..|p|] == (t + rest)[..|p|];
    }
  }

  lemma {:induction false} NothingContinues(pieces: seq<Piece>, done: map<string, string>, key: string)
    requires PlainPieces(pieces)
    requires forall c | c in done && done[c] != "" :: !Comparable(done[c], Placeholder(key)[1..])
    ensures !HasPrefix(Filled(pieces, done), Placeholder(key)[1..])
  {
    if pieces != [] {
      var text, rest, p := FilledPiece(pieces[0], done), Filled(pieces[1..], done), Placeholder(key)[1..];
      assert p[0] == '{' && p[1] == '.';
      if text == "" {
        assert text + rest == rest;
        NothingContinues(pieces[1..], done, key);
      } else if pieces[0].Hole? && pieces[0].key in done {
        if HasPrefix(text + rest, p) { PrefixOfConcat(text, rest, p); }
      } else {
        assert (text + rest)[0] == text[0];
        if pieces[0].Hole? { assert (text + rest)[1] == '{'; }
      }
    }
  }

  lemma NoMatchInValue(value: string, i: nat, pieces: seq<Piece>, done: map<string, string>, key: string)
    requires i < |value| && PlainPieces(pieces) && !Opens(value, key)
    requires forall c | c in done :: !OpensInto(value, done[c], key)
    ensures !HasPrefix(value[i..] + Filled(pieces, done), Placeholder(key))
  {
    var t, rest, p := value[i..], Filled(pieces, done), Placeholder(key);
    if HasPrefix(t + rest, p) {
      PrefixOfConcat(t, rest, p);
      if |t| == 1 {
        assert (t + rest)[0] == p[0] == '{' && value[|value| - 1] == t[0];
        NothingContinues(pieces, done, key);
      }
    }
  }

  /** One pass fills exactly the holes of its key. */
  lemma {:induction false} OnePass(pieces: seq<Piece>, done: map<string, string>, key: string, value: string)
    requires PlainPieces(pieces) && Clear(done, key) && Braceless(key) && key !in done
    ensures ReplaceAll(Filled(pieces, done), Placeholder(key), value) == Filled(pieces, done[key := value])
  {
    if pieces != [] {
      var p, rest := pieces[0], Filled(pieces[1..], done);
      OnePass(pieces[1..], done, key, value);
      if p.Literal? {
        SkipsPlain(p.text, rest, key, value);
      } else if p.key in done {
        var w := done[p.key];
        forall i | 0 <= i < |w| ensures !HasPrefix(w[i..] + rest, Placeholder(key)) {
          NoMatchInValue(w, i, pieces[1..], done, key);
        }
        SkipsClean(w, rest, Placeholder(key), value);
      } else if p.key == key {
        ReplacesOwn(rest, key, value);
      } else {
        SkipsOther(p.key, rest, key, value);
      }
    }
  }

  lemma {:induction false} ReplaceBySame(s: string, p: string)
    requires p != []
    ensures ReplaceAll(s, p, p) == s
  {
    if s != [] {
      if HasPrefix(s, p) { ReplaceBySame(s[|p|..], p); } else { ReplaceBySame(s[1..], p); }
    }
  }

  lemma {:induction false} FilledBySame(pieces: seq<Piece>, done: map<string, string>, key: string)
    requires key !in done
    ensures Filled(pieces, done[key := Placeholder(key)]) == Filled(pieces, done)
  {
    if pieces != [] { FilledBySame(pieces[1..], done, key); }
  }

  lemma RestrictedGrows(params: map<string, string>, order: seq<string>, key: string)
    requires key in params
    ensures Restricted(params, order + [key]) == Restricted(params, order)[key := params[key]]
  {
  }

  predicate KeysOf(order: seq<string>, params: map<string, string>) {
    Distinct(order) && forall k | k in order :: k in params
  }

  lemma DropLast(order: seq<string>, params: map<string, string>)
    requires KeysOf(order, params) && order != []
    ensures var before, last := order[..|order| - 1], order[|order| - 1];
            order == before + [last] && KeysOf(before, params) && last in params && last !in before
  {
    var before, last := order[..|order| - 1], order[|order| - 1];
    assert last in order && forall k :: k in before ==> k in order;
  }

  lemma OneMorePass(pieces: seq<Piece>, params: map<string, string>, before: seq<string>, last: string)
    requires PlainPieces(pieces) && BracelessKeys(params) && Separate(params) && last in params && last !in before
    ensures ReplaceAll(Filled(pieces, Restricted(params, before)), Placeholder(last), params[last]) ==
            Filled(pieces, Restricted(params, before + [last]))
  {
    var done := Restricted(params, before);
    RestrictedGrows(params, before, last);
    if params[last] == Placeholder(last) {
      ReplaceBySame(Filled(pieces, done), Placeholder(last));
      FilledBySame(pieces, done, last);
    } else {
      assert Clear(params - {last}, last);
      assert forall k | k in done :: k in params - {last} && done[k] == (params - {last})[k];
      OnePass(pieces, done, last, params[last]);
    }
  }

  lemma {:induction false} PassesFill(pieces: seq<Piece>, params: map<string, string>, order: seq<string>)
    requires PlainPieces(pieces) && BracelessKeys(params) && Separate(params) && KeysOf(order, params)
    ensures InOrder(Text(pieces), params, order) == Filled(pieces, Restricted(params, order))
  {
    if order == [] {
      assert Restricted(params, order) == map[];
    } else {
      DropLast(order, params);
      PassesFill(pieces, params, order[..|order| - 1]);
      OneMorePass(pieces, params, order[..|order| - 1], order[|order| - 1]);
    }
  }

  // ---- A pass that finds its placeholder in a value changes the text ----

  lemma {:induction false} ReplaceLengths(s: string, p: string, value: string)
    requires p != []
    ensures |value| >= |p| ==> |ReplaceAll(s, p, value)| >= |s|
    ensures |value| <= |p| ==> |ReplaceAll(s, p, value)| <= |s|
  {
    if s != [] {
      if HasPrefix(s, p) { ReplaceLengths(s[|p|..], p, value); } else { ReplaceLengths(s[1..], p, value); }
    }
  }

  lemma {:induction false} ReplaceChanges(s: string, p: string, value: string, i: nat)
    requires p != [] && value != p && i <= |s| && HasPrefix(s[i..], p)
    ensures ReplaceAll(s, p, value) != s
  {
    if HasPrefix(s, p) {
      var r := ReplaceAll(s[|p|..], p, value);
      ReplaceLengths(s[|p|..], p, value);
      if |value| == |p| {
        assert (value + r)[..|p|] == value;
      }
    } else {
      assert s[0..] == s;
      assert s[1..][i - 1..] == s[i..];
      ReplaceChanges(s[1..], p, value, i - 1);
    }
  }

  lemma {:induction false} FilledWithout(pieces: seq<Piece>, done: map<string, string>, key: string, value: string)
    requires Hole(key) !in pieces
    ensures Filled(pieces, done[key := value]) == Filled(pieces, done)
  {
    if pieces != [] { FilledWithout(pieces[1..], done, key, value); }
  }

  lemma {:induction false} OthersLeave(pieces: seq<Piece>, params: map<string, string>, order: seq<string>)
    requires PlainPieces(pieces) && BracelessKeys(params)
    requires forall k | k in order :: k in params && Hole(k) !in pieces
    ensures InOrder(Text(pieces), params, order) == Text(pieces)
  {
    if order != [] {
      var before, last := order[..|order| - 1], order[|order| - 1];
      assert last in order && forall k :: k in before ==> k in order;
      OthersLeave(pieces, params, before);
      OnePass(pieces, map[], last, params[last]);
      FilledWithout(pieces, map[], last, params[last]);
    }
  }

  lemma {:induction false} ListAll(keys: set<string>) returns (order: seq<string>)
    ensures Distinct(order) && forall k :: k in order <==> k in keys
    decreases keys
  {
    order := [];
    if keys != {} {
      var k :| k in keys;
      var rest := ListAll(keys - {k});
      order := rest + [k];
    }
  }

  /** The last pass finds its placeholder in text that was right so far. */
  lemma PassBreaks(pieces: seq<Piece>, params: map<string, string>, order: seq<string>, b: string, i: nat)
    requires PlainPieces(pieces) && Orders(order + [b], params) && params[b] != Placeholder(b)
    requires InOrder(Text(pieces), params, order) == Filled(pieces, params)
    requires i <= |Filled(pieces, params)| && HasPrefix(Filled(pieces, params)[i..], Placeholder(b))
    ensures !OrderFree(params)
  {
    assert (order + [b])[..|order|] == order && (order + [b])[|order|] == b && b in order + [b];
    ReplaceChanges(Filled(pieces, params), Placeholder(b), params[b], i);
    assert InOrder(Text(pieces), params, order + [b]) != Filled(pieces, params);
  }

  /** First the keys the template does not use, then one that it uses. */
  lemma OthersThen(pieces: seq<Piece>, params: map<string, string>, others: seq<string>, a: string)
    requires PlainPieces(pieces) && BracelessKeys(params) && a in params
    requires forall k :: k in others ==> k in params && Hole(k) !in pieces
    ensures InOrder(Text(pieces), params, others + [a]) == Filled(pieces, map[a := params[a]])
  {
    OthersLeave(pieces, params, others);
    assert (others + [a])[..|others|] == others;
    OnePass(pieces, map[], a, params[a]);
  }

  /** What is missing after a text that is comparable with a pattern. */
  function Missing(t: string, p: string): string {
    if |t| <= |p| then p[|t|..] else ""
  }

  lemma Completed(t: string, p: string)
    requires Comparable(t, p)
    ensures HasPrefix(t + Missing(t, p), p)
  {
    if |t| <= |p| {
      assert t == p[..|t|];
      assert t + p[|t|..] == p;
    } else {
      assert (t + "")[..|p|] == t[..|p|];
    }
  }

  lemma FilledOne(a: string, rest: string, done: map<string, string>)
    requires a in done
    ensures Filled([Hole(a), Literal(rest)], done) == done[a] + rest
  {
    assert [Hole(a), Literal(rest)][1..] == [Literal(rest)] && [Literal(rest)][1..] == [];
    assert Filled([Literal(rest)], done) == rest + "";
  }

  lemma FilledTwo(a: string, c: string, rest: string, done: map<string, string>)
    requires a in done && c in done
    ensures Filled([Hole(a), Hole(c), Literal(rest)], done) == done[a] + (done[c] + rest)
  {
    assert [Hole(a), Hole(c), Literal(rest)][1..] == [Hole(c), Literal(rest)];
    FilledOne(c, rest, done);
  }

  /** What is missing of a placeholder after its first n characters has no brace to open. */
  lemma MissingIsPlain(t: string, b: string, n: nat)
    requires Braceless(b) && n < 2 <= n + |t|
    ensures '{' !in Missing(t, Placeholder(b)[n..])
  {
    if n + |t| <= |Placeholder(b)| {
      PlaceholderTail(b, n + |t|);
      assert Placeholder(b)[n..][|t|..] == Placeholder(b)[n + |t|..];
    }
  }

  lemma BraceCompletes(value: string, next: string, b: string, rest: string)
    requires OpensInto(value, next, b) && rest == Missing(next, Placeholder(b)[1..])
    ensures HasPrefix((value + (next + rest))[|value| - 1..], Placeholder(b))
  {
    var p := Placeholder(b);
    Completed(next, p[1..]);
    assert p == "{" + p[1..];
    assert (value + (next + rest))[|value| - 1..] == "{" + (next + rest);
    assert ("{" + (next + rest))[..|p|] == "{" + (next + rest)[..|p| - 1];
  }

  lemma OneHoleTemplate(a: string, rest: string)
    requires Braceless(a) && '{' !in rest
    ensures PlainPieces([Hole(a), Literal(rest)]) && forall k :: Hole(k) in [Hole(a), Literal(rest)] <==> k == a
  {
    assert [Hole(a), Literal(rest)][0] == Hole(a);
  }

  lemma TwoHoleTemplate(a: string, c: string, rest: string)
    requires Braceless(a) && Braceless(c) && '{' !in rest
    ensures PlainPieces([Hole(a), Hole(c), Literal(rest)])
    ensures forall k :: Hole(k) in [Hole(a), Hole(c), Literal(rest)] <==> k == a || k == c
  {
    assert [Hole(a), Hole(c), Literal(rest)][0] == Hole(a) && [Hole(a), Hole(c), Literal(rest)][1] == Hole(c);
  }

  lemma AppendDistinct(order: seq<string>, key: string)
    requires Distinct(order) && key !in order
    ensures Distinct(order + [key]) && forall k :: k in order + [key] <==> k in order || k == key
  {
    var longer := order + [key];
    forall i, j | 0 <= i < j < |longer| ensures longer[i] != longer[j] {
      assert longer[i] == order[i] && longer[i] in order;
    }
  }

  lemma LastTwoListed(params: map<string, string>, others: seq<string>, a: string, b: string)
    requires a in params && b in params && a != b
    requires Distinct(others) && forall k :: k in others <==> k in params.Keys - {a, b}
    ensures Orders(others + [a] + [b], params)
  {
    AppendDistinct(others, a);
    AppendDistinct(others + [a], b);
  }

  lemma SuffixOpens(value: string, rest: string, i: nat, p: string)
    requires i <= |value| && Comparable(value[i..], p) && rest == Missing(value[i..], p)
    ensures HasPrefix((value + rest)[i..], p)
  {
    assert (value + rest)[i..] == value[i..] + rest;
    Completed(value[i..], p);
  }

  lemma ValueOpens(params: map<string, string>, a: string, b: string)
    requires BracelessKeys(params) && a in params && b in params && a != b
    requires params[b] != Placeholder(b) && Opens(params[a], b)
    ensures !OrderFree(params)
  {
    var i :| 0 <= i < |params[a]| - 1 && Comparable(params[a][i..], Placeholder(b));
    var rest := Missing(params[a][i..], Placeholder(b));
    assert Placeholder(b)[0..] == Placeholder(b);
    MissingIsPlain(params[a][i..], b, 0);
    OneHoleTemplate(a, rest);
    var others := ListAll(params.Keys - {a, b});
    OthersThen([Hole(a), Literal(rest)], params, others, a);
    FilledOne(a, rest, map[a := params[a]]);
    FilledOne(a, rest, params);
    SuffixOpens(params[a], rest, i, Placeholder(b));
    LastTwoListed(params, others, a, b);
    PassBreaks([Hole(a), Literal(rest)], params, others + [a], b, i);
  }

  lemma FilledByOne(params: map<string, string>, others: seq<string>, a: string, rest: string)
    requires BracelessKeys(params) && a in params && '{' !in rest && forall k :: k in others ==> k in params && k != a
    ensures PlainPieces([Hole(a), Hole(a), Literal(rest)])
    ensures InOrder(Text([Hole(a), Hole(a), Literal(rest)]), params, others + [a]) == Filled([Hole(a), Hole(a), Literal(rest)], params)
    ensures Filled([Hole(a), Hole(a), Literal(rest)], params) == params[a] + (params[a] + rest)
  {
    TwoHoleTemplate(a, a, rest);
    OthersThen([Hole(a), Hole(a), Literal(rest)], params, others, a);
    FilledTwo(a, a, rest, map[a := params[a]]);
    FilledTwo(a, a, rest, params);
  }

  lemma ValueOpensIntoItself(params: map<string, string>, a: string, b: string)
    requires BracelessKeys(params) && a in params && b in params && a != b
    requires params[b] != Placeholder(b) && OpensInto(params[a], params[a], b)
    ensures !OrderFree(params)
  {
    var rest := Missing(params[a], Placeholder(b)[1..]);
    MissingIsPlain(params[a], b, 1);
    var others := ListAll(params.Keys - {a, b});
    FilledByOne(params, others, a, rest);
    BraceCompletes(params[a], params[a], b, rest);
    LastTwoListed(params, others, a, b);
    PassBreaks([Hole(a), Hole(a), Literal(rest)], params, others + [a], b, |params[a]| - 1);
  }

  /** Two keys in turn, when the second pass does not disturb the first value. */
  lemma TwoPasses(pieces: seq<Piece>, params: map<string, string>, others: seq<string>, a: string, c: string)
    requires PlainPieces(pieces) && BracelessKeys(params) && a in params && c in params && a != c
    requires forall k :: k in others ==> k in params && Hole(k) !in pieces
    requires params[c] == Placeholder(c) || Clear(map[a := params[a]], c)
    ensures InOrder(Text(pieces), params, others + [a] + [c]) == Filled(pieces, map[a := params[a]][c := params[c]])
  {
    OthersThen(pieces, params, others, a);
    assert (others + [a] + [c])[..|others| + 1] == others + [a];
    var done := map[a := params[a]];
    if params[c] == Placeholder(c) {
      ReplaceBySame(Filled(pieces, done), Placeholder(c));
      FilledBySame(pieces, done, c);
    } else {
      OnePass(pieces, done, c, params[c]);
    }
  }

  lemma ValueOpensInto(params: map<string, string>, a: string, c: string, b: string)
    requires BracelessKeys(params) && a in params && b in params && c in params && a != b && c != b && a != c
    requires params[b] != Placeholder(b) && OpensInto(params[a], params[c], b)
    requires params[c] == Placeholder(c) || Clear(map[a := params[a]], c)
    ensures !OrderFree(params)
  {
    var rest := Missing(params[c], Placeholder(b)[1..]);
    var pieces := [Hole(a), Hole(c), Literal(rest)];
    MissingIsPlain(params[c], b, 1);
    TwoHoleTemplate(a, c, rest);
    var others := ListAll(params.Keys - {a, c, b});
    TwoPasses(pieces, params, others, a, c);
    FilledTwo(a, c, rest, map[a := params[a]][c := params[c]]);
    FilledTwo(a, c, rest, params);
    BraceCompletes(params[a], params[c], b, rest);
    AllListed(params, others, a, c, b);
    PassBreaks(pieces, params, others + [a] + [c], b, |params[a]| - 1);
  }

  lemma AllListed(params: map<string, string>, others: seq<string>, a: string, c: string, b: string)
    requires a in params && b in params && c in params && a != b && c != b && a != c
    requires Distinct(others) && forall k :: k in others <==> k in params.Keys - {a, c, b}
    ensures Orders(others + [a] + [c] + [b], params)
  {
    AppendDistinct(others, a);
    AppendDistinct(others + [a], c);
    AppendDistinct(others + [a] + [c], b);
  }

  // ---- Main results ----

  /** Every iteration order over the whole map gives the simultaneous substitution
      when the values are separate. */
  lemma SeparateIsSimultaneous(pieces: seq<Piece>, params: map<string, string>, order: seq<string>)
    requires PlainPieces(pieces) && BracelessKeys(params) && Separate(params) && Orders(order, params)
    ensures InOrder(Text(pieces), params, order) == Filled(pieces, params)
  {
    PassesFill(pieces, params, order);
    assert Restricted(params, order) == params;
  }

  lemma Offenders(params: map<string, string>) returns (a: string, b: string, c: string)
    requires !Separate(params)
    ensures a in params && b in params && c in params && a != b && c != b && params[b] != Placeholder(b)
    ensures Opens(params[a], b) || OpensInto(params[a], params[c], b)
  {
    b :| b in params && params[b] != Placeholder(b) && !Clear(params - {b}, b);
    a, c :| a in params - {b} && c in params - {b} &&
            (Opens((params - {b})[a], b) || OpensInto((params - {b})[a], (params - {b})[c], b));
  }

  lemma NotSeparate(params: map<string, string>)
    requires BracelessKeys(params) && !Separate(params)
    ensures !OrderFree(params)
  {
    var a, b, c := Offenders(params);
    if Opens(params[a], b) {
      ValueOpens(params, a, b);
    } else if a == c {
      ValueOpensIntoItself(params, a, b);
    } else if params[c] != Placeholder(c) && Opens(params[a], c) {
      ValueOpens(params, a, c);
    } else if params[c] != Placeholder(c) && OpensInto(params[a], params[a], c) {
      ValueOpensIntoItself(params, a, c);
    } else {
      ValueOpensInto(params, a, c, b);
    }
  }

  /** For templates whose literals contain no opening brace, the order of the loop
      over the map cannot be seen if and only if the values are separate. */
  lemma OrderFreeIffSeparate(params: map<string, string>)
    requires BracelessKeys(params)
    ensures OrderFree(params) <==> Separate(params)
  {
    if Separate(params) {
      forall pieces, order | PlainPieces(pieces) && Orders(order, params)
        ensures InOrder(Text(pieces), params, order) == Filled(pieces, params)
      {
        SeparateIsSimultaneous(pieces, params, order);
      }
    } else {
      NotSeparate(params);
    }
  }

  predicate PlainParams(params: map<string, string>) {
    forall k :: k in params ==> Braceless(k) && '{' !in params[k]
  }

  /** In particular when no value contains an opening brace. */
  lemma SequentialIsSimultaneous(pieces: seq<Piece>, params: map<string, string>, order: seq<string>)
    requires PlainPieces(pieces) && PlainParams(params) && Orders(order, params)
    ensures InOrder(Text(pieces), params, order) == Filled(pieces, params)
  {
    forall b, a, c | b in params && a in params && c in params
      ensures !Opens(params[a], b) && !OpensInto(params[a], params[c], b)
    {
      forall i | 0 <= i < |params[a]| - 1 ensures !Comparable(params[a][i..], Placeholder(b)) {
        assert params[a][i..][0] == params[a][i] && Placeholder(b)[0] == '{';
      }
    }
    SeparateIsSimultaneous(pieces, params, order);
  }

  /** A value that is itself another key's placeholder is not separate, and two
      orders of the whole map differ: one expands it, the other leaves it. */
  lemma OrderShows(a: string, b: string, value: string)
    requires Braceless(a) && Braceless(b) && a != b && value != Placeholder(b)
    ensures var params := map[a := Placeholder(b), b := value];
            !Separate(params) && Orders([a, b], params) && Orders([b, a], params) &&
            InOrder(Text([Hole(a)]), params, [a, b]) == value &&
            InOrder(Text([Hole(a)]), params, [b, a]) == Placeholder(b)
  {
    var params := map[a := Placeholder(b), b := value];
    assert Placeholder(b)[0..] == Placeholder(b) && Opens(Placeholder(b), b);
    assert !Clear(params - {b}, b) by { assert a in params - {b}; }
    var text := Text([Hole(a)]);
    OneHole(a);
    assert Placeholder(a) + "" == Placeholder(a) && Placeholder(b) + "" == Placeholder(b);
    ReplacesOwn("", a, Placeholder(b));
    ReplacesOwn("", b, value);
    SkipsOther(a, "", b, value);
    assert [a, b][..1] == [a] && [b, a][..1] == [b] && [a][..0] == [] && [b][..0] == [];
    assert InOrder(text, params, [a]) == Placeholder(b);
    assert InOrder(text, params, [b]) == Placeholder(a);
    assert [a, b][0] == a && [a, b][1] == b && [b, a][0] == b && [b, a][1] == a;
  }

  lemma OneHole(key: string)
    ensures Text([Hole(key)]) == Placeholder(key)
  {
    assert [Hole(key)][1..] == [];
    assert Filled([Hole(key)], map[]) == Placeholder(key) + "";
  }
}
