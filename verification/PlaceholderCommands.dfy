/** The order of the substitution loop on arbitrary command text: it cannot be seen
    for any command exactly when no value touches another key's placeholder. */
module PlaceholderCommands {
  import opened Basics
  import opened Placeholders
  import opened PlaceholderOrder

  ghost predicate Starts(s: string, params: map<string, string>) {
    exists k :: k in params && HasPrefix(s, Placeholder(k))
  }

  /** All placeholders of the command are replaced at once, from left to right. */
  ghost function Simultaneous(s: string, params: map<string, string>): string {
    if s == "" then ""
    else if Starts(s, params) then
      var k :| k in params && HasPrefix(s, Placeholder(k));
      params[k] + Simultaneous(s[|Placeholder(k)|..], params)
    else [s[0]] + Simultaneous(s[1..], params)
  }

  /** For every command, every iteration order gives the simultaneous replacement. */
  ghost predicate AnyCommandFree(params: map<string, string>) {
    forall s: string, order: seq<string> | Orders(order, params) :: InOrder(s, params, order) == Simultaneous(s, params)
  }

  /** Some placement of the value over the pattern agrees where they overlap: the
      value starts before the pattern ends and ends after it starts. */
  predicate Touches(value: string, p: string) {
    (exists i :: 0 <= i < |value| && Comparable(value[i..], p)) || (exists j :: 1 <= j < |p| && Comparable(value, p[j..]))
  }

  /** A check of the parameters: no value touches the placeholder of another key
      whose pass changes something. */
  predicate Apart(params: map<string, string>) {
    forall a, b | a in params && b in params && a != b && params[b] != Placeholder(b) :: !Touches(params[a], Placeholder(b))
  }

  predicate ApartFrom(values: map<string, string>, key: string) {
    forall a | a in values :: !Touches(values[a], Placeholder(key))
  }

  // ---- Reading a command from the left ----

  lemma OneKeyStarts(s: string, k: string, k': string)
    requires Braceless(k) && Braceless(k') && HasPrefix(s, Placeholder(k)) && HasPrefix(s, Placeholder(k'))
    ensures k == k'
  {
    assert s == Placeholder(k) + s[|Placeholder(k)|..];
    MatchIsOwn(k, s[|Placeholder(k)|..], k');
  }

  lemma SimultaneousAt(s: string, params: map<string, string>, k: string)
    requires BracelessKeys(params) && k in params && HasPrefix(s, Placeholder(k))
    ensures Simultaneous(s, params) == params[k] + Simultaneous(s[|Placeholder(k)|..], params)
  {
    forall k' | k' in params && HasPrefix(s, Placeholder(k')) ensures k' == k { OneKeyStarts(s, k, k'); }
    assert Starts(s, params);
  }

  /** No placeholder starts inside the first part. */
  ghost predicate Quiet(w: string, rest: string, params: map<string, string>) {
    forall i :: 0 <= i < |w| ==> !Starts(w[i..] + rest, params)
  }

  lemma QuietTail(w: string, rest: string, params: map<string, string>)
    requires w != "" && Quiet(w, rest, params)
    ensures !Starts(w + rest, params) && Quiet(w[1..], rest, params)
  {
    assert w[0..] == w;
    forall i | 0 <= i < |w[1..]| ensures !Starts(w[1..][i..] + rest, params) { assert w[1..][i..] == w[i + 1..]; }
  }

  lemma LetterStays(c: char, rest: string, params: map<string, string>)
    requires !Starts([c] + rest, params)
    ensures Simultaneous([c] + rest, params) == [c] + Simultaneous(rest, params)
  {
    assert ([c] + rest)[1..] == rest;
  }

  lemma Regroup(w: string, rest: string)
    requires w != ""
    ensures w + rest == [w[0]] + (w[1..] + rest)
  {
  }

  lemma {:induction false} SkipsQuiet(w: string, rest: string, params: map<string, string>)
    requires Quiet(w, rest, params)
    ensures Simultaneous(w + rest, params) == w + Simultaneous(rest, params)
  {
    if w == "" {
      assert w + rest == rest;
    } else {
      QuietTail(w, rest, params);
      SkipsQuiet(w[1..], rest, params);
      Regroup(w, rest);
      LetterStays(w[0], w[1..] + rest, params);
      Regroup(w, Simultaneous(rest, params));
    }
  }

  lemma {:induction false} NothingToReplace(s: string)
    ensures Simultaneous(s, map[]) == s
  {
    if s != "" { NothingToReplace(s[1..]); }
  }

  lemma OtherStays(b: string, rest: string, params: map<string, string>)
    requires BracelessKeys(params) && Braceless(b) && b !in params
    ensures Simultaneous(Placeholder(b) + rest, params) == Placeholder(b) + Simultaneous(rest, params)
  {
    forall i | 0 <= i < |Placeholder(b)| ensures !Starts(Placeholder(b)[i..] + rest, params) {
      forall k | k in params ensures !HasPrefix(Placeholder(b)[i..] + rest, Placeholder(k)) {
        if i == 0 {
          assert Placeholder(b)[0..] == Placeholder(b);
          NoMatch(b, rest, k);
        } else {
          NoMatchInside(b, rest, k, i);
        }
      }
    }
    SkipsQuiet(Placeholder(b), rest, params);
  }

  // ---- One pass ----

  /** An end of the placeholder in the replaced text was there before. */
  lemma {:induction false} EndWasThere(s: string, done: map<string, string>, key: string, j: nat)
    requires BracelessKeys(done) && ApartFrom(done, key) && 1 <= j <= |Placeholder(key)|
    requires HasPrefix(Simultaneous(s, done), Placeholder(key)[j..])
    ensures HasPrefix(s, Placeholder(key)[j..])
  {
    var t := Placeholder(key)[j..];
    if j < |Placeholder(key)| && s != "" {
      if Starts(s, done) {
        var k :| k in done && HasPrefix(s, Placeholder(k));
        SimultaneousAt(s, done, k);
        PrefixOfConcat(done[k], Simultaneous(s[|Placeholder(k)|..], done), t);
        assert Touches(done[k], Placeholder(key));
      } else {
        assert Simultaneous(s, done)[0] == s[0] == t[0];
        assert t[1..] == Placeholder(key)[j + 1..];
        assert Simultaneous(s, done)[1..] == Simultaneous(s[1..], done);
        TailPrefix(Simultaneous(s, done), t);
        EndWasThere(s[1..], done, key, j + 1);
        HeadPrefix(s, t);
      }
    }
  }

  lemma TailPrefix(s: string, t: string)
    requires s != "" && t != "" && HasPrefix(s, t)
    ensures HasPrefix(s[1..], t[1..]) && s[0] == t[0]
  {
    assert s[..|t|][1..] == s[1..][..|t| - 1];
  }

  lemma HeadPrefix(s: string, t: string)
    requires s != "" && t != "" && s[0] == t[0] && HasPrefix(s[1..], t[1..])
    ensures HasPrefix(s, t)
  {
    assert s[..|t|] == [s[0]] + s[1..][..|t| - 1];
    assert t == [t[0]] + t[1..];
  }

  lemma ValueHasNoMatch(value: string, i: nat, rest: string, key: string)
    requires i < |value| && !Touches(value, Placeholder(key))
    ensures !HasPrefix(value[i..] + rest, Placeholder(key))
  {
    if HasPrefix(value[i..] + rest, Placeholder(key)) { PrefixOfConcat(value[i..], rest, Placeholder(key)); }
  }

  lemma PassOverValue(s: string, done: map<string, string>, k: string, key: string, value: string)
    requires BracelessKeys(done) && ApartFrom(done, key) && Braceless(key) && key !in done
    requires k in done && HasPrefix(s, Placeholder(k))
    ensures ReplaceAll(Simultaneous(s, done), Placeholder(key), value) ==
            done[k] + ReplaceAll(Simultaneous(s[|Placeholder(k)|..], done), Placeholder(key), value)
  {
    var rest := Simultaneous(s[|Placeholder(k)|..], done);
    SimultaneousAt(s, done, k);
    forall i | 0 <= i < |done[k]| ensures !HasPrefix(done[k][i..] + rest, Placeholder(key)) {
      ValueHasNoMatch(done[k], i, rest, key);
    }
    SkipsClean(done[k], rest, Placeholder(key), value);
  }

  lemma PassOverLetter(s: string, done: map<string, string>, key: string, value: string)
    requires BracelessKeys(done) && ApartFrom(done, key) && Braceless(key) && key !in done
    requires s != "" && !Starts(s, done) && !HasPrefix(s, Placeholder(key))
    ensures ReplaceAll(Simultaneous(s, done), Placeholder(key), value) ==
            [s[0]] + ReplaceAll(Simultaneous(s[1..], done), Placeholder(key), value)
  {
    var text := Simultaneous(s, done);
    assert text[1..] == Simultaneous(s[1..], done);
    if HasPrefix(text, Placeholder(key)) {
      TailPrefix(text, Placeholder(key));
      EndWasThere(s[1..], done, key, 1);
      HeadPrefix(s, Placeholder(key));
    }
  }

  lemma StartsMore(s: string, done: map<string, string>, key: string, value: string)
    requires !HasPrefix(s, Placeholder(key))
    ensures Starts(s, done[key := value]) <==> Starts(s, done)
  {
    if Starts(s, done) {
      var k :| k in done && HasPrefix(s, Placeholder(k));
      assert k in done[key := value];
    }
  }

  /** One pass replaces exactly the placeholders of its key in the command. */
  lemma {:induction false} PassOverCommand(s: string, done: map<string, string>, key: string, value: string)
    requires BracelessKeys(done) && ApartFrom(done, key) && Braceless(key) && key !in done
    ensures ReplaceAll(Simultaneous(s, done), Placeholder(key), value) == Simultaneous(s, done[key := value])
  {
    if s != "" {
      var p, more := Placeholder(key), done[key := value];
      if HasPrefix(s, p) {
        var rest := s[|p|..];
        PassOverCommand(rest, done, key, value);
        assert s == p + rest;
        OtherStays(key, rest, done);
        ReplacesOwn(Simultaneous(rest, done), key, value);
        SimultaneousAt(s, more, key);
      } else if Starts(s, done) {
        var k :| k in done && HasPrefix(s, Placeholder(k));
        PassOverCommand(s[|Placeholder(k)|..], done, key, value);
        PassOverValue(s, done, k, key, value);
        SimultaneousAt(s, more, k);
      } else {
        PassOverCommand(s[1..], done, key, value);
        PassOverLetter(s, done, key, value);
        StartsMore(s, done, key, value);
      }
    }
  }

  lemma {:induction false} SameIsNoChange(s: string, done: map<string, string>, key: string)
    requires BracelessKeys(done) && Braceless(key) && key !in done
    ensures Simultaneous(s, done[key := Placeholder(key)]) == Simultaneous(s, done)
  {
    if s != "" {
      var p, more := Placeholder(key), done[key := Placeholder(key)];
      if HasPrefix(s, p) {
        SameIsNoChange(s[|p|..], done, key);
        assert s == p + s[|p|..];
        OtherStays(key, s[|p|..], done);
        SimultaneousAt(s, more, key);
      } else if Starts(s, done) {
        var k :| k in done && HasPrefix(s, Placeholder(k));
        SameIsNoChange(s[|Placeholder(k)|..], done, key);
        SimultaneousAt(s, done, k);
        SimultaneousAt(s, more, k);
      } else {
        SameIsNoChange(s[1..], done, key);
        StartsMore(s, done, key, p);
      }
    }
  }

  lemma OneMoreReplaced(s: string, params: map<string, string>, before: seq<string>, last: string)
    requires BracelessKeys(params) && Apart(params) && last in params && last !in before
    ensures ReplaceAll(Simultaneous(s, Restricted(params, before)), Placeholder(last), params[last]) ==
            Simultaneous(s, Restricted(params, before + [last]))
  {
    var done := Restricted(params, before);
    RestrictedGrows(params, before, last);
    if params[last] == Placeholder(last) {
      ReplaceBySame(Simultaneous(s, done), Placeholder(last));
      SameIsNoChange(s, done, last);
    } else {
      PassOverCommand(s, done, last, params[last]);
    }
  }

  lemma {:induction false} PassesReplace(s: string, params: map<string, string>, order: seq<string>)
    requires BracelessKeys(params) && Apart(params) && KeysOf(order, params)
    ensures InOrder(s, params, order) == Simultaneous(s, Restricted(params, order))
  {
    if order == [] {
      assert Restricted(params, order) == map[];
      NothingToReplace(s);
    } else {
      DropLast(order, params);
      PassesReplace(s, params, order[..|order| - 1]);
      OneMoreReplaced(s, params, order[..|order| - 1], order[|order| - 1]);
    }
  }

  // ---- A value that touches a placeholder ----

  /** A command whose only placeholder stands between parts of another one. */
  predicate Framed(pre: string, post: string, b: string, n: nat) {
    |pre| < |Placeholder(b)| && pre == Placeholder(b)[..|pre|] && 1 <= n <= |Placeholder(b)| && post == Placeholder(b)[n..]
  }

  lemma DiffersAt(s: string, p: string, j: nat)
    requires j < |s| && j < |p| && s[j] != p[j]
    ensures !HasPrefix(s, p)
  {
    assert |p| <= |s| ==> s[..|p|][j] == s[j];
  }

  lemma PrefixIsNoPlaceholder(b: string, n: nat, a: string, post: string, k: string, i: nat)
    requires Braceless(a) && Braceless(b) && Braceless(k) && i < n < |Placeholder(b)|
    ensures !HasPrefix(Placeholder(b)[..n][i..] + (Placeholder(a) + post), Placeholder(k))
  {
    var p, q := Placeholder(b), Placeholder(k);
    var s := p[..n][i..] + (Placeholder(a) + post);
    assert s[0] == p[i];
    if i >= 2 {
      PlaceholderTail(b, 2);
      assert p[2..][i - 2] == p[i];
      DiffersAt(s, q, 0);
    } else if n <= 2 {
      assert s[2] == '{' && q[2] == '.';
      DiffersAt(s, q, 2);
    } else if i == 1 {
      assert s[1] == p[2] == '.';
      DiffersAt(s, q, 1);
    } else {
      LongPrefix(b, n, a, post, k);
    }
  }

  lemma LongPrefix(b: string, n: nat, a: string, post: string, k: string)
    requires Braceless(a) && Braceless(b) && Braceless(k) && 3 <= n < |Placeholder(b)|
    ensures !HasPrefix(Placeholder(b)[..n][0..] + (Placeholder(a) + post), Placeholder(k))
  {
    var p, q := Placeholder(b), Placeholder(k);
    var s := p[..n] + (Placeholder(a) + post);
    assert p[..n][0..] == p[..n] && p + "" == p;
    if |q| <= n {
      assert s[..|q|] == p[..|q|];
      if HasPrefix(s, q) { MatchIsOwn(b, "", k); }
    } else {
      PlaceholderTail(k, 2);
      assert q[2..][n - 2] == q[n] && s[n] == '{';
      DiffersAt(s, q, n);
    }
  }

  lemma FramedIsQuiet(pre: string, a: string, post: string, b: string, n: nat, params: map<string, string>)
    requires BracelessKeys(params) && Braceless(a) && Braceless(b) && Framed(pre, post, b, n)
    ensures Simultaneous(pre + (Placeholder(a) + post), params) ==
            pre + ((if a in params then params[a] else Placeholder(a)) + post)
  {
    forall i | 0 <= i < |pre| ensures !Starts(pre[i..] + (Placeholder(a) + post), params) {
      forall k | k in params ensures !HasPrefix(pre[i..] + (Placeholder(a) + post), Placeholder(k)) {
        PrefixIsNoPlaceholder(b, |pre|, a, post, k, i);
      }
    }
    SkipsQuiet(pre, Placeholder(a) + post, params);
    forall i | 0 <= i < |post| ensures !Starts(post[i..] + "", params) {
      forall k | k in params ensures !HasPrefix(post[i..] + "", Placeholder(k)) {
        assert post[i..] == Placeholder(b)[n + i..];
        NoMatchInside(b, "", k, n + i);
      }
    }
    SkipsQuiet(post, "", params);
    assert post + "" == post;
    if a in params {
      assert (Placeholder(a) + post)[..|Placeholder(a)|] == Placeholder(a);
      assert (Placeholder(a) + post)[|Placeholder(a)|..] == post;
      SimultaneousAt(Placeholder(a) + post, params, a);
    } else {
      OtherStays(a, post, params);
    }
  }

  lemma {:induction false} OthersLeaveFramed(pre: string, a: string, post: string, b: string, n: nat, params: map<string, string>,
                                             order: seq<string>)
    requires BracelessKeys(params) && Braceless(a) && Braceless(b) && Framed(pre, post, b, n)
    requires forall k | k in order :: k in params && k != a
    ensures InOrder(pre + (Placeholder(a) + post), params, order) == pre + (Placeholder(a) + post)
  {
    if order != [] {
      var s, before, last := pre + (Placeholder(a) + post), order[..|order| - 1], order[|order| - 1];
      assert last in order && forall k :: k in before ==> k in order;
      OthersLeaveFramed(pre, a, post, b, n, params, before);
      NothingToReplace(s);
      PassOverCommand(s, map[], last, params[last]);
      FramedIsQuiet(pre, a, post, b, n, map[last := params[last]]);
    }
  }

  lemma FramedPass(pre: string, a: string, post: string, b: string, n: nat, params: map<string, string>, others: seq<string>)
    requires BracelessKeys(params) && a in params && Braceless(b) && Framed(pre, post, b, n)
    requires forall k :: k in others ==> k in params && k != a
    ensures InOrder(pre + (Placeholder(a) + post), params, others + [a]) == pre + (params[a] + post)
  {
    var s := pre + (Placeholder(a) + post);
    OthersLeaveFramed(pre, a, post, b, n, params, others);
    assert (others + [a])[..|others|] == others;
    NothingToReplace(s);
    PassOverCommand(s, map[], a, params[a]);
    FramedIsQuiet(pre, a, post, b, n, map[a := params[a]]);
  }

  /** The last pass finds its placeholder in text that was right so far. */
  lemma LastPassBreaks(s: string, params: map<string, string>, order: seq<string>, b: string, i: nat)
    requires Orders(order + [b], params) && params[b] != Placeholder(b)
    requires InOrder(s, params, order) == Simultaneous(s, params)
    requires i <= |Simultaneous(s, params)| && HasPrefix(Simultaneous(s, params)[i..], Placeholder(b))
    ensures !AnyCommandFree(params)
  {
    assert (order + [b])[..|order|] == order && (order + [b])[|order|] == b && b in order + [b];
    ReplaceChanges(Simultaneous(s, params), Placeholder(b), params[b], i);
    assert InOrder(s, params, order + [b]) != Simultaneous(s, params);
  }

  lemma FramedBreaks(pre: string, post: string, n: nat, params: map<string, string>, a: string, b: string, i: nat)
    requires BracelessKeys(params) && a in params && b in params && a != b && params[b] != Placeholder(b)
    requires Framed(pre, post, b, n) && i <= |pre + (params[a] + post)|
    requires HasPrefix((pre + (params[a] + post))[i..], Placeholder(b))
    ensures !AnyCommandFree(params)
  {
    var others := ListAll(params.Keys - {a, b});
    FramedPass(pre, a, post, b, n, params, others);
    FramedIsQuiet(pre, a, post, b, n, params);
    LastTwoListed(params, others, a, b);
    LastPassBreaks(pre + (Placeholder(a) + post), params, others + [a], b, i);
  }

  lemma EndTouchBreaks(params: map<string, string>, a: string, b: string, i: nat)
    requires BracelessKeys(params) && a in params && b in params && a != b && params[b] != Placeholder(b)
    requires i < |params[a]| && Comparable(params[a][i..], Placeholder(b))
    ensures !AnyCommandFree(params)
  {
    var p, w := Placeholder(b), params[a];
    var n := if |w| - i <= |p| then |w| - i else |p|;
    assert p[n..] == Missing(w[i..], p);
    assert "" + (w + p[n..]) == w + p[n..];
    SuffixOpens(w, p[n..], i, p);
    FramedBreaks("", p[n..], n, params, a, b, i);
  }

  lemma InnerTouchBreaks(params: map<string, string>, a: string, b: string, j: nat)
    requires BracelessKeys(params) && a in params && b in params && a != b && params[b] != Placeholder(b)
    requires 1 <= j < |Placeholder(b)| && Comparable(params[a], Placeholder(b)[j..])
    ensures !AnyCommandFree(params)
  {
    var p, w := Placeholder(b), params[a];
    var n := if |w| <= |p| - j then j + |w| else |p|;
    assert p[n..] == Missing(w, p[j..]);
    Completed(w, p[j..]);
    var text := p[..j] + (w + p[n..]);
    assert p == p[..j] + p[j..];
    assert text[0..] == text && text[..|p|] == p[..j] + (w + p[n..])[..|p| - j];
    FramedBreaks(p[..j], p[n..], n, params, a, b, 0);
  }

  lemma TouchBreaks(params: map<string, string>, a: string, b: string)
    requires BracelessKeys(params) && a in params && b in params && a != b
    requires params[b] != Placeholder(b) && Touches(params[a], Placeholder(b))
    ensures !AnyCommandFree(params)
  {
    if i :| 0 <= i < |params[a]| && Comparable(params[a][i..], Placeholder(b)) {
      EndTouchBreaks(params, a, b, i);
    } else {
      var j :| 1 <= j < |Placeholder(b)| && Comparable(params[a], Placeholder(b)[j..]);
      InnerTouchBreaks(params, a, b, j);
    }
  }

  // ---- Main result ----

  /** For arbitrary commands the order of the loop over the map cannot be seen if
      and only if no value touches another key's placeholder. */
  lemma AnyCommandIffApart(params: map<string, string>)
    requires BracelessKeys(params)
    ensures AnyCommandFree(params) <==> Apart(params)
  {
    if Apart(params) {
      forall s, order | Orders(order, params) ensures InOrder(s, params, order) == Simultaneous(s, params) {
        PassesReplace(s, params, order);
        assert Restricted(params, order) == params;
      }
    } else {
      var a, b :| a in params && b in params && a != b && params[b] != Placeholder(b) && Touches(params[a], Placeholder(b));
      TouchBreaks(params, a, b);
    }
  }

  /** On a template whose literals contain no opening brace, filling the holes is
      the simultaneous replacement of its text. */
  lemma {:induction false} FilledIsSimultaneous(pieces: seq<Piece>, params: map<string, string>)
    requires PlainPieces(pieces) && BracelessKeys(params)
    ensures Simultaneous(Text(pieces), params) == Filled(pieces, params)
  {
    if pieces != [] {
      var p, rest := pieces[0], Text(pieces[1..]);
      FilledIsSimultaneous(pieces[1..], params);
      if p.Literal? {
        forall i | 0 <= i < |p.text| ensures !Starts(p.text[i..] + rest, params) {
          assert (p.text[i..] + rest)[0] == p.text[i];
        }
        SkipsQuiet(p.text, rest, params);
      } else if p.key in params {
        assert (Placeholder(p.key) + rest)[..|Placeholder(p.key)|] == Placeholder(p.key);
        assert (Placeholder(p.key) + rest)[|Placeholder(p.key)|..] == rest;
        SimultaneousAt(Placeholder(p.key) + rest, params, p.key);
      } else {
        OtherStays(p.key, rest, params);
      }
    }
  }

  /** So values that are apart are separate. */
  lemma ApartIsSeparate(params: map<string, string>)
    requires BracelessKeys(params) && Apart(params)
    ensures Separate(params)
  {
    AnyCommandIffApart(params);
    forall pieces, order | PlainPieces(pieces) && Orders(order, params)
      ensures InOrder(Text(pieces), params, order) == Filled(pieces, params)
    {
      FilledIsSimultaneous(pieces, params);
    }
    OrderFreeIffSeparate(params);
  }

  lemma MissesFirstBrace(b: string, i: nat, key: string)
    requires Braceless(b) && i < |Placeholder(b)| - 2
    ensures !Comparable(Placeholder(b)[1..][i..], Placeholder(key))
  {
    var t, p := Placeholder(b)[1..][i..], Placeholder(key);
    if i == 0 {
      assert t[1] == '.' && p[1] == '{';
      DiffersAt(t, p, 1);
      DiffersAt(p, t, 1);
    } else {
      PlaceholderTail(b, 2);
      assert t[0] == Placeholder(b)[2..][i - 1];
      DiffersAt(t, p, 0);
      DiffersAt(p, t, 0);
    }
  }

  /** A literal brace can complete a value that is separate: with a placeholder
      without its first brace as value, some command shows the order. */
  lemma LiteralBraceShows(a: string, b: string, value: string)
    requires Braceless(a) && Braceless(b) && a != b && '{' !in value
    ensures var params := map[a := Placeholder(b)[1..], b := value];
            Separate(params) && !Apart(params) && !AnyCommandFree(params)
  {
    var params := map[a := Placeholder(b)[1..], b := value];
    var w := Placeholder(b)[1..];
    assert w[..|w|] == w && Comparable(w, Placeholder(b)[1..]) && Touches(params[a], Placeholder(b));
    assert '{' in Placeholder(b) by { assert Placeholder(b)[0] == '{'; }
    TouchBreaks(params, a, b);
    forall key, i | 0 <= i < |w| - 1 ensures !Comparable(w[i..], Placeholder(key)) { MissesFirstBrace(b, i, key); }
    assert w[|w| - 1] == '}';
    forall key, i | 0 <= i < |value| - 1 ensures !Comparable(value[i..], Placeholder(key)) {
      assert value[i..][0] == value[i] && value[i] in value;
      DiffersAt(value[i..], Placeholder(key), 0);
      DiffersAt(Placeholder(key), value[i..], 0);
    }
    assert value != "" ==> value[|value| - 1] in value;
    forall key | key in params ensures !Opens(w, key) && !Opens(value, key) && !OpensInto(w, w, key) && !OpensInto(value, value, key) {
    }
  }
}
