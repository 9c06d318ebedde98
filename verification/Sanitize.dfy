/** Recursive sanitization of the values that leave the control plane. The secret
    pattern is a parameter: `redact` stands for replacing its matches. */
module Sanitize {
  import opened Basics
  import R = Routing

  const LIMIT := 4096
  const REDACTED := "[REDACTED]"
  /** The 14 bytes of the truncation mark: a three-byte ellipsis and "[truncated]". */
  const MARK: string := [0xE2 as char, 0x80 as char, 0xA6 as char] + "[truncated]"

  /** The dynamic values of the source. The elements of an `ObjList` (a slice of
      maps) are `Obj`s; `Other` is any value of another type, with the text that
      formatting gives it, and passes through unchanged. */
  datatype Value =
    | Str(s: string)
    | Obj(fields: map<string, Value>)
    | ObjList(objects: seq<Value>)
    | List(items: seq<Value>)
    | Other(text: string)

  function Text(redact: string -> string, s: string): string {
    var r := redact(s);
    if |r| > LIMIT then r[..LIMIT] + MARK else r
  }

  function Without(s: string, c: char): string {
    if s == [] then [] else (if s[0] == c then [] else [s[0]]) + Without(s[1..], c)
  }

  predicate OccursAt(s: string, word: string, i: nat) {
    i + |word| <= |s| && s[i..i + |word|] == word
  }

  const SENSITIVE: seq<string> :=
    ["password", "passwd", "secret", "token", "apikey", "privatekey", "authorization", "dsn",
     "connectionstring", "connectionurl"]

  predicate Sensitive(key: string) {
    var name := Lower(Without(Without(key, '_'), '-'));
    exists k, i | 0 <= k < |SENSITIVE| && 0 <= i <= |name| :: OccursAt(name, SENSITIVE[k], i)
  }

  function SanitizeMap(redact: string -> string, m: map<string, Value>): map<string, Value>
    decreases Obj(m), 0
  {
    map key | key in m :: SanitizeValue(redact, key, m[key])
  }

  function SanitizeValue(redact: string -> string, key: string, v: Value): Value
    decreases v, 1
  {
    if Sensitive(key) then Str(REDACTED)
    else
      match v
      case Str(s) => Str(Text(redact, s))
      case Obj(fields) => Obj(SanitizeMap(redact, fields))
      case ObjList(objects) =>
        ObjList(seq(|objects|, i requires 0 <= i < |objects| => SanitizeValue(redact, "", objects[i])))
      case List(items) =>
        List(seq(|items|, i requires 0 <= i < |items| => SanitizeValue(redact, "", items[i])))
      case Other(_) => v
  }

  // ---- Which names are secret ----

  /** The text begins with the word, in letters of any case and with any '_' and '-'
      before and between them. */
  predicate BeginsWith(text: string, word: string) {
    word == "" ||
    (text != "" &&
     (((text[0] == '_' || text[0] == '-') && BeginsWith(text[1..], word)) ||
      (R.Reads(text[0], word[0]) && BeginsWith(text[1..], word[1..]))))
  }

  predicate Mentions(name: string, word: string) {
    exists i :: 0 <= i <= |name| && BeginsWith(name[i..], word)
  }

  /** A name in which one of ten words occurs anywhere. */
  predicate Secret(name: string) {
    Mentions(name, "password") || Mentions(name, "passwd") || Mentions(name, "secret") || Mentions(name, "token") ||
    Mentions(name, "apikey") || Mentions(name, "privatekey") || Mentions(name, "authorization") || Mentions(name, "dsn") ||
    Mentions(name, "connectionstring") || Mentions(name, "connectionurl")
  }

  predicate PlainWord(word: string) {
    word != "" && forall i :: 0 <= i < |word| ==> 'a' <= word[i] <= 'z'
  }

  function Normal(name: string): string {
    Lower(Without(Without(name, '_'), '-'))
  }

  lemma NormalStep(s: string)
    requires s != ""
    ensures Normal(s) == if s[0] == '_' || s[0] == '-' then Normal(s[1..]) else [LowerChar(s[0])] + Normal(s[1..])
  {
    var t, u := Without(s, '_'), Without(s[1..], '_');
    if s[0] == '_' {
      assert t == u;
    } else {
      assert t == [s[0]] + u && t[1..] == u;
      var v := Without(u, '-');
      assert Without(t, '-') == if s[0] == '-' then v else [s[0]] + v;
      assert Lower([s[0]] + v) == [LowerChar(s[0])] + Lower(v);
    }
  }

  lemma {:induction false} BeginsIsPrefix(s: string, word: string)
    requires word == "" || PlainWord(word)
    ensures BeginsWith(s, word) <==> HasPrefix(Normal(s), word)
    decreases |s|
  {
    if s != "" && word != "" {
      NormalStep(s);
      R.ReadsIsLower(s[0], word[0]);
      BeginsIsPrefix(s[1..], word);
      BeginsIsPrefix(s[1..], word[1..]);
      if s[0] != '_' && s[0] != '-' {
        PrefixStep(LowerChar(s[0]), Normal(s[1..]), word);
      }
    }
  }

  lemma PrefixStep(c: char, t: string, word: string)
    requires word != ""
    ensures HasPrefix([c] + t, word) <==> c == word[0] && HasPrefix(t, word[1..])
  {
    assert word == [word[0]] + word[1..];
    if |word| <= |t| + 1 { assert ([c] + t)[..|word|] == [c] + t[..|word| - 1]; }
  }

  predicate Occurs(s: string, word: string) {
    exists i :: 0 <= i <= |s| && OccursAt(s, word, i)
  }

  lemma FirstOccurrence(s: string, word: string)
    ensures OccursAt(s, word, 0) <==> HasPrefix(s, word)
  {
    if |word| <= |s| { assert s[0..0 + |word|] == s[..|word|]; }
  }

  lemma OccursStep(c: char, t: string, word: string)
    ensures Occurs([c] + t, word) <==> HasPrefix([c] + t, word) || Occurs(t, word)
  {
    var s := [c] + t;
    if Occurs(s, word) && !HasPrefix(s, word) {
      var i :| 0 <= i <= |s| && OccursAt(s, word, i);
      FirstOccurrence(s, word);
      if i > 0 {
        assert s[i..i + |word|] == t[i - 1..i - 1 + |word|];
        assert OccursAt(t, word, i - 1);
      }
    }
    if Occurs(t, word) {
      var i :| 0 <= i <= |t| && OccursAt(t, word, i);
      if i + |word| <= |t| { assert s[i + 1..i + 1 + |word|] == t[i..i + |word|]; }
      assert OccursAt(s, word, i + 1);
    }
    if HasPrefix(s, word) { assert OccursAt(s, word, 0); }
  }

  lemma MentionsStep(s: string, word: string)
    requires s != ""
    ensures Mentions(s, word) <==> BeginsWith(s, word) || Mentions(s[1..], word)
  {
    if Mentions(s, word) && !BeginsWith(s, word) {
      var i :| 0 <= i <= |s| && BeginsWith(s[i..], word);
      assert s[0..] == s;
      assert s[i..] == s[1..][i - 1..];
    }
    if Mentions(s[1..], word) {
      var i :| 0 <= i <= |s[1..]| && BeginsWith(s[1..][i..], word);
      assert s[1..][i..] == s[i + 1..];
    }
    if BeginsWith(s, word) { assert s[0..] == s; }
  }

  lemma {:induction false} MentionsIsOccurs(s: string, word: string)
    requires PlainWord(word)
    ensures Mentions(s, word) <==> Occurs(Normal(s), word)
  {
    if s == "" {
      assert Normal(s) == "";
    } else {
      MentionsIsOccurs(s[1..], word);
      MentionsStep(s, word);
      BeginsIsPrefix(s, word);
      BeginsIsPrefix(s[1..], word);
      NormalStep(s);
      if s[0] != '_' && s[0] != '-' {
        OccursStep(LowerChar(s[0]), Normal(s[1..]), word);
      } else if HasPrefix(Normal(s[1..]), word) {
        assert OccursAt(Normal(s[1..]), word, 0);
      }
    }
  }

  lemma WordsArePlain(k: nat)
    requires k < |SENSITIVE|
    ensures PlainWord(SENSITIVE[k])
  {
  }

  /** The sensitive names are exactly the secret ones. */
  lemma SensitiveIsSecret(name: string)
    ensures Sensitive(name) <==> Secret(name)
  {
    forall k | 0 <= k < |SENSITIVE| ensures Mentions(name, SENSITIVE[k]) <==> Occurs(Normal(name), SENSITIVE[k]) {
      WordsArePlain(k);
      MentionsIsOccurs(name, SENSITIVE[k]);
    }
    assert |SENSITIVE| == 10;
    assert Secret(name) <==> exists k :: 0 <= k < |SENSITIVE| && Mentions(name, SENSITIVE[k]) by {
      assert (Mentions(name, SENSITIVE[0]) || Mentions(name, SENSITIVE[1]) || Mentions(name, SENSITIVE[2]) ||
              Mentions(name, SENSITIVE[3]) || Mentions(name, SENSITIVE[4]) || Mentions(name, SENSITIVE[5]) ||
              Mentions(name, SENSITIVE[6]) || Mentions(name, SENSITIVE[7]) || Mentions(name, SENSITIVE[8]) ||
              Mentions(name, SENSITIVE[9])) <==> Secret(name);
    }
  }

  /** In a sanitized map the value under a secret name is masked, and any other value
      is sanitized as it would be inside a list. */
  lemma SecretsMasked(redact: string -> string, m: map<string, Value>, name: string)
    ensures SanitizeMap(redact, m).Keys == m.Keys
    ensures name in m ==> SanitizeMap(redact, m)[name] == if Secret(name) then Str("[REDACTED]") else Plain(redact, m[name])
  {
    SensitiveIsSecret(name);
    EmptyNotSensitive();
  }

  /** A name of small letters that lacks a letter of each word is not secret. */
  lemma Harmless(name: string, missing: string)
    requires PlainWord(name) && |missing| == |SENSITIVE|
    requires forall k :: 0 <= k < |SENSITIVE| ==> missing[k] in SENSITIVE[k] && missing[k] !in name
    ensures !Secret(name) && !Sensitive(name)
  {
    SensitiveIsSecret(name);
    StaysNormal(name);
    forall k, i | 0 <= k < |SENSITIVE| && 0 <= i <= |name| ensures !OccursAt(name, SENSITIVE[k], i) {
      if OccursAt(name, SENSITIVE[k], i) { OccursHas(name, SENSITIVE[k], i); }
    }
  }

  lemma OccursHas(s: string, word: string, i: nat)
    requires OccursAt(s, word, i)
    ensures forall c :: c in word ==> c in s
  {
    forall j | 0 <= j < |word| ensures word[j] in s {
      assert s[i..i + |word|][j] == s[i + j];
    }
  }

  lemma {:induction false} StaysNormal(name: string)
    requires forall i :: 0 <= i < |name| ==> 'a' <= name[i] <= 'z'
    ensures Normal(name) == name
  {
    if name == "" {
      assert Normal(name) == "";
    } else {
      NormalStep(name);
      StaysNormal(name[1..]);
      assert name == [name[0]] + name[1..];
    }
  }

  /** A secret name stays secret inside a longer name. */
  lemma SecretInside(before: string, name: string, after: string, word: string)
    requires Mentions(name, word)
    ensures Mentions(before + name + after, word)
  {
    var i :| 0 <= i <= |name| && BeginsWith(name[i..], word);
    BeginsLonger(name[i..], after, word);
    assert (before + name + after)[|before| + i..] == name[i..] + after;
  }

  lemma {:induction false} BeginsLonger(s: string, after: string, word: string)
    requires BeginsWith(s, word)
    ensures BeginsWith(s + after, word)
    decreases |s|
  {
    if word != "" {
      assert (s + after)[1..] == s[1..] + after;
      if (s[0] == '_' || s[0] == '-') && BeginsWith(s[1..], word) { BeginsLonger(s[1..], after, word); }
      else { BeginsLonger(s[1..], after, word[1..]); }
    }
  }

  // ---- What sanitizing does at every path into a value ----

  datatype Selector = Field(key: string) | Item(i: nat)

  function At(v: Value, path: seq<Selector>): Option<Value> {
    if path == [] then Some(v)
    else
      match path[0]
      case Field(key) => if v.Obj? && key in v.fields then At(v.fields[key], path[1..]) else None
      case Item(i) =>
        if v.ObjList? && i < |v.objects| then At(v.objects[i], path[1..])
        else if v.List? && i < |v.items| then At(v.items[i], path[1..])
        else None
  }

  predicate Hidden(sel: Selector) {
    sel.Field? && Secret(sel.key)
  }

  datatype Fate = Kept | Masked | Lost

  /** A path without sensitive names is kept; one whose first sensitive name comes
      last is masked; what lies below a sensitive name is lost. */
  function PathFate(path: seq<Selector>): Fate {
    if path == [] then Kept
    else if Hidden(path[0]) then (if |path| == 1 then Masked else Lost)
    else PathFate(path[1..])
  }

  /** The value inside a container, where no field name applies. */
  function Plain(redact: string -> string, v: Value): Value {
    SanitizeValue(redact, "", v)
  }

  function Expected(redact: string -> string, v: Value, path: seq<Selector>): Option<Value> {
    match At(v, path)
    case None => None
    case Some(w) =>
      match PathFate(path)
      case Kept => Some(Plain(redact, w))
      case Masked => Some(Str(REDACTED))
      case Lost => None
  }

  lemma EmptyNotSensitive()
    ensures !Sensitive("")
  {
    assert Without(Without("", '_'), '-') == "";
    assert forall k | 0 <= k < |SENSITIVE| :: |SENSITIVE[k]| > 0;
  }

  /** All keys survive, and each entry is sanitized under its own name. */
  lemma Entries(redact: string -> string, m: map<string, Value>)
    ensures SanitizeMap(redact, m).Keys == m.Keys
    ensures forall key | key in m :: SanitizeMap(redact, m)[key] == SanitizeValue(redact, key, m[key])
    ensures forall key | key in m && Sensitive(key) :: SanitizeMap(redact, m)[key] == Str(REDACTED)
  {
  }

  /** Sanitizing keeps every path with plain names and sanitizes what is there,
      replaces exactly the value under the first sensitive name, and leaves
      nothing below it. */
  lemma {:induction false} SanitizedAt(redact: string -> string, v: Value, path: seq<Selector>)
    ensures At(Plain(redact, v), path) == Expected(redact, v, path)
    decreases |path|
  {
    EmptyNotSensitive();
    if path != [] {
      match path[0]
      case Field(key) =>
        SensitiveIsSecret(key);
        if v.Obj? {
          Entries(redact, v.fields);
          assert Plain(redact, v) == Obj(SanitizeMap(redact, v.fields));
          if key in v.fields && Sensitive(key) {
            assert At(Plain(redact, v), path) == At(Str(REDACTED), path[1..]);
            assert At(v, path) == At(v.fields[key], path[1..]);
          } else if key in v.fields {
            assert SanitizeValue(redact, key, v.fields[key]) == Plain(redact, v.fields[key]);
            SanitizedAt(redact, v.fields[key], path[1..]);
          }
        }
      case Item(i) =>
        if v.ObjList? && i < |v.objects| {
          SanitizedAt(redact, v.objects[i], path[1..]);
        } else if v.List? && i < |v.items| {
          SanitizedAt(redact, v.items[i], path[1..]);
        }
    }
  }

  /** A text is redacted; if the result is longer than 4096 bytes it is cut there and
      marked with an ellipsis and "[truncated]". */
  lemma TextCut(redact: string -> string, s: string)
    ensures |redact(s)| <= 4096 ==> Text(redact, s) == redact(s)
    ensures |redact(s)| > 4096 ==> |Text(redact, s)| == 4110 && Text(redact, s)[..4096] == redact(s)[..4096] &&
                                   Text(redact, s)[4099..] == "[truncated]"
  {
    if |redact(s)| > 4096 {
      assert Text(redact, s)[4099..] == MARK[3..];
    }
  }

  /** At a path without secret names a text is redacted and cut, a value of another
      type is as it was, and containers keep their fields and their lengths. */
  lemma LeavesSanitized(redact: string -> string, v: Value, path: seq<Selector>)
    requires PathFate(path) == Kept && At(v, path).Some?
    ensures At(Plain(redact, v), path).Some?
    ensures var was, now := At(v, path).value, At(Plain(redact, v), path).value;
            (was.Str? ==> now == Str(Text(redact, was.s))) && (was.Other? ==> now == was) &&
            (was.Obj? ==> now.Obj? && now.fields.Keys == was.fields.Keys) &&
            (was.ObjList? ==> now.ObjList? && |now.objects| == |was.objects|) && (was.List? ==> now.List? && |now.items| == |was.items|)
  {
    SanitizedAt(redact, v, path);
    LeafSanitized(redact, At(v, path).value);
  }

  lemma LeafSanitized(redact: string -> string, was: Value)
    ensures var now := Plain(redact, was);
            (was.Str? ==> now == Str(Text(redact, was.s))) && (was.Other? ==> now == was) &&
            (was.Obj? ==> now.Obj? && now.fields.Keys == was.fields.Keys) &&
            (was.ObjList? ==> now.ObjList? && |now.objects| == |was.objects|) && (was.List? ==> now.List? && |now.items| == |was.items|)
  {
    EmptyNotSensitive();
    if was.Obj? { Entries(redact, was.fields); }
  }

  /** What sanitizing does to a field with a harmless name. */
  lemma FieldSanitized(redact: string -> string, v: Value, name: string)
    requires !Secret(name)
    ensures Plain(redact, v).Obj? <==> v.Obj?
    ensures v.Obj? ==> (name in Plain(redact, v).fields <==> name in v.fields)
    ensures v.Obj? && name in v.fields ==> Plain(redact, v).fields[name] == Plain(redact, v.fields[name])
  {
    LeafSanitized(redact, v);
    if v.Obj? {
      EmptyNotSensitive();
      SecretsMasked(redact, v.fields, name);
      assert Plain(redact, v) == Obj(SanitizeMap(redact, v.fields));
    }
  }

  lemma KindKept(redact: string -> string, v: Value)
    ensures Plain(redact, v).Str? <==> v.Str?
    ensures Plain(redact, v).Obj? <==> v.Obj?
    ensures Plain(redact, v).ObjList? <==> v.ObjList?
    ensures Plain(redact, v).Other? <==> v.Other?
  {
    EmptyNotSensitive();
  }

  lemma ObjectsSanitized(redact: string -> string, v: Value)
    requires v.ObjList?
    ensures Plain(redact, v).ObjList? && |Plain(redact, v).objects| == |v.objects|
    ensures forall i :: 0 <= i < |v.objects| ==> Plain(redact, v).objects[i] == Plain(redact, v.objects[i])
  {
    EmptyNotSensitive();
  }

  /** Every string reached in a sanitized value is bounded. */
  lemma StringsBounded(redact: string -> string, v: Value, path: seq<Selector>, s: string)
    requires At(Plain(redact, v), path) == Some(Str(s))
    ensures |s| <= LIMIT + 14
  {
    EmptyNotSensitive();
    SanitizedAt(redact, v, path);
  }

  // ---- Idempotence ----

  /** Redaction leaves text that was sanitized before as it is. */
  ghost predicate RedactionStable(redact: string -> string) {
    forall s :: redact(Text(redact, s)) == Text(redact, s)
  }

  ghost predicate MapsSettle(redact: string -> string) {
    forall m: map<string, Value> :: SanitizeMap(redact, SanitizeMap(redact, m)) == SanitizeMap(redact, m)
  }

  ghost predicate TextsSettle(redact: string -> string) {
    forall s :: Text(redact, Text(redact, s)) == Text(redact, s)
  }

  lemma TextIdempotent(redact: string -> string, s: string)
    requires RedactionStable(redact)
    ensures Text(redact, Text(redact, s)) == Text(redact, s)
  {
    var t := Text(redact, s);
    assert redact(t) == t;
    if |t| > LIMIT {
      assert t[..LIMIT] == redact(s)[..LIMIT];
    }
  }

  lemma {:induction false} ValueIdempotent(redact: string -> string, key: string, v: Value)
    requires TextsSettle(redact)
    ensures SanitizeValue(redact, key, SanitizeValue(redact, key, v)) == SanitizeValue(redact, key, v)
    decreases v
  {
    if !Sensitive(key) {
      var w := SanitizeValue(redact, key, v);
      match v
      case Obj(fields) =>
        assert w == Obj(SanitizeMap(redact, fields));
        Entries(redact, fields);
        Entries(redact, w.fields);
        forall k | k in fields { ValueIdempotent(redact, k, fields[k]); }
        assert SanitizeMap(redact, w.fields) == w.fields;
      case ObjList(objects) =>
        forall i | 0 <= i < |objects| { ValueIdempotent(redact, "", objects[i]); }
        assert SanitizeValue(redact, key, w).objects == w.objects;
      case List(items) =>
        forall i | 0 <= i < |items| { ValueIdempotent(redact, "", items[i]); }
        assert SanitizeValue(redact, key, w).items == w.items;
      case _ =>
    }
  }

  lemma EntryIdempotent(redact: string -> string, s: string)
    requires SanitizeMap(redact, SanitizeMap(redact, map["" := Str(s)])) == SanitizeMap(redact, map["" := Str(s)])
    ensures Text(redact, Text(redact, s)) == Text(redact, s)
  {
    var m := map["" := Str(s)];
    EmptyNotSensitive();
    Entries(redact, m);
    Entries(redact, SanitizeMap(redact, m));
    assert SanitizeMap(redact, m)[""] == Str(Text(redact, s));
    assert SanitizeValue(redact, "", Str(Text(redact, s))) == Str(Text(redact, Text(redact, s)));
  }

  /** Sanitizing twice is sanitizing once, for all values, exactly when it is so
      for texts; a redaction that leaves sanitized text alone guarantees it. */
  lemma Idempotent(redact: string -> string)
    ensures MapsSettle(redact) <==> TextsSettle(redact)
    ensures RedactionStable(redact) ==> MapsSettle(redact)
  {
    EmptyNotSensitive();
    if RedactionStable(redact) {
      forall s ensures Text(redact, Text(redact, s)) == Text(redact, s) { TextIdempotent(redact, s); }
    }
    if TextsSettle(redact) {
      forall m: map<string, Value>
        ensures SanitizeMap(redact, SanitizeMap(redact, m)) == SanitizeMap(redact, m)
      {
        ValueIdempotent(redact, "", Obj(m));
      }
    }
    if MapsSettle(redact) {
      forall s ensures Text(redact, Text(redact, s)) == Text(redact, s) { EntryIdempotent(redact, s); }
    }
  }
}
