/** How a services.cnf file may be written, without the functions that read it: any
    blanks around names, keys, '=' and values, keys and types in any case, and any
    blank and comment lines in between. */
module ServiceSpelling {
  import opened Basics
  import opened Services
  import opened ServiceFiles
  import opened ServicePrint
  import R = Routing

  predicate Blanks(s: string) {
    forall k :: 0 <= k < |s| ==> s[k] in R.BLANKS
  }

  /** The same letters, some of them perhaps capitals. */
  predicate SameLetters(s: string, small: string) {
    |s| == |small| && forall k :: 0 <= k < |s| ==> R.Reads(s[k], small[k])
  }

  datatype Entry = Header(name: string) | Field(key: string, value: string)

  predicate HeaderAt(line: string, name: string, a: string, b: string, c: string, d: string) {
    Blanks(a) && Blanks(b) && Blanks(c) && Blanks(d) && line == a + ("[" + (b + name + c) + "]") + d
  }

  ghost predicate WritesHeader(line: string, name: string) {
    exists a, b, c, d :: HeaderAt(line, name, a, b, c, d)
  }

  predicate FieldAt(line: string, key: string, value: string, a: string, k: string, b: string, c: string, v: string, d: string) {
    Blanks(a) && Blanks(b) && Blanks(c) && Blanks(d) && SameLetters(k, key) &&
    (v == value || (key == "type" && SameLetters(v, value))) && line == a + (k + b) + "=" + (c + v) + d
  }

  ghost predicate WritesField(line: string, key: string, value: string) {
    exists a, k, b, c, v, d :: FieldAt(line, key, value, a, k, b, c, v, d)
  }

  ghost predicate Writes(line: string, e: Entry) {
    match e
    case Header(name) => WritesHeader(line, name)
    case Field(key, value) => WritesField(line, key, value)
  }

  /** Blank, or a comment after blanks. */
  ghost predicate SaysNothing(line: string) {
    Blanks(line) || exists a, c, rest :: Blanks(a) && (c == '#' || c == ';') && line == a + ([c] + rest)
  }

  ghost predicate Spells(lines: seq<string>, entries: seq<Entry>) {
    if lines == [] then entries == []
    else
      var init, last := lines[..|lines| - 1], lines[|lines| - 1];
      (SaysNothing(last) && Spells(init, entries)) ||
      (entries != [] && Writes(last, entries[|entries| - 1]) && Spells(init, entries[..|entries| - 1]))
  }

  function FieldEntries(fields: seq<(string, string)>): seq<Entry> {
    seq(|fields|, i requires 0 <= i < |fields| => Field(fields[i].0, fields[i].1))
  }

  function Entries(profiles: seq<Profile>): seq<Entry> {
    if profiles == [] then []
    else
      Entries(profiles[..|profiles| - 1]) + [Header(profiles[|profiles| - 1].name)] + FieldEntries(Fields(profiles[|profiles| - 1]))
  }

  // ---- Single lines ----

  lemma BlankIsSpace(s: string)
    ensures Blanks(s) <==> forall k :: 0 <= k < |s| ==> IsSpace(s[k])
  {
    forall c ensures c in R.BLANKS <==> IsSpace(c) { R.BlankIsSpace(c); }
  }

  lemma {:induction false} TrimLeftSkips(a: string, t: string)
    requires Blanks(a)
    ensures TrimLeft(a + t) == TrimLeft(t)
  {
    BlankIsSpace(a);
    if a == "" {
      assert a + t == t;
    } else {
      TrimLeftSkips(a[1..], t);
      assert (a + t)[1..] == a[1..] + t;
    }
  }

  lemma {:induction false} TrimRightSkips(t: string, d: string)
    requires Blanks(d)
    ensures TrimRight(t + d) == TrimRight(t)
  {
    BlankIsSpace(d);
    if d == "" {
      assert t + d == t;
    } else {
      TrimRightSkips(t, d[..|d| - 1]);
      assert (t + d)[..|t + d| - 1] == t + d[..|d| - 1];
    }
  }

  /** Trimming removes the blanks around a text that has none at its ends. */
  lemma TrimAround(a: string, t: string, d: string)
    requires Blanks(a) && Blanks(d) && Tidy(t)
    ensures Trim(a + t + d) == t
  {
    assert a + t + d == a + (t + d);
    TrimLeftSkips(a, t + d);
    if t == "" {
      assert t + d == d && d + "" == d;
      TrimLeftSkips(d, "");
    } else {
      assert TrimLeft(t + d) == t + d;
      TrimRightSkips(t, d);
    }
  }

  lemma BracketsRead(inner: string)
    ensures Classify("[" + inner + "]") == Section(Trim(inner))
  {
    var t := "[" + inner + "]";
    assert t[0] == '[' && t[|t| - 1] == ']' && Trim(t) == t;
    assert t[1..|t| - 1] == inner;
  }

  lemma HeaderItem(line: string, name: string)
    requires WritesHeader(line, name) && ValidName(name)
    ensures Classify(line) == Section(name)
  {
    var a, b, c, d :| HeaderAt(line, name, a, b, c, d);
    var t := "[" + (b + name + c) + "]";
    assert Tidy(t) by { assert t[0] == '[' && t[|t| - 1] == ']'; }
    TrimAround(a, t, d);
    TrimClassifies(line);
    BracketsRead(b + name + c);
    TrimAround(b, name, c);
  }

  lemma LettersNormal(s: string, small: string)
    requires SameLetters(s, small)
    ensures Lower(s) == small
  {
    forall k | 0 <= k < |s| ensures Lower(s)[k] == small[k] { R.ReadsIsLower(s[k], small[k]); }
  }

  lemma LetterIsKeyChar(c: char, d: char)
    requires R.Reads(c, d) && ('a' <= d <= 'z' || d == '_')
    ensures c != '=' && !IsSpace(c) && c != '#' && c != ';' && c != '['
  {
    R.ReadsIsLower(c, d);
  }

  /** The key as it stands before the '='. */
  predicate RawKey(raw: string, key: string) {
    Key(raw) == key && raw != "" && (forall k :: 0 <= k < |raw| ==> raw[k] != '=') &&
    !IsSpace(raw[0]) && raw[0] != '#' && raw[0] != ';' && raw[0] != '['
  }

  lemma KeyWithBlanks(k: string, b: string, key: string)
    requires PlainKey(key) && SameLetters(k, key) && Blanks(b)
    ensures RawKey(k + b, key)
  {
    LettersNormal(k, key);
    BlankIsSpace(b);
    forall i | 0 <= i < |k| ensures k[i] != '=' && !IsSpace(k[i]) && k[i] != '#' && k[i] != ';' && k[i] != '[' {
      LetterIsKeyChar(k[i], key[i]);
    }
    assert Lower(k + b) == key + Lower(b);
    LowerBlanks(b);
    assert "" + key + Lower(b) == key + Lower(b);
    TrimAround("", key, Lower(b));
  }

  lemma LowerBlanks(b: string)
    requires Blanks(b)
    ensures Blanks(Lower(b))
  {
    BlankIsSpace(b);
    BlankIsSpace(Lower(b));
  }

  lemma FieldLineReads(raw: string, key: string, rest: string)
    requires RawKey(raw, key) && (rest == "" || !IsSpace(rest[|rest| - 1]))
    ensures Trim(raw + "=" + rest) == raw + "=" + rest
    ensures Classify(raw + "=" + rest) == Property(raw, rest)
  {
    var line := raw + "=" + rest;
    assert line[0] == raw[0] && line[|line| - 1] == if rest == "" then '=' else rest[|rest| - 1];
    assert Trim(line) == line;
    FirstEquals(raw, rest);
    assert line[..|raw|] == raw && line[|raw| + 1..] == rest;
  }

  /** The line as a property whose key and value mean the given ones. */
  predicate Means(item: Item, key: string, value: string) {
    item.Property? && Key(item.key) == key &&
    (if key == "type" then Lower(Trim(item.value)) == value else Trim(item.value) == value)
  }

  lemma ValuedParts(a: string, raw: string, key: string, c: string, v: string, d: string)
    requires Blanks(a) && Blanks(c) && Blanks(d) && RawKey(raw, key) && Tidy(v) && v != ""
    ensures Classify(a + raw + "=" + (c + v) + d) == Property(raw, c + v) && Trim(c + v) == v
  {
    var t := raw + "=" + (c + v);
    FieldLineReads(raw, key, c + v);
    assert a + raw + "=" + (c + v) + d == a + t + d;
    assert t[0] == raw[0] && t[|t| - 1] == v[|v| - 1];
    TrimAround(a, t, d);
    TrimClassifies(a + t + d);
    assert c + v + "" == c + v;
    TrimAround(c, v, "");
  }

  lemma EmptyParts(a: string, raw: string, key: string, c: string, d: string)
    requires Blanks(a) && Blanks(c) && Blanks(d) && RawKey(raw, key)
    ensures Classify(a + raw + "=" + (c + "") + d) == Property(raw, "")
  {
    var t := raw + "=" + "";
    FieldLineReads(raw, key, "");
    assert a + raw + "=" + (c + "") + d == a + t + (c + d);
    assert t[0] == raw[0] && t[|t| - 1] == '=';
    TrimAround(a, t, c + d);
    TrimClassifies(a + t + (c + d));
  }

  lemma FieldParts(a: string, k: string, b: string, c: string, v: string, d: string, key: string)
    requires Blanks(a) && Blanks(b) && Blanks(c) && Blanks(d) && PlainKey(key) && SameLetters(k, key) && Tidy(v)
    ensures var item := Classify(a + (k + b) + "=" + (c + v) + d); item.Property? && Key(item.key) == key && Trim(item.value) == v
  {
    KeyWithBlanks(k, b, key);
    if v == "" { EmptyParts(a, k + b, key, c, d); } else { ValuedParts(a, k + b, key, c, v, d); }
  }

  lemma LettersTidy(v: string, value: string)
    requires SameLetters(v, value) && Tidy(value)
    ensures Tidy(v)
  {
    if v != "" {
      R.ReadsIsLower(v[0], value[0]);
      R.ReadsIsLower(v[|v| - 1], value[|v| - 1]);
    }
  }

  lemma FieldItem(line: string, key: string, value: string)
    requires WritesField(line, key, value) && PlainKey(key) && Tidy(value) && (key == "type" ==> Lower(value) == value)
    ensures Means(Classify(line), key, value)
  {
    var a, k, b, c, v, d :| FieldAt(line, key, value, a, k, b, c, v, d);
    if v != value {
      LettersTidy(v, value);
      LettersNormal(v, value);
    }
    FieldParts(a, k, b, c, v, d, key);
  }

  lemma NothingItem(line: string)
    requires SaysNothing(line)
    ensures Classify(line) == Skip
  {
    if Blanks(line) {
      assert "" + "" + line == line;
      TrimAround("", "", line);
    } else {
      var a, c, rest :| Blanks(a) && (c == '#' || c == ';') && line == a + ([c] + rest);
      TrimLeftSkips(a, [c] + rest);
      FirstStays([c] + rest);
    }
  }

  lemma {:induction false} FirstStays(s: string)
    requires s != "" && !IsSpace(s[0])
    ensures TrimRight(s) != "" && TrimRight(s)[0] == s[0]
  {
    if IsSpace(s[|s| - 1]) { FirstStays(s[..|s| - 1]); }
  }

  // ---- Whole files ----

  /** An entry that can be written and read. */
  predicate Good(e: Entry) {
    match e
    case Header(name) => ValidName(name)
    case Field(key, value) => PlainKey(key) && Tidy(value) && (key == "type" ==> Lower(value) == value)
  }

  /** The parser's next state for an entry. */
  function Take(s: State, e: Entry): Result<State> {
    match e
    case Header(name) => Next(s, Section(name), 0)
    case Field(key, value) => Next(s, Property(key, value), 0)
  }

  function TakeAll(entries: seq<Entry>): Result<State> {
    if entries == [] then Ok(State(map[], None))
    else
      var before := TakeAll(entries[..|entries| - 1]);
      if before.Err? then before else Take(before.value, entries[|entries| - 1])
  }

  predicate Agree(a: Result<State>, b: Result<State>) {
    (a.Ok? <==> b.Ok?) && (a.Ok? ==> a == b)
  }

  lemma FieldByMeaning(p: Profile, key: string, v: string, v': string)
    requires if key == "type" then Lower(Trim(v)) == Lower(Trim(v')) else Trim(v) == Trim(v')
    ensures SetField(p, key, v) == SetField(p, key, v')
  {
  }

  lemma TidyStays(v: string)
    requires Tidy(v)
    ensures Trim(v) == v
  {
    assert "" + v + "" == v;
    TrimAround("", v, "");
  }

  lemma SameField(p: Profile, item: Item, key: string, value: string)
    requires Means(item, key, value) && PlainKey(key) && Tidy(value) && (key == "type" ==> Lower(value) == value)
    ensures SetField(p, Key(item.key), item.value) == SetField(p, Key(key), value)
  {
    PlainKeyStays(key);
    TidyStays(value);
    FieldByMeaning(p, key, item.value, value);
  }

  lemma LineTakes(s: State, line: string, e: Entry, n: nat)
    requires Good(e) && Writes(line, e)
    ensures Agree(Next(s, Classify(line), n), Take(s, e))
  {
    match e
    case Header(name) => HeaderItem(line, name);
    case Field(key, value) =>
      FieldItem(line, key, value);
      if s.current.Some? { SameField(s.current.value, Classify(line), key, value); }
  }

  /** A file that spells the entries is read as those entries. */
  lemma {:induction false} SpelledIsRead(lines: seq<string>, entries: seq<Entry>)
    requires Spells(lines, entries) && forall e :: e in entries ==> Good(e)
    ensures Agree(After(lines), TakeAll(entries))
  {
    if lines != [] {
      var init, last := lines[..|lines| - 1], lines[|lines| - 1];
      if SaysNothing(last) && Spells(init, entries) {
        SpelledIsRead(init, entries);
        NothingItem(last);
      } else {
        var before, e := entries[..|entries| - 1], entries[|entries| - 1];
        SpelledIsRead(init, before);
        assert e in entries;
        if After(init).Ok? { LineTakes(After(init).value, last, e, |lines|); }
      }
    }
  }

  // ---- The printed lines spell the catalog ----

  lemma HeaderSpelled(name: string)
    ensures Writes("[" + name + "]", Header(name))
  {
    var line := "[" + name + "]";
    assert HeaderAt(line, name, "", "", "", "");
  }

  lemma FieldSpelled(key: string, value: string)
    requires PlainKey(key)
    ensures Writes(FieldLine((key, value)), Field(key, value))
  {
    forall k | 0 <= k < |key| ensures R.Reads(key[k], key[k]) { R.ReadsIsLower(key[k], key[k]); }
    var line := FieldLine((key, value));
    assert line == "" + (key + "") + "=" + ("" + value) + "";
    assert FieldAt(line, key, value, "", key, "", "", value, "");
  }

  lemma {:induction false} MoreSpelled(lines: seq<string>, entries: seq<Entry>, more: seq<string>, fields: seq<Entry>)
    requires Spells(lines, entries) && |more| == |fields| && forall i :: 0 <= i < |more| ==> Writes(more[i], fields[i])
    ensures Spells(lines + more, entries + fields)
  {
    if more == [] {
      assert lines + more == lines && entries + fields == entries;
    } else {
      var n := |more| - 1;
      MoreSpelled(lines, entries, more[..n], fields[..n]);
      assert (lines + more)[..|lines + more| - 1] == lines + more[..n];
      assert (entries + fields)[..|entries + fields| - 1] == entries + fields[..n];
    }
  }

  lemma {:induction false} PrintedIsSpelled(profiles: seq<Profile>)
    requires forall i :: 0 <= i < |profiles| ==> WellFormed(profiles[i])
    ensures Spells(Print(profiles), Entries(profiles))
  {
    if profiles != [] {
      var init, p := profiles[..|profiles| - 1], profiles[|profiles| - 1];
      PrintedIsSpelled(init);
      assert BlocksOf(profiles)[..|profiles| - 1] == BlocksOf(init) && BlocksOf(profiles)[|profiles| - 1] == BlockOf(p);
      BlockSpelled(p);
      MoreSpelled(Print(init), Entries(init), PrintBlock(BlockOf(p)), [Header(p.name)] + FieldEntries(Fields(p)));
      assert Entries(init) + ([Header(p.name)] + FieldEntries(Fields(p))) == Entries(init) + [Header(p.name)] + FieldEntries(Fields(p));
    }
  }

  lemma BlockSpelled(p: Profile)
    requires WellFormed(p)
    ensures var lines, entries := PrintBlock(BlockOf(p)), [Header(p.name)] + FieldEntries(Fields(p));
            |lines| == |entries| && forall i :: 0 <= i < |lines| ==> Writes(lines[i], entries[i])
  {
    var lines, entries := PrintBlock(BlockOf(p)), [Header(p.name)] + FieldEntries(Fields(p));
    forall i | 0 <= i < |lines| ensures Writes(lines[i], entries[i]) {
      if i == 0 {
        HeaderSpelled(p.name);
      } else {
        KeysArePlain(Fields(p)[i - 1].0);
        FieldSpelled(Fields(p)[i - 1].0, Fields(p)[i - 1].1);
      }
    }
  }

  lemma {:induction false} EntriesAreGood(profiles: seq<Profile>)
    requires forall i :: 0 <= i < |profiles| ==> WellFormed(profiles[i])
    ensures forall e :: e in Entries(profiles) ==> Good(e)
  {
    if profiles != [] {
      EntriesAreGood(profiles[..|profiles| - 1]);
      FieldsAreGood(profiles[|profiles| - 1]);
    }
  }

  lemma FieldsAreGood(p: Profile)
    requires WellFormed(p)
    ensures forall e :: e in FieldEntries(Fields(p)) ==> Good(e)
  {
    forall i | 0 <= i < |Fields(p)| ensures Good(FieldEntries(Fields(p))[i]) {
      KeysArePlain(Fields(p)[i].0);
    }
  }

  // ---- Main result ----

  /** However a catalog is spelled, it is read back as it was. */
  lemma SpelledThenParsed(profiles: seq<Profile>, lines: seq<string>)
    requires forall i :: 0 <= i < |profiles| ==> WellFormed(profiles[i])
    requires forall i, j :: 0 <= i < j < |profiles| ==> profiles[i].name != profiles[j].name
    requires Spells(lines, Entries(profiles))
    ensures ReadBack(profiles, Parse(lines))
  {
    EntriesAreGood(profiles);
    SpelledIsRead(lines, Entries(profiles));
    PrintedIsSpelled(profiles);
    SpelledIsRead(Print(profiles), Entries(profiles));
    PrintedIsMeaningful(profiles);
    PrintThenParse(profiles, Print(profiles));
  }

  /** ... also from the text of a file. */
  lemma SpelledThenRead(profiles: seq<Profile>, lines: seq<string>)
    requires forall i :: 0 <= i < |profiles| ==> WellFormed(profiles[i])
    requires forall i, j :: 0 <= i < j < |profiles| ==> profiles[i].name != profiles[j].name
    requires Spells(lines, Entries(profiles)) && forall i :: 0 <= i < |lines| ==> IsLine(lines[i])
    ensures ReadBack(profiles, Parse(Lines(Join(lines))))
  {
    LinesOfJoin(lines);
    SpelledThenParsed(profiles, lines);
  }

  // ---- Repeated keys and bad files ----

  /** A key that is given again takes its last value. */
  lemma LastValueCounts(p: Profile, key: string, first: string, second: string)
    ensures var once := SetField(p, key, first);
            once.Some? ==> SetField(once.value, key, second) == SetField(p, key, second)
  {
  }

  predicate AtLine(problem: Problem, n: nat) {
    match problem
    case InvalidName(line) => line == n
    case OutsideProfile(line) => line == n
    case NoEquals(line) => line == n
    case Unsupported(_, line) => line == n
    case _ => true
  }

  /** A file that is refused while it is read has a first bad line: what comes before
      can be read, and the problem names that line, counted from 1. */
  lemma {:induction false} FirstBadLine(lines: seq<string>) returns (n: nat)
    requires After(lines).Err?
    ensures 1 <= n <= |lines| && After(lines[..n - 1]).Ok? && After(lines[..n]) == After(lines) && AtLine(After(lines).problem, n)
  {
    n := |lines|;
    assert lines[..n] == lines;
    if After(lines[..n - 1]).Err? {
      var init := lines[..n - 1];
      n := FirstBadLine(init);
      assert init[..n] == lines[..n] && init[..n - 1] == lines[..n - 1];
    }
  }

  // ---- Names ----

  predicate StartsName(c: char) {
    c in R.SMALL || c in "0123456789"
  }

  lemma SmallLetter(c: char)
    ensures c in R.SMALL <==> 'a' <= c <= 'z'
  {
    forall i | 0 <= i < 26 ensures R.SMALL[i] as int == 97 + i { R.Letter(i); }
    if 'a' <= c <= 'z' { assert R.SMALL[c as int - 97] == c; }
  }

  lemma NameChar(c: char)
    ensures StartsName(c) <==> NameStart(c)
  {
    SmallLetter(c);
  }

  /** A valid name has one small letter or digit and at most 63 more characters, each
      a small letter, a digit, '_' or '-'. */
  lemma ValidNames(s: string)
    ensures ValidName(s) <==>
            s != "" && StartsName(s[0]) && |s[1..]| <= 63 && forall c :: c in s[1..] ==> StartsName(c) || c == '_' || c == '-'
  {
    forall c ensures StartsName(c) <==> NameStart(c) { NameChar(c); }
    if s != "" {
      assert forall i :: 1 <= i < |s| ==> s[i] == s[1..][i - 1];
    }
  }
}
