/** Printing a catalog as a services.cnf file and reading it back. */
module ServicePrint {
  import opened Basics
  import opened Services
  import opened ServiceFiles

  function Fields(p: Profile): seq<(string, string)> {
    [("type", p.kind), ("host", p.host), ("port", p.port), ("user", p.user), ("password", p.password),
     ("url", p.url), ("process", p.process), ("unit", p.unit), ("log_file", p.logFile), ("config_file", p.configFile)]
  }

  function FieldLine(f: (string, string)): string {
    f.0 + "=" + f.1
  }

  function PrintFields(fields: seq<(string, string)>): seq<string> {
    seq(|fields|, i requires 0 <= i < |fields| => FieldLine(fields[i]))
  }

  function PrintBlocks(blocks: seq<Block>): seq<string> {
    if blocks == [] then []
    else PrintBlocks(blocks[..|blocks| - 1]) + PrintBlock(blocks[|blocks| - 1])
  }

  function PrintBlock(b: Block): seq<string> {
    ["[" + b.name + "]"] + PrintFields(b.properties)
  }

  function BlockOf(p: Profile): Block {
    Block(p.name, Fields(p))
  }

  function BlocksOf(profiles: seq<Profile>): seq<Block> {
    seq(|profiles|, i requires 0 <= i < |profiles| => BlockOf(profiles[i]))
  }

  function Print(profiles: seq<Profile>): seq<string> {
    PrintBlocks(BlocksOf(profiles))
  }

  /** The lines that are neither blank nor comments, without surrounding space. */
  function Meaningful(lines: seq<string>): seq<string> {
    if lines == [] then []
    else
      var before := Meaningful(lines[..|lines| - 1]);
      if Classify(lines[|lines| - 1]).Skip? then before else before + [Trim(lines[|lines| - 1])]
  }

  predicate Tidy(v: string) {
    v == "" || (!IsSpace(v[0]) && !IsSpace(v[|v| - 1]))
  }

  /** A profile that can be written down: no value starts or ends with space or
      contains a newline. */
  predicate WellFormed(p: Profile) {
    ValidName(p.name) && p.kind != "" && p.host != "" && Lower(p.kind) == p.kind &&
    forall k :: 0 <= k < |Fields(p)| ==> Tidy(Fields(p)[k].1) && '\n' !in Fields(p)[k].1
  }

  // ---- Trimming ----

  lemma {:induction false} TrimRightTidies(s: string)
    ensures TrimRight(s) <= s && (TrimRight(s) == "" || !IsSpace(TrimRight(s)[|TrimRight(s)| - 1]))
  {
    if s != [] && IsSpace(s[|s| - 1]) { TrimRightTidies(s[..|s| - 1]); }
  }

  lemma {:induction false} TrimLeftTidies(s: string)
    ensures TrimLeft(s) == "" || !IsSpace(TrimLeft(s)[0])
  {
    if s != [] && IsSpace(s[0]) { TrimLeftTidies(s[1..]); }
  }

  lemma TrimIsTidy(s: string)
    ensures Tidy(Trim(s)) && Trim(Trim(s)) == Trim(s)
  {
    TrimLeftTidies(s);
    TrimRightTidies(TrimLeft(s));
  }

  // ---- Printed lines read as the items they stand for ----

  predicate PlainKey(k: string) {
    k != "" && forall i :: 0 <= i < |k| ==> 'a' <= k[i] <= 'z' || k[i] == '_'
  }

  lemma KeysArePlain(k: string)
    requires k in KEYS
    ensures PlainKey(k)
  {
  }

  lemma PlainKeyStays(k: string)
    requires PlainKey(k)
    ensures Key(k) == k
  {
    assert Lower(k) == k;
  }

  lemma {:induction false} FirstEquals(k: string, v: string)
    requires forall i :: 0 <= i < |k| ==> k[i] != '='
    ensures Equals(k + "=" + v) == |k|
  {
    if k == "" {
      assert k + "=" + v == "=" + v;
    } else {
      FirstEquals(k[1..], v);
      assert (k + "=" + v)[1..] == k[1..] + "=" + v;
    }
  }

  lemma FieldReads(k: string, v: string)
    requires PlainKey(k) && Tidy(v)
    ensures Classify(FieldLine((k, v))) == Property(k, v)
  {
    var line := k + "=" + v;
    assert line[0] == k[0];
    assert line[|line| - 1] == if v == "" then '=' else v[|v| - 1];
    assert Trim(line) == line;
    FirstEquals(k, v);
    assert line[..|k|] == k && line[|k| + 1..] == v;
  }

  lemma HeaderReads(name: string)
    requires ValidName(name)
    ensures Classify("[" + name + "]") == Section(name)
  {
    var line := "[" + name + "]";
    assert line[0] == '[' && line[|line| - 1] == ']' && Trim(line) == line;
    assert line[1..|line| - 1] == name;
    assert Tidy(name);
  }

  // ---- The blocks of a printed catalog ----

  lemma {:induction false} GrowConcat(blocks: seq<Block>, a: seq<Item>, b: seq<Item>)
    ensures GrowAll(blocks, a + b) ==
            if GrowAll(blocks, a).None? then None else GrowAll(GrowAll(blocks, a).value, b)
  {
    if b == [] {
      assert a + b == a;
    } else {
      var init := b[..|b| - 1];
      GrowConcat(blocks, a, init);
      assert (a + b)[..|a + b| - 1] == a + init;
    }
  }

  lemma GrowOne(blocks: seq<Block>, item: Item)
    ensures GrowAll(blocks, [item]) == Grow(blocks, item)
  {
    assert [item][..0] == [];
  }

  function Properties(fields: seq<(string, string)>): seq<Item> {
    seq(|fields|, i requires 0 <= i < |fields| => Property(fields[i].0, fields[i].1))
  }

  lemma GrowLast(before: seq<Block>, b: Block, key: string, value: string)
    ensures Grow(before + [b], Property(key, value)) == Some(before + [b.(properties := b.properties + [(key, value)])])
  {
    assert (before + [b])[..|before|] == before;
  }

  lemma ClassifiedConcat(a: seq<string>, b: seq<string>)
    ensures Classified(a + b) == Classified(a) + Classified(b)
  {
  }

  lemma {:induction false} FieldsJoinBlock(before: seq<Block>, name: string, fields: seq<(string, string)>)
    ensures GrowAll(before + [Block(name, [])], Properties(fields)) == Some(before + [Block(name, fields)])
  {
    if fields != [] {
      var init, last := fields[..|fields| - 1], fields[|fields| - 1];
      FieldsJoinBlock(before, name, init);
      GrowLast(before, Block(name, init), last.0, last.1);
      assert fields == init + [last];
      assert Properties(fields)[..|fields| - 1] == Properties(init);
    }
  }

  /** A block that can be written down. */
  predicate Writable(b: Block) {
    ValidName(b.name) && forall k :: 0 <= k < |b.properties| ==> PlainKey(b.properties[k].0) && Tidy(b.properties[k].1)
  }

  lemma BlockReads(b: Block)
    requires Writable(b)
    ensures Classified(PrintBlock(b)) == [Section(b.name)] + Properties(b.properties)
  {
    HeaderReads(b.name);
    forall k | 0 <= k < |b.properties| ensures Classify(PrintFields(b.properties)[k]) == Properties(b.properties)[k] {
      FieldReads(b.properties[k].0, b.properties[k].1);
    }
    ClassifiedConcat(["[" + b.name + "]"], PrintFields(b.properties));
    assert Classified(["[" + b.name + "]"]) == [Section(b.name)];
    assert Classified(PrintFields(b.properties)) == Properties(b.properties);
  }

  lemma OneMoreBlock(lines: seq<string>, before: seq<Block>, b: Block)
    requires Writable(b) && Blocks(Classified(lines)) == Some(before)
    ensures Blocks(Classified(lines + PrintBlock(b))) == Some(before + [b])
  {
    BlockReads(b);
    ClassifiedConcat(lines, PrintBlock(b));
    GrowConcat([], Classified(lines), Classified(PrintBlock(b)));
    GrowConcat(before, [Section(b.name)], Properties(b.properties));
    GrowOne(before, Section(b.name));
    FieldsJoinBlock(before, b.name, b.properties);
  }

  lemma {:induction false} PrintedBlocks(blocks: seq<Block>)
    requires forall b :: b in blocks ==> Writable(b)
    ensures Blocks(Classified(PrintBlocks(blocks))) == Some(blocks)
  {
    if blocks != [] {
      var init, last := blocks[..|blocks| - 1], blocks[|blocks| - 1];
      assert blocks == init + [last] && last in blocks;
      PrintedBlocks(init);
      OneMoreBlock(PrintBlocks(init), init, last);
    }
  }

  lemma {:induction false} LastValueAt(fields: seq<(string, string)>, k: nat)
    requires k < |fields| && forall i :: k < i < |fields| ==> Key(fields[i].0) != Key(fields[k].0)
    ensures LastValue(fields, Key(fields[k].0)) == Trim(fields[k].1)
  {
    if k < |fields| - 1 {
      var init := fields[..|fields| - 1];
      assert init[k] == fields[k];
      LastValueAt(init, k);
    }
  }

  lemma FieldKey(p: Profile, i: nat)
    requires i < 10
    ensures Key(Fields(p)[i].0) == Fields(p)[i].0
  {
    KeysArePlain(Fields(p)[i].0);
    PlainKeyStays(Fields(p)[i].0);
  }

  lemma FieldKeysDiffer(p: Profile, i: nat, k: nat)
    requires i < k < 10
    ensures Fields(p)[i].0 != Fields(p)[k].0
  {
  }

  lemma FieldValue(p: Profile, k: nat)
    requires WellFormed(p) && k < 10
    ensures LastValue(Fields(p), Fields(p)[k].0) == Fields(p)[k].1
  {
    var fields := Fields(p);
    FieldKey(p, k);
    forall i | k < i < |fields| ensures Key(fields[i].0) != Key(fields[k].0) {
      FieldKey(p, i);
      FieldKeysDiffer(p, k, i);
    }
    LastValueAt(fields, k);
    assert Tidy(fields[k].1);
  }

  lemma ProfileComesBack(p: Profile)
    requires WellFormed(p)
    ensures ProfileOf(BlockOf(p)) == p
  {
    FieldValue(p, 0); FieldValue(p, 1); FieldValue(p, 2); FieldValue(p, 3); FieldValue(p, 4);
    FieldValue(p, 5); FieldValue(p, 6); FieldValue(p, 7); FieldValue(p, 8); FieldValue(p, 9);
  }

  lemma PrintedAcceptable(p: Profile)
    requires WellFormed(p)
    ensures Readable(BlockOf(p)) && Complete(BlockOf(p)) && Writable(BlockOf(p))
  {
    ProfileComesBack(p);
    forall k | 0 <= k < |Fields(p)| ensures Key(Fields(p)[k].0) in KEYS && PlainKey(Fields(p)[k].0) {
      KeysArePlain(Fields(p)[k].0);
      PlainKeyStays(Fields(p)[k].0);
    }
  }

  // ---- The round trip ----

  lemma TrimClassifies(line: string)
    ensures Classify(Trim(line)) == Classify(line)
  {
    TrimIsTidy(line);
  }

  lemma {:induction false} SkippedLinesDoNotMatter(lines: seq<string>)
    ensures Blocks(Classified(lines)) == Blocks(Classified(Meaningful(lines)))
  {
    if lines != [] {
      var init, line := lines[..|lines| - 1], lines[|lines| - 1];
      SkippedLinesDoNotMatter(init);
      TrimClassifies(line);
      assert lines == init + [line];
      ClassifiedConcat(init, [line]);
      ClassifiedConcat(Meaningful(init), [Trim(line)]);
      assert Classified([line]) == [Classify(line)] && Classified([Trim(line)]) == [Classify(line)];
      GrowConcat([], Classified(init), [Classify(line)]);
      GrowConcat([], Classified(Meaningful(init)), [Classify(line)]);
      if Blocks(Classified(init)).Some? { GrowOne(Blocks(Classified(init)).value, Classify(line)); }
    }
  }

  /** The parser gave exactly these profiles, each under its name. */
  predicate ReadBack(profiles: seq<Profile>, parsed: Result<Profiles>) {
    parsed.Ok? && |parsed.value| == |profiles| &&
    forall i :: 0 <= i < |profiles| ==> profiles[i].name in parsed.value && parsed.value[profiles[i].name] == profiles[i]
  }

  /** A catalog printed with any indentation and any blank or comment lines
      in between is read back as it was. */
  lemma PrintThenParse(profiles: seq<Profile>, lines: seq<string>)
    requires forall i :: 0 <= i < |profiles| ==> WellFormed(profiles[i])
    requires forall i, j :: 0 <= i < j < |profiles| ==> profiles[i].name != profiles[j].name
    requires Meaningful(lines) == Print(profiles)
    ensures ReadBack(profiles, Parse(lines))
  {
    var blocks := BlocksOf(profiles);
    SkippedLinesDoNotMatter(lines);
    forall i | 0 <= i < |blocks| ensures Readable(blocks[i]) && Complete(blocks[i]) && Writable(blocks[i]) {
      PrintedAcceptable(profiles[i]);
    }
    assert forall b :: b in blocks ==> Writable(b);
    PrintedBlocks(blocks);
    assert Acceptable(blocks);
    AcceptedFiles(lines);
    CatalogSize(blocks);
    forall i | 0 <= i < |profiles|
      ensures profiles[i].name in Parse(lines).value && Parse(lines).value[profiles[i].name] == profiles[i]
    {
      CatalogEntry(blocks, i);
      ProfileComesBack(profiles[i]);
    }
  }

  // ---- Files ----

  /** Text that a file can carry as one line. */
  predicate IsLine(line: string) {
    '\n' !in line && (line == "" || line[|line| - 1] != '\r')
  }

  function Join(lines: seq<string>): string {
    if lines == [] then "" else lines[0] + "\n" + Join(lines[1..])
  }

  lemma {:induction false} FirstNewline(line: string, rest: string)
    requires '\n' !in line
    ensures Newline(line + "\n" + rest) == |line|
  {
    if line == "" {
      assert line + "\n" + rest == "\n" + rest;
    } else {
      FirstNewline(line[1..], rest);
      assert (line + "\n" + rest)[1..] == line[1..] + "\n" + rest;
    }
  }

  lemma {:induction false} LinesOfJoin(lines: seq<string>)
    requires forall i :: 0 <= i < |lines| ==> IsLine(lines[i])
    ensures Lines(Join(lines)) == lines
  {
    if lines != [] {
      var line, rest := lines[0], Join(lines[1..]);
      LinesOfJoin(lines[1..]);
      FirstNewline(line, rest);
      assert (line + "\n" + rest)[..|line|] == line && (line + "\n" + rest)[|line| + 1..] == rest;
    }
  }

  /** A carriage return before the newline is not part of the line. */
  lemma ReturnDropped(line: string)
    requires '\n' !in line
    ensures Lines(line + "\r" + "\n") == [line]
  {
    FirstNewline(line + "\r", "");
    var text := line + "\r" + "\n";
    assert text + "" == text;
    assert text[..|line| + 1] == line + "\r" && text[|line| + 2..] == "";
  }

  lemma FieldIsLine(f: (string, string))
    requires PlainKey(f.0) && Tidy(f.1) && '\n' !in f.1
    ensures IsLine(FieldLine(f))
  {
    var line := FieldLine(f);
    assert line[|line| - 1] == if f.1 == "" then '=' else f.1[|f.1| - 1];
  }

  lemma {:induction false} PrintedLines(profiles: seq<Profile>)
    requires forall i :: 0 <= i < |profiles| ==> WellFormed(profiles[i])
    ensures forall line :: line in Print(profiles) ==> IsLine(line)
  {
    if profiles != [] {
      var init, p := profiles[..|profiles| - 1], profiles[|profiles| - 1];
      PrintedLines(init);
      assert BlocksOf(profiles)[..|profiles| - 1] == BlocksOf(init);
      assert BlocksOf(profiles)[|profiles| - 1] == BlockOf(p);
      BlockIsLines(p);
    }
  }

  lemma BlockIsLines(p: Profile)
    requires WellFormed(p)
    ensures forall line :: line in PrintBlock(BlockOf(p)) ==> IsLine(line)
  {
    forall k | 0 <= k < |Fields(p)| ensures IsLine(PrintFields(Fields(p))[k]) {
      KeysArePlain(Fields(p)[k].0);
      FieldIsLine(Fields(p)[k]);
    }
    var header := "[" + p.name + "]";
    assert header[|header| - 1] == ']';
    assert forall i :: 0 <= i < |p.name| ==> p.name[i] != '\n';
  }

  /** Any file made of the printed lines, indented as one likes, and of blank and
      comment lines in between is read back. */
  lemma WriteThenRead(profiles: seq<Profile>, lines: seq<string>)
    requires forall i :: 0 <= i < |profiles| ==> WellFormed(profiles[i])
    requires forall i, j :: 0 <= i < j < |profiles| ==> profiles[i].name != profiles[j].name
    requires Meaningful(lines) == Print(profiles) && forall i :: 0 <= i < |lines| ==> IsLine(lines[i])
    ensures ReadBack(profiles, Parse(Lines(Join(lines))))
  {
    LinesOfJoin(lines);
    PrintThenParse(profiles, lines);
  }

  /** The printed lines alone are such a file. */
  lemma PrintThenRead(profiles: seq<Profile>)
    requires forall i :: 0 <= i < |profiles| ==> WellFormed(profiles[i])
    requires forall i, j :: 0 <= i < j < |profiles| ==> profiles[i].name != profiles[j].name
    ensures ReadBack(profiles, Parse(Lines(Join(Print(profiles)))))
  {
    PrintedLines(profiles);
    PrintedIsMeaningful(profiles);
    WriteThenRead(profiles, Print(profiles));
  }

  /** A line that the parser reads as it stands. */
  predicate Plain(line: string) {
    !Classify(line).Skip? && Trim(line) == line
  }

  lemma LastMeaningful(lines: seq<string>)
    requires lines != [] && Plain(lines[|lines| - 1])
    ensures Meaningful(lines) == Meaningful(lines[..|lines| - 1]) + [lines[|lines| - 1]]
  {
  }

  lemma {:induction false} AllMeaningful(lines: seq<string>)
    requires forall line :: line in lines ==> Plain(line)
    ensures Meaningful(lines) == lines
  {
    if lines != [] {
      var init, last := lines[..|lines| - 1], lines[|lines| - 1];
      assert lines == init + [last] && last in lines;
      LastMeaningful(lines);
      AllMeaningful(init);
    }
  }

  lemma BlockIsMeaningful(p: Profile)
    requires WellFormed(p)
    ensures forall line :: line in PrintBlock(BlockOf(p)) ==> Plain(line)
  {
    HeaderReads(p.name);
    assert Trim("[" + p.name + "]") == "[" + p.name + "]";
    forall k | 0 <= k < |Fields(p)| ensures Plain(PrintFields(Fields(p))[k]) {
      var f := Fields(p)[k];
      KeysArePlain(f.0);
      FieldReads(f.0, f.1);
      FieldTrimmed(f);
    }
  }

  lemma FieldTrimmed(f: (string, string))
    requires PlainKey(f.0) && Tidy(f.1)
    ensures Trim(FieldLine(f)) == FieldLine(f)
  {
    var line := FieldLine(f);
    assert line[0] == f.0[0];
    assert line[|line| - 1] == if f.1 == "" then '=' else f.1[|f.1| - 1];
  }

  lemma {:induction false} PrintedTrimmed(profiles: seq<Profile>)
    requires forall i :: 0 <= i < |profiles| ==> WellFormed(profiles[i])
    ensures forall line :: line in Print(profiles) ==> Plain(line)
  {
    if profiles != [] {
      PrintedTrimmed(profiles[..|profiles| - 1]);
      assert BlocksOf(profiles)[..|profiles| - 1] == BlocksOf(profiles[..|profiles| - 1]);
      assert BlocksOf(profiles)[|profiles| - 1] == BlockOf(profiles[|profiles| - 1]);
      BlockIsMeaningful(profiles[|profiles| - 1]);
    }
  }

  lemma PrintedIsMeaningful(profiles: seq<Profile>)
    requires forall i :: 0 <= i < |profiles| ==> WellFormed(profiles[i])
    ensures Meaningful(Print(profiles)) == Print(profiles)
  {
    PrintedTrimmed(profiles);
    AllMeaningful(Print(profiles));
  }
}
