/** What a services.cnf file means, block by block, and which files are accepted. */
module ServiceFiles {
  import opened Basics
  import opened Services

  /** A section with its properties as written, in order. */
  datatype Block = Block(name: string, properties: seq<(string, string)>)

  function Grow(blocks: seq<Block>, item: Item): Option<seq<Block>> {
    match item
    case Skip => Some(blocks)
    case Section(name) => Some(blocks + [Block(name, [])])
    case Malformed => None
    case Property(key, value) =>
      if blocks == [] then None
      else
        var last := blocks[|blocks| - 1];
        Some(blocks[..|blocks| - 1] + [last.(properties := last.properties + [(key, value)])])
  }

  function GrowAll(blocks: seq<Block>, items: seq<Item>): Option<seq<Block>> {
    if items == [] then Some(blocks)
    else
      var before := GrowAll(blocks, items[..|items| - 1]);
      if before.None? then None else Grow(before.value, items[|items| - 1])
  }

  /** The blocks of a list of items; nothing for a property outside a section
      or a line that is no property. */
  function Blocks(items: seq<Item>): Option<seq<Block>> {
    GrowAll([], items)
  }

  function Classified(lines: seq<string>): seq<Item> {
    seq(|lines|, i requires 0 <= i < |lines| => Classify(lines[i]))
  }

  /** The last value given to a key, or nothing. */
  function LastValue(properties: seq<(string, string)>, key: string): string {
    if properties == [] then ""
    else if Key(properties[|properties| - 1].0) == key then Trim(properties[|properties| - 1].1)
    else LastValue(properties[..|properties| - 1], key)
  }

  function ProfileOf(b: Block): Profile {
    Profile(b.name, Lower(LastValue(b.properties, "type")), LastValue(b.properties, "host"), LastValue(b.properties, "port"),
            LastValue(b.properties, "user"), LastValue(b.properties, "password"), LastValue(b.properties, "url"),
            LastValue(b.properties, "process"), LastValue(b.properties, "unit"), LastValue(b.properties, "log_file"),
            LastValue(b.properties, "config_file"))
  }

  const KEYS := {"type", "host", "port", "user", "password", "url", "process", "unit", "log_file", "config_file"}

  predicate Readable(b: Block) {
    ValidName(b.name) && forall k :: 0 <= k < |b.properties| ==> Key(b.properties[k].0) in KEYS
  }

  predicate Complete(b: Block) {
    ProfileOf(b).kind != "" && ProfileOf(b).host != ""
  }

  predicate DistinctNames(blocks: seq<Block>) {
    forall i, j :: 0 <= i < j < |blocks| ==> blocks[i].name != blocks[j].name
  }

  /** The blocks a file may consist of. */
  predicate Acceptable(blocks: seq<Block>) {
    DistinctNames(blocks) && forall i :: 0 <= i < |blocks| ==> Readable(blocks[i]) && Complete(blocks[i])
  }

  predicate AcceptableSoFar(blocks: seq<Block>) {
    blocks == [] || (Acceptable(blocks[..|blocks| - 1]) && Readable(blocks[|blocks| - 1]))
  }

  function CatalogOf(blocks: seq<Block>): Profiles {
    if blocks == [] then map[]
    else CatalogOf(blocks[..|blocks| - 1])[blocks[|blocks| - 1].name := ProfileOf(blocks[|blocks| - 1])]
  }

  function StateOf(blocks: seq<Block>): State {
    if blocks == [] then State(map[], None)
    else State(CatalogOf(blocks[..|blocks| - 1]), Some(ProfileOf(blocks[|blocks| - 1])))
  }

  predicate Named(blocks: seq<Block>, name: string) {
    exists i :: 0 <= i < |blocks| && blocks[i].name == name
  }

  lemma NamedLast(blocks: seq<Block>, name: string)
    requires blocks != []
    ensures Named(blocks, name) <==> Named(blocks[..|blocks| - 1], name) || blocks[|blocks| - 1].name == name
  {
    var before := blocks[..|blocks| - 1];
    if Named(before, name) {
      var i :| 0 <= i < |before| && before[i].name == name;
      assert blocks[i].name == name;
    }
    if Named(blocks, name) && blocks[|blocks| - 1].name != name {
      var i :| 0 <= i < |blocks| && blocks[i].name == name;
      assert before[i].name == name;
    }
  }

  lemma {:induction false} CatalogKey(blocks: seq<Block>, name: string)
    ensures name in CatalogOf(blocks) <==> Named(blocks, name)
  {
    if blocks != [] {
      CatalogKey(blocks[..|blocks| - 1], name);
      NamedLast(blocks, name);
    }
  }

  lemma {:induction false} CatalogEntry(blocks: seq<Block>, i: nat)
    requires DistinctNames(blocks) && i < |blocks|
    ensures blocks[i].name in CatalogOf(blocks) && CatalogOf(blocks)[blocks[i].name] == ProfileOf(blocks[i])
  {
    if i < |blocks| - 1 {
      CatalogEntry(blocks[..|blocks| - 1], i);
      assert blocks[..|blocks| - 1][i] == blocks[i];
    }
  }

  lemma {:induction false} CatalogSize(blocks: seq<Block>)
    requires DistinctNames(blocks)
    ensures |CatalogOf(blocks)| == |blocks|
  {
    if blocks != [] {
      CatalogSize(blocks[..|blocks| - 1]);
      CatalogKey(blocks[..|blocks| - 1], blocks[|blocks| - 1].name);
    }
  }

  lemma AppendProperty(b: Block, key: string, value: string)
    ensures var grown := ProfileOf(b.(properties := b.properties + [(key, value)]));
            SetField(ProfileOf(b), Key(key), value) == if Key(key) in KEYS then Some(grown) else None
  {
    assert (b.properties + [(key, value)])[..|b.properties|] == b.properties;
  }

  lemma EmptyBlock(name: string)
    ensures ProfileOf(Block(name, [])) == Blank(name)
  {
  }

  lemma AcceptableLast(blocks: seq<Block>)
    requires AcceptableSoFar(blocks) && blocks != []
    ensures Acceptable(blocks) <==>
              Complete(blocks[|blocks| - 1]) && !Named(blocks[..|blocks| - 1], blocks[|blocks| - 1].name)
  {
    var before, last := blocks[..|blocks| - 1], blocks[|blocks| - 1];
    assert forall i :: 0 <= i < |before| ==> before[i] == blocks[i];
    if Named(before, last.name) {
      var i :| 0 <= i < |before| && before[i].name == last.name;
      assert blocks[i].name == last.name;
    }
  }

  /** Closing the current section succeeds exactly for acceptable blocks. */
  lemma ClosesBlocks(blocks: seq<Block>)
    requires AcceptableSoFar(blocks)
    ensures Closed(StateOf(blocks)).Ok? <==> Acceptable(blocks)
    ensures Acceptable(blocks) ==> Closed(StateOf(blocks)) == Ok(CatalogOf(blocks))
  {
    if blocks != [] {
      AcceptableLast(blocks);
      CatalogKey(blocks[..|blocks| - 1], blocks[|blocks| - 1].name);
    }
  }

  lemma PropertyStep(blocks: seq<Block>, key: string, value: string, line: nat)
    requires AcceptableSoFar(blocks) && blocks != []
    ensures Next(StateOf(blocks), Property(key, value), line).Ok? <==> AcceptableSoFar(Grow(blocks, Property(key, value)).value)
    ensures Next(StateOf(blocks), Property(key, value), line).Ok? ==>
              Next(StateOf(blocks), Property(key, value), line) == Ok(StateOf(Grow(blocks, Property(key, value)).value))
  {
    var before, last := blocks[..|blocks| - 1], blocks[|blocks| - 1];
    var grown := last.(properties := last.properties + [(key, value)]);
    AppendProperty(last, key, value);
    assert (before + [grown])[..|before|] == before;
    assert grown.properties[|last.properties|] == (key, value);
    assert forall k :: 0 <= k < |last.properties| ==> grown.properties[k] == last.properties[k];
    assert Readable(grown) <==> Key(key) in KEYS;
  }

  lemma GrowStep(blocks: seq<Block>, item: Item, line: nat)
    requires AcceptableSoFar(blocks)
    ensures Next(StateOf(blocks), item, line).Ok? <==> Grow(blocks, item).Some? && AcceptableSoFar(Grow(blocks, item).value)
    ensures Next(StateOf(blocks), item, line).Ok? ==> Next(StateOf(blocks), item, line) == Ok(StateOf(Grow(blocks, item).value))
  {
    match item {
      case Skip =>
      case Malformed =>
      case Section(name) =>
        ClosesBlocks(blocks);
        EmptyBlock(name);
        assert (blocks + [Block(name, [])])[..|blocks|] == blocks;
      case Property(key, value) =>
        if blocks != [] { PropertyStep(blocks, key, value, line); }
    }
  }

  lemma GrowKeepsBad(blocks: seq<Block>, item: Item)
    requires !AcceptableSoFar(blocks) && Grow(blocks, item).Some?
    ensures !AcceptableSoFar(Grow(blocks, item).value)
  {
    var before, last := blocks[..|blocks| - 1], blocks[|blocks| - 1];
    match item {
      case Skip =>
      case Section(name) =>
        assert (blocks + [Block(name, [])])[..|blocks|] == blocks;
        if Acceptable(blocks) {
          assert forall i :: 0 <= i < |before| ==> before[i] == blocks[i];
        }
      case Property(key, value) =>
        var grown := last.(properties := last.properties + [(key, value)]);
        assert (before + [grown])[..|before|] == before;
        if Readable(grown) {
          assert forall k :: 0 <= k < |last.properties| ==> grown.properties[k] == last.properties[k];
        }
    }
  }

  lemma {:induction false} AfterBlocks(lines: seq<string>)
    ensures After(lines).Ok? <==> Blocks(Classified(lines)).Some? && AcceptableSoFar(Blocks(Classified(lines)).value)
    ensures After(lines).Ok? ==> After(lines) == Ok(StateOf(Blocks(Classified(lines)).value))
  {
    if lines != [] {
      var before := lines[..|lines| - 1];
      AfterBlocks(before);
      assert Classified(lines)[..|lines| - 1] == Classified(before);
      var grouped := Blocks(Classified(before));
      if grouped.Some? {
        var item := Classify(lines[|lines| - 1]);
        if AcceptableSoFar(grouped.value) { GrowStep(grouped.value, item, |lines|); }
        else if Grow(grouped.value, item).Some? { GrowKeepsBad(grouped.value, item); }
      }
    }
  }

  lemma AcceptableIsSoFar(blocks: seq<Block>)
    requires Acceptable(blocks)
    ensures AcceptableSoFar(blocks)
  {
    if blocks != [] {
      assert forall i :: 0 <= i < |blocks| - 1 ==> blocks[..|blocks| - 1][i] == blocks[i];
    }
  }

  /** A file is accepted exactly when it consists of acceptable blocks, and then
      the catalog holds the last value of every property of every block. */
  lemma AcceptedFiles(lines: seq<string>)
    ensures Parse(lines).Ok? <==> Blocks(Classified(lines)).Some? && Acceptable(Blocks(Classified(lines)).value)
    ensures Parse(lines).Ok? ==> Parse(lines) == Ok(CatalogOf(Blocks(Classified(lines)).value))
  {
    AfterBlocks(lines);
    if Blocks(Classified(lines)).Some? {
      var blocks := Blocks(Classified(lines)).value;
      if AcceptableSoFar(blocks) { ClosesBlocks(blocks); }
      if Acceptable(blocks) { AcceptableIsSoFar(blocks); }
    }
  }

  function SectionNames(items: seq<Item>): seq<string> {
    if items == [] then []
    else
      var before := SectionNames(items[..|items| - 1]);
      if items[|items| - 1].Section? then before + [items[|items| - 1].name] else before
  }

  lemma {:induction false} BlocksAreSections(items: seq<Item>)
    requires Blocks(items).Some?
    ensures |SectionNames(items)| == |Blocks(items).value|
    ensures forall i :: 0 <= i < |Blocks(items).value| ==> Blocks(items).value[i].name == SectionNames(items)[i]
  {
    if items != [] { BlocksAreSections(items[..|items| - 1]); }
  }

  lemma EntryOf(blocks: seq<Block>, name: string)
    requires Acceptable(blocks) && Named(blocks, name)
    ensures name in CatalogOf(blocks) && ValidName(name)
    ensures CatalogOf(blocks)[name].name == name && CatalogOf(blocks)[name].kind != "" && CatalogOf(blocks)[name].host != ""
  {
    var i :| 0 <= i < |blocks| && blocks[i].name == name;
    CatalogEntry(blocks, i);
    assert Readable(blocks[i]) && Complete(blocks[i]);
  }

  /** An accepted file has one profile per section, under a valid name that no
      other section has, with a type and a host. */
  lemma OneProfilePerSection(lines: seq<string>)
    requires Parse(lines).Ok?
    ensures var names, catalog := SectionNames(Classified(lines)), Parse(lines).value;
            |catalog| == |names| &&
            (forall i, j :: 0 <= i < j < |names| ==> names[i] != names[j]) &&
            (forall name :: name in catalog <==> name in names) &&
            forall name | name in catalog ::
              ValidName(name) && catalog[name].name == name && catalog[name].kind != "" && catalog[name].host != ""
  {
    AcceptedFiles(lines);
    var blocks := Blocks(Classified(lines)).value;
    BlocksAreSections(Classified(lines));
    CatalogSize(blocks);
    var names, catalog := SectionNames(Classified(lines)), CatalogOf(blocks);
    forall name ensures name in catalog <==> name in names {
      CatalogKey(blocks, name);
      assert name in names <==> Named(blocks, name);
    }
    forall name | name in catalog
      ensures ValidName(name) && catalog[name].name == name && catalog[name].kind != "" && catalog[name].host != ""
    {
      CatalogKey(blocks, name);
      EntryOf(blocks, name);
    }
  }
}
