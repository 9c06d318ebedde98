/** Who may run what, without the functions that decide it: a worker's type is
    read without surrounding blanks and in small letters. */
module Routing {
  import opened Basics

  const CAPITALS := "ABCDEFGHIJKLMNOPQRSTUVWXYZ"
  const SMALL := "abcdefghijklmnopqrstuvwxyz"
  const BLANKS := [' ', '\t', '\n', '\r', 11 as char, 12 as char]

  /** The small letter of a capital, and any other character itself. */
  predicate Reads(c: char, d: char) {
    if c in CAPITALS then exists i :: 0 <= i < 26 && CAPITALS[i] == c && SMALL[i] == d else d == c
  }

  /** The text is the name in letters of any case, with any blanks around it. */
  predicate SpellsAt(text: string, name: string, i: nat) {
    i + |name| <= |text| &&
    (forall k :: 0 <= k < i ==> text[k] in BLANKS) && (forall k :: i + |name| <= k < |text| ==> text[k] in BLANKS) &&
    (forall k :: 0 <= k < |name| ==> Reads(text[i + k], name[k])) &&
    (name != "" ==> text[i] !in BLANKS && text[i + |name| - 1] !in BLANKS)
  }

  predicate Spells(text: string, name: string) {
    exists i :: 0 <= i <= |text| && SpellsAt(text, name, i)
  }

  /** A shell worker suits every job; any other suits the jobs of its own type,
      if it has one. */
  ghost predicate Suits(workerType: string, jobType: string) {
    Spells(workerType, "shell") || exists name :: name != "" && Spells(workerType, name) && Spells(jobType, name)
  }

  lemma Letter(i: nat)
    requires i < 26
    ensures CAPITALS[i] as int == 65 + i && SMALL[i] as int == 97 + i
  {
  }

  lemma ReadsIsLower(c: char, d: char)
    ensures Reads(c, d) <==> d == LowerChar(c)
  {
    forall i | 0 <= i < 26 ensures CAPITALS[i] as int == 65 + i && SMALL[i] as int == 97 + i { Letter(i); }
    if 'A' <= c <= 'Z' {
      assert CAPITALS[c as int - 65] == c;
    }
  }

  lemma BlankIsSpace(c: char)
    ensures c in BLANKS <==> IsSpace(c)
  {
  }

  lemma {:induction false} LeftBlanks(s: string) returns (i: nat)
    ensures i <= |s| && TrimLeft(s) == s[i..] && (forall k :: 0 <= k < i ==> IsSpace(s[k])) && (i < |s| ==> !IsSpace(s[i]))
  {
    i := 0;
    if s != [] && IsSpace(s[0]) {
      i := LeftBlanks(s[1..]);
      assert forall k :: 1 <= k < i + 1 ==> s[k] == s[1..][k - 1];
      i := i + 1;
    }
  }

  lemma {:induction false} RightBlanks(s: string) returns (j: nat)
    ensures j <= |s| && TrimRight(s) == s[..j] && (forall k :: j <= k < |s| ==> IsSpace(s[k])) && (j > 0 ==> !IsSpace(s[j - 1]))
  {
    j := |s|;
    if s != [] && IsSpace(s[|s| - 1]) {
      j := RightBlanks(s[..|s| - 1]);
      assert s[..|s| - 1][..j] == s[..j];
    }
  }

  /** What trimming leaves, by position. */
  lemma TrimAt(s: string) returns (i: nat, j: nat)
    ensures i <= j <= |s| && Trim(s) == s[i..j]
    ensures forall k :: 0 <= k < i || j <= k < |s| ==> IsSpace(s[k])
    ensures i < j ==> !IsSpace(s[i]) && !IsSpace(s[j - 1])
  {
    i := LeftBlanks(s);
    j := RightBlanks(s[i..]);
    assert forall k :: i <= k < |s| ==> s[i..][k - i] == s[k];
    assert s[i..][..j] == s[i..i + j];
    j := i + j;
  }

  lemma SpelledName(text: string, name: string, i: nat)
    requires SpellsAt(text, name, i)
    ensures name == Lower(Trim(text))
  {
    forall c, d ensures Reads(c, d) <==> d == LowerChar(c) { ReadsIsLower(c, d); }
    forall c ensures c in BLANKS <==> IsSpace(c) { BlankIsSpace(c); }
    var a, b := TrimAt(text);
    if name == "" {
      assert a == b;
    } else {
      assert a == i && b == i + |name|;
      assert forall k :: 0 <= k < |name| ==> Trim(text)[k] == text[i + k];
    }
  }

  /** Normalizing a type is reading it. */
  lemma SpellsIsNormal(text: string, name: string)
    ensures Spells(text, name) <==> name == Lower(Trim(text))
  {
    if Spells(text, name) {
      var i :| 0 <= i <= |text| && SpellsAt(text, name, i);
      SpelledName(text, name, i);
    } else if name == Lower(Trim(text)) {
      var i, j := TrimAt(text);
      forall c, d ensures Reads(c, d) <==> d == LowerChar(c) { ReadsIsLower(c, d); }
      forall c ensures c in BLANKS <==> IsSpace(c) { BlankIsSpace(c); }
      assert SpellsAt(text, name, i);
    }
  }

  /** The routing rule lets exactly the suitable workers run a job. */
  lemma CanRunExactly(workerType: string, jobType: string)
    ensures WorkerCanRunType(workerType, jobType) <==> Suits(workerType, jobType)
  {
    forall name ensures Spells(workerType, name) <==> name == Lower(Trim(workerType)) { SpellsIsNormal(workerType, name); }
    forall name ensures Spells(jobType, name) <==> name == Lower(Trim(jobType)) { SpellsIsNormal(jobType, name); }
    if WorkerCanRunType(workerType, jobType) && Lower(Trim(workerType)) != "shell" {
      assert Spells(workerType, Lower(Trim(workerType))) && Spells(jobType, Lower(Trim(workerType)));
    }
  }
}
